/** Unsigned LEB128 varints, the encoding the `varint` package produces for
    non-negative integers (DWARF version 4, section 7.6, "Variable Length Data"):
    seven data bits per byte, least significant group first, the high bit set on
    every byte but the last. */
module Varint {
  import opened Wrappers
  import opened Js

  /** 128 to the power k: the smallest value that needs more than k bytes. */
  function Pow128(k: nat): (p: nat)
    ensures p >= 1
  {
    if k == 0 then 1 else 128 * Pow128(k - 1)
  }

  /** `encode(n)`. The encoding is well formed (only its last byte has the high
      bit clear) and minimal (it never ends in a redundant zero group). */
  function Encode(n: nat): (r: seq<byte>)
    ensures 1 <= |r|
    ensures r[|r| - 1] < 0x80
    ensures forall i :: 0 <= i < |r| - 1 ==> 0x80 <= r[i]
    ensures n > 0 ==> r[|r| - 1] != 0
  {
    if n < 0x80 then [n] else [n % 0x80 + 0x80] + Encode(n / 0x80)
  }

  /** `encodingLength(n)`: the number of bytes `encode(n)` will take, found as the
      library does, by comparing n against the thresholds 128, 128^2, 128^3, ...:
      the least k with n below 128^k. */
  function EncodingLength(n: nat): (k: nat)
    ensures 1 <= k
    ensures n < Pow128(k)
    ensures 1 < k ==> Pow128(k - 1) <= n
  {
    LengthFrom(n, 1)
  }

  /** The first k' >= k with n < 128^k'. */
  function LengthFrom(n: nat, k: nat): (j: nat)
    requires 1 <= k
    ensures k <= j
    ensures n < Pow128(j)
    ensures k < j ==> Pow128(j - 1) <= n
    decreases n - Pow128(k) + 1
  {
    if n < Pow128(k) then k else LengthFrom(n, k + 1)
  }

  /** Reads one varint from the front of s: its value and the number of bytes it
      took, or None when s ends inside the varint. */
  function Decode(s: seq<byte>): (r: Option<(nat, nat)>)
    ensures r.Some? ==> 1 <= r.value.1 <= |s|
  {
    if s == [] then None
    else if s[0] < 0x80 then Some((s[0], 1))
    else match Decode(s[1..])
      case None => None
      case Some((v, k)) => Some((s[0] - 0x80 + 0x80 * v, k + 1))
  }

  /** Decoding gives back the encoded value and stops exactly at its end,
      whatever follows it. */
  lemma {:induction false} DecodeEncode(n: nat, rest: seq<byte>)
    ensures Decode(Encode(n) + rest) == Some((n, |Encode(n)|))
  {
    if n >= 0x80 {
      DecodeEncode(n / 0x80, rest);
      assert (Encode(n) + rest)[1..] == Encode(n / 0x80) + rest;
    }
  }

  lemma {:induction false} PowMono(i: nat, j: nat)
    requires i <= j
    ensures Pow128(i) <= Pow128(j)
  {
    if i < j { PowMono(i, j - 1); }
  }

  /** `encode(n)` takes k bytes exactly when 128^(k-1) <= n < 128^k. */
  lemma {:induction false} EncodedSize(n: nat)
    ensures n < Pow128(|Encode(n)|)
    ensures 1 < |Encode(n)| ==> Pow128(|Encode(n)| - 1) <= n
  {
    if n >= 0x80 {
      EncodedSize(n / 0x80);
      assert Pow128(1) == 128;
    }
  }

  lemma {:induction false} LengthFromIs(n: nat, k: nat, j: nat)
    requires 1 <= k <= j
    requires n < Pow128(j)
    requires k < j ==> Pow128(j - 1) <= n
    ensures LengthFrom(n, k) == j
    decreases j - k
  {
    if n < Pow128(k) {
      if k < j { PowMono(k, j - 1); }
    } else {
      LengthFromIs(n, k + 1, j);
    }
  }

  /** The framing of a packet relies on this: `encodingLength(n)` is the length
      of `encode(n)`. */
  lemma EncodingLengthIsSize(n: nat)
    ensures EncodingLength(n) == |Encode(n)|
  {
    EncodedSize(n);
    LengthFromIs(n, 1, |Encode(n)|);
  }

  /** A larger value never takes fewer bytes. */
  lemma EncodingLengthMono(m: nat, n: nat)
    requires m <= n
    ensures EncodingLength(m) <= EncodingLength(n)
  {
    if EncodingLength(n) < EncodingLength(m) {
      PowMono(EncodingLength(n), EncodingLength(m) - 1);
    }
  }

  /** Both lengths for a value known to lie between two thresholds. */
  lemma EncodingLengthBetween(n: nat, k: nat)
    requires 1 <= k
    requires n < Pow128(k)
    requires 1 < k ==> Pow128(k - 1) <= n
    ensures EncodingLength(n) == k == |Encode(n)|
  {
    LengthFromIs(n, 1, k);
    EncodingLengthIsSize(n);
  }
}
