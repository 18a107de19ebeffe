/** The JavaScript string operations the ping client relies on, on strings of
    UTF-16 code units: `Buffer.from(string)` (UTF-8), `Buffer#toString('utf16le')`,
    `String#split` with a one-unit separator, and `parseInt(s, 10)`. */
module JsText {
  import opened Js

  const NUL: CodeUnit := 0x00
  const SECTION_SIGN: CodeUnit := 0xA7   // '§'
  const MINUS: CodeUnit := 0x2D
  const PLUS: CodeUnit := 0x2B
  const DIGIT_ZERO: CodeUnit := 0x30

  /** String(undefined): what `parseInt` reads when a destructured field is missing. */
  const UNDEFINED: JsString := [0x75, 0x6E, 0x64, 0x65, 0x66, 0x69, 0x6E, 0x65, 0x64]

  predicate IsAscii(s: JsString)
  {
    forall i :: 0 <= i < |s| ==> s[i] < 0x80
  }

  predicate IsHighSurrogate(c: CodeUnit) { 0xD800 <= c < 0xDC00 }

  predicate IsLowSurrogate(c: CodeUnit) { 0xDC00 <= c < 0xE000 }

  // ---------------------------------------------------------------------------
  // Buffer.from(string): UTF-8, a lone surrogate becoming U+FFFD

  /** Every code unit takes at least one byte and at most three. */
  function Utf8(s: JsString): (r: seq<byte>)
    ensures |s| <= |r| <= 3 * |s|
    decreases |s|
  {
    if s == [] then []
    else
      var c := s[0];
      if c < 0x80 then [c] + Utf8(s[1..])
      else if c < 0x800 then [0xC0 + c / 0x40, 0x80 + c % 0x40] + Utf8(s[1..])
      else if IsHighSurrogate(c) && |s| >= 2 && IsLowSurrogate(s[1]) then
        var cp: int := 0x1_0000 + (c as int - 0xD800) * 0x400 + (s[1] as int - 0xDC00);
        [0xF0 + cp / 0x4_0000, 0x80 + cp / 0x1000 % 0x40, 0x80 + cp / 0x40 % 0x40, 0x80 + cp % 0x40]
          + Utf8(s[2..])
      else if 0xD800 <= c < 0xE000 then [0xEF, 0xBF, 0xBD] + Utf8(s[1..])
      else [0xE0 + c / 0x1000, 0x80 + c / 0x40 % 0x40, 0x80 + c % 0x40] + Utf8(s[1..])
  }

  /** `host.length` counts code units and `Buffer.from(host)` writes UTF-8 bytes:
      the two agree exactly when the string is ASCII. */
  lemma {:induction false} Utf8LengthIsUnitCount(s: JsString)
    ensures |Utf8(s)| == |s| <==> IsAscii(s)
    decreases |s|
  {
    if s != [] {
      Utf8LengthIsUnitCount(s[1..]);
      if s[0] < 0x80 {
        assert IsAscii(s) <==> IsAscii(s[1..]) by {
          if IsAscii(s[1..]) {
            forall i | 0 <= i < |s| ensures s[i] < 0x80 {
              if i > 0 { assert s[i] == s[1..][i - 1]; }
            }
          }
        }
      } else {
        assert !IsAscii(s);
      }
    }
  }

  /** An ASCII string is written byte for byte. */
  lemma {:induction false} AsciiUtf8(s: JsString)
    requires IsAscii(s)
    ensures Utf8(s) == s
    decreases |s|
  {
    if s != [] {
      assert IsAscii(s[1..]) by {
        forall i | 0 <= i < |s[1..]| ensures s[1..][i] < 0x80 { assert s[1..][i] == s[i + 1]; }
      }
      AsciiUtf8(s[1..]);
    }
  }

  // ---------------------------------------------------------------------------
  // Buffer#toString('utf16le'): two bytes per unit, low byte first, a trailing odd byte dropped

  function DecodeUtf16Le(b: seq<byte>): (r: JsString)
    ensures |r| == |b| / 2
  {
    if |b| < 2 then [] else [b[0] as int + 0x100 * b[1] as int] + DecodeUtf16Le(b[2..])
  }

  /** Unit i is the little-endian value of bytes 2i and 2i + 1. */
  lemma {:induction false} Utf16LeUnit(b: seq<byte>, i: nat)
    requires i < |b| / 2
    ensures DecodeUtf16Le(b)[i] == b[2 * i] as int + 0x100 * b[2 * i + 1] as int
  {
    if i > 0 {
      Utf16LeUnit(b[2..], i - 1);
      assert b[2..][2 * (i - 1)] == b[2 * i] && b[2..][2 * (i - 1) + 1] == b[2 * i + 1];
    }
  }

  /** What a legacy server writes for its text. */
  function EncodeUtf16Le(s: JsString): (r: seq<byte>)
    ensures |r| == 2 * |s|
  {
    if s == [] then [] else [s[0] % 0x100, s[0] / 0x100] + EncodeUtf16Le(s[1..])
  }

  /** Decoding inverts encoding; an odd trailing byte is ignored. */
  lemma {:induction false} Utf16LeRoundTrip(s: JsString, tail: seq<byte>)
    requires |tail| < 2
    ensures DecodeUtf16Le(EncodeUtf16Le(s) + tail) == s
  {
    if s != [] {
      Utf16LeRoundTrip(s[1..], tail);
      assert (EncodeUtf16Le(s) + tail)[2..] == EncodeUtf16Le(s[1..]) + tail;
    }
  }

  // ---------------------------------------------------------------------------
  // String#split(sep) with a one-unit separator

  predicate Free(s: JsString, sep: CodeUnit)
  {
    forall i :: 0 <= i < |s| ==> s[i] != sep
  }

  predicate AllFree(parts: seq<JsString>, sep: CodeUnit)
  {
    forall i :: 0 <= i < |parts| ==> Free(parts[i], sep)
  }

  /** The pieces between the separators; there is always at least one. */
  function Split(s: JsString, sep: CodeUnit): (r: seq<JsString>)
    ensures |r| >= 1
  {
    if s == [] then [[]]
    else
      var t := Split(s[1..], sep);
      if s[0] == sep then [[]] + t else [[s[0]] + t[0]] + t[1..]
  }

  /** Array#join(sep): the inverse of Split. */
  function Join(parts: seq<JsString>, sep: CodeUnit): JsString
    requires |parts| >= 1
  {
    if |parts| == 1 then parts[0] else parts[0] + [sep] + Join(parts[1..], sep)
  }

  /** Splitting loses nothing: joining the pieces gives the string back. */
  lemma {:induction false} JoinSplit(s: JsString, sep: CodeUnit)
    ensures Join(Split(s, sep), sep) == s
  {
    if s != [] {
      JoinSplit(s[1..], sep);
      var t := Split(s[1..], sep);
      if s[0] != sep && |t| > 1 {
        var r := [[s[0]] + t[0]] + t[1..];
        assert r[1..] == t[1..];
        assert Join(t, sep) == t[0] + [sep] + Join(t[1..], sep);
      }
    }
  }

  /** No piece contains the separator. */
  lemma {:induction false} SplitPiecesFree(s: JsString, sep: CodeUnit)
    ensures AllFree(Split(s, sep), sep)
  {
    if s != [] {
      SplitPiecesFree(s[1..], sep);
      var t := Split(s[1..], sep);
      if s[0] != sep {
        assert Free([s[0]] + t[0], sep) by {
          assert Free(t[0], sep);
        }
        var r := [[s[0]] + t[0]] + t[1..];
        forall i | 0 <= i < |r| ensures Free(r[i], sep) {
          if i > 0 { assert r[i] == t[i]; }
        }
      } else {
        var r := [[]] + t;
        forall i | 0 <= i < |r| ensures Free(r[i], sep) {
          if i > 0 { assert r[i] == t[i - 1]; }
        }
      }
    }
  }

  lemma {:induction false} SplitFreePrefix(p: JsString, sep: CodeUnit, rest: JsString)
    requires Free(p, sep)
    ensures Split(p + [sep] + rest, sep) == [p] + Split(rest, sep)
    decreases |p|
  {
    if p == [] {
      assert p + [sep] + rest == [sep] + rest;
      assert ([sep] + rest)[1..] == rest;
    } else {
      var s := p + [sep] + rest;
      assert s[1..] == p[1..] + [sep] + rest;
      assert Free(p[1..], sep) by {
        forall i | 0 <= i < |p[1..]| ensures p[1..][i] != sep { assert p[1..][i] == p[i + 1]; }
      }
      SplitFreePrefix(p[1..], sep, rest);
      assert [p[0]] + p[1..] == p;
    }
  }

  lemma {:induction false} SplitFree(p: JsString, sep: CodeUnit)
    requires Free(p, sep)
    ensures Split(p, sep) == [p]
    decreases |p|
  {
    if p != [] {
      assert Free(p[1..], sep) by {
        forall i | 0 <= i < |p[1..]| ensures p[1..][i] != sep { assert p[1..][i] == p[i + 1]; }
      }
      SplitFree(p[1..], sep);
      assert [p[0]] + p[1..] == p;
    }
  }

  /** Splitting pieces that are free of the separator, joined by it, gives them back. */
  lemma {:induction false} SplitJoin(parts: seq<JsString>, sep: CodeUnit)
    requires |parts| >= 1
    requires AllFree(parts, sep)
    ensures Split(Join(parts, sep), sep) == parts
    decreases |parts|
  {
    assert Free(parts[0], sep);
    if |parts| == 1 {
      SplitFree(parts[0], sep);
    } else {
      assert AllFree(parts[1..], sep) by {
        forall i | 0 <= i < |parts[1..]| ensures Free(parts[1..][i], sep) { assert parts[1..][i] == parts[i + 1]; }
      }
      SplitJoin(parts[1..], sep);
      SplitFreePrefix(parts[0], sep, Join(parts[1..], sep));
      assert [parts[0]] + parts[1..] == parts;
    }
  }

  // ---------------------------------------------------------------------------
  // parseInt(s, 10)

  predicate IsDigit(c: CodeUnit) { 0x30 <= c <= 0x39 }

  predicate AllDigits(s: JsString)
  {
    forall i :: 0 <= i < |s| ==> IsDigit(s[i])
  }

  /** The white space and line terminators `parseInt` skips (StrWhiteSpaceChar). */
  predicate IsStrWhiteSpace(c: CodeUnit)
  {
    c == 0x09 || c == 0x0A || c == 0x0B || c == 0x0C || c == 0x0D || c == 0x20
    || c == 0xA0 || c == 0x1680 || (0x2000 <= c <= 0x200A) || c == 0x2028 || c == 0x2029
    || c == 0x202F || c == 0x205F || c == 0x3000 || c == 0xFEFF
  }

  function TrimStart(s: JsString): JsString
  {
    if s != [] && IsStrWhiteSpace(s[0]) then TrimStart(s[1..]) else s
  }

  function LeadingDigits(s: JsString): (d: JsString)
    ensures AllDigits(d)
  {
    if s != [] && IsDigit(s[0]) then [s[0]] + LeadingDigits(s[1..]) else []
  }

  /** The value of a string of decimal digits, read most significant first. */
  function DigitsValue(d: JsString): nat
    requires AllDigits(d)
  {
    if d == [] then 0 else 10 * DigitsValue(d[..|d| - 1]) + (d[|d| - 1] - DIGIT_ZERO)
  }

  /** parseInt(s, 10): skip white space, read one optional sign, then the longest
      run of decimal digits; NaN when there is no digit. Only a minus sign makes
      the value negative, and a string starting with a digit is a number. */
  function ParseInt(s: JsString): (r: Number)
    ensures r.Int? && r.value < 0 ==> TrimStart(s) != [] && TrimStart(s)[0] == MINUS
    ensures s != [] && IsDigit(s[0]) ==> r.Int? && r.value >= 0
  {
    var t := TrimStart(s);
    var negative := t != [] && t[0] == MINUS;
    var u := if t != [] && (t[0] == MINUS || t[0] == PLUS) then t[1..] else t;
    var d := LeadingDigits(u);
    if d == [] then NaN
    else Int(if negative then -(DigitsValue(d) as int) else DigitsValue(d))
  }

  /** The decimal digits of n, no leading zero. */
  function Show(n: nat): (r: JsString)
    ensures r != [] && AllDigits(r)
  {
    if n < 10 then [DIGIT_ZERO + n] else Show(n / 10) + [DIGIT_ZERO + n % 10]
  }

  lemma {:induction false} DigitsValueShow(n: nat)
    ensures DigitsValue(Show(n)) == n
  {
    if n >= 10 {
      DigitsValueShow(n / 10);
      var s := Show(n);
      assert s[..|s| - 1] == Show(n / 10);
    }
  }

  lemma {:induction false} LeadingDigitsStop(d: JsString, rest: JsString)
    requires AllDigits(d)
    requires rest == [] || !IsDigit(rest[0])
    ensures LeadingDigits(d + rest) == d
    decreases |d|
  {
    if d == [] {
      assert d + rest == rest;
    } else {
      assert (d + rest)[1..] == d[1..] + rest;
      LeadingDigitsStop(d[1..], rest);
      assert [d[0]] + d[1..] == d;
    }
  }

  /** Any run of decimal digits, leading zeros allowed, reads as its value;
      whatever follows the digits is ignored. */
  lemma ParseIntDigits(d: JsString, rest: JsString)
    requires d != [] && AllDigits(d)
    requires rest == [] || !IsDigit(rest[0])
    ensures ParseInt(d + rest) == Int(DigitsValue(d))
  {
    var s := d + rest;
    assert s[0] == d[0];
    assert TrimStart(s) == s;
    LeadingDigitsStop(d, rest);
  }

  /** A leading plus sign is read and dropped. */
  lemma ParseIntPlus(d: JsString, rest: JsString)
    requires d != [] && AllDigits(d)
    requires rest == [] || !IsDigit(rest[0])
    ensures ParseInt([PLUS] + d + rest) == Int(DigitsValue(d))
  {
    var s := [PLUS] + d + rest;
    assert s[1..] == d + rest;
    LeadingDigitsStop(d, rest);
  }

  /** A numeric field's value is its leading decimal digits: whatever follows the
      digits is ignored. */
  lemma ParseIntShow(n: nat, rest: JsString)
    requires rest == [] || !IsDigit(rest[0])
    ensures ParseInt(Show(n) + rest) == Int(n)
  {
    var s := Show(n) + rest;
    assert s[0] == Show(n)[0];
    assert TrimStart(s) == s;
    LeadingDigitsStop(Show(n), rest);
    DigitsValueShow(n);
  }

  /** A leading minus sign negates the value. */
  lemma ParseIntNegative(n: nat, rest: JsString)
    requires rest == [] || !IsDigit(rest[0])
    ensures ParseInt([MINUS] + Show(n) + rest) == Int(-(n as int))
  {
    var s := [MINUS] + Show(n) + rest;
    assert s[1..] == Show(n) + rest;
    LeadingDigitsStop(Show(n), rest);
    DigitsValueShow(n);
  }

  /** Leading white space is skipped. */
  lemma {:induction false} ParseIntSkipsWhiteSpace(w: JsString, s: JsString)
    requires forall i :: 0 <= i < |w| ==> IsStrWhiteSpace(w[i])
    ensures ParseInt(w + s) == ParseInt(s)
    decreases |w|
  {
    if w != [] {
      assert (w + s)[1..] == w[1..] + s;
      ParseIntSkipsWhiteSpace(w[1..], s);
      assert TrimStart(w + s) == TrimStart(w[1..] + s);
    } else {
      assert w + s == s;
    }
  }

  /** A string that starts with neither white space, a sign nor a digit, the empty
      string among them, is not a number. */
  lemma ParseIntNaN(s: JsString)
    requires s == [] || !(IsStrWhiteSpace(s[0]) || s[0] == MINUS || s[0] == PLUS || IsDigit(s[0]))
    ensures ParseInt(s) == NaN
  {
  }

  /** A missing field reads as "undefined", which is NaN. */
  lemma ParseIntUndefined()
    ensures ParseInt(UNDEFINED) == NaN
  {
    ParseIntNaN(UNDEFINED);
  }
}
