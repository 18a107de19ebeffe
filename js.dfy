/** The JavaScript and Node.js values the ping client works with. */
module Js {

  /** One octet of a Node.js `Buffer`. */
  type byte = x: int | 0 <= x < 0x100

  /** One UTF-16 code unit, the element of a JavaScript string. */
  type CodeUnit = x: int | 0 <= x < 0x1_0000

  /** A JavaScript string: a sequence of UTF-16 code units, surrogates paired or not. */
  type JsString = seq<CodeUnit>

  /** A JavaScript number as the client produces it: an integer or `NaN`. */
  datatype Number = Int(value: int) | NaN

  /** `Buffer.concat` of the chunks in arrival order, built the way `scan` builds it:
      the buffer so far, then the next chunk. */
  function Concat(chunks: seq<seq<byte>>): seq<byte>
  {
    if chunks == [] then [] else Concat(chunks[..|chunks| - 1]) + chunks[|chunks| - 1]
  }
}
