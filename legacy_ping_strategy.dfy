/** `LegacyPingStrategy`: the pre-1.7 server list ping. */
module LegacyPing {
  import opened Wrappers
  import opened Js
  import opened JsText
  import opened PingResponse

  /** `createHandshakePacket()`: the legacy ping packet FE, the payload byte 01
      and the plugin message marker FA. It embeds no host and no port. */
  const HANDSHAKE: seq<byte> := [0xFE, 0x01, 0xFA]

  /** The response text: the bytes after the 4-byte header, read as UTF-16LE. */
  function Payload(response: seq<byte>): JsString
  {
    DecodeUtf16Le(if |response| >= 4 then response[4..] else [])
  }

  /** `/^\u00A71/.test(payload)`. */
  predicate HasMarker(text: JsString)
  {
    |text| >= 2 && text[0] == SECTION_SIGN && text[1] == 0x31
  }

  /** A destructured array element: undefined past the end. */
  function Field(parts: seq<JsString>, i: nat): Option<JsString>
  {
    if i < |parts| then Some(parts[i]) else None
  }

  /** `parseInt(field, 10)`, an undefined field being read as "undefined". */
  function NumberField(field: Option<JsString>): Number
  {
    ParseInt(match field case Some(s) => s case None => UNDEFINED)
  }

  function DescriptionField(field: Option<JsString>): Option<Description>
  {
    match field case Some(s) => Some(Text(s)) case None => None
  }

  /** `parse(response)`. Text starting with "\u00A71" is the extended format, whose
      NUL-separated fields after the first are protocol, version name, MOTD,
      online and max; any other text is the simple format "MOTD§online§max".
      A legacy reply never carries a favicon or a player sample, and the simple
      format always has a MOTD. */
  function Parse(response: seq<byte>): (r: RawPingResponse)
    ensures r.favicon.None? && r.players.sample.None?
    ensures !HasMarker(Payload(response)) ==> r.version.None? && r.description.Some?
  {
    var text := Payload(response);
    if HasMarker(text) then
      var fields := Split(text, NUL)[1..];
      RawPingResponse(
        Players(NumberField(Field(fields, 3)), NumberField(Field(fields, 4)), None),
        Some(Version(Field(fields, 1), NumberField(Field(fields, 0)))),
        None,
        DescriptionField(Field(fields, 2)))
    else
      var pieces := Split(text, SECTION_SIGN);
      RawPingResponse(
        Players(NumberField(Field(pieces, 1)), NumberField(Field(pieces, 2)), None),
        None,
        None,
        DescriptionField(Field(pieces, 0)))
  }

  /** The 4-byte header is skipped: changing it never changes the result. */
  lemma IgnoresHeader(header1: seq<byte>, header2: seq<byte>, body: seq<byte>)
    requires |header1| == 4 && |header2| == 4
    ensures Parse(header1 + body) == Parse(header2 + body)
  {
    assert (header1 + body)[4..] == body;
    assert (header2 + body)[4..] == body;
  }

  /** The extended format is chosen exactly when the bytes after the header
      start with the UTF-16LE units '§' (A7 00) and '1' (31 00), and only then
      is a version reported. */
  lemma ExtendedIffMarker(response: seq<byte>)
    ensures Parse(response).version.Some?
      <==> |response| >= 8 && response[4] == 0xA7 && response[5] == 0 && response[6] == 0x31 && response[7] == 0
  {
    var text := Payload(response);
    if |response| >= 8 {
      var b := response[4..];
      assert text == [b[0] as int + 0x100 * b[1] as int] + DecodeUtf16Le(b[2..]);
      assert b[2..][0] == b[2] && b[2..][1] == b[3];
      assert DecodeUtf16Le(b[2..])[0] == b[2] as int + 0x100 * b[3] as int;
    }
  }

  /** The extended format, field by field: the first NUL-separated piece is the
      marker, the next five are protocol, version name, MOTD, online and max, and
      pieces past them are ignored. */
  lemma ExtendedFields(header: seq<byte>, first: JsString, fields: seq<JsString>)
    requires |header| == 4
    requires HasMarker(first)
    requires Free(first, NUL) && AllFree(fields, NUL)
    ensures Parse(header + EncodeUtf16Le(Join([first] + fields, NUL))) == RawPingResponse(
      Players(NumberField(Field(fields, 3)), NumberField(Field(fields, 4)), None),
      Some(Version(Field(fields, 1), NumberField(Field(fields, 0)))),
      None,
      DescriptionField(Field(fields, 2)))
  {
    var text := Join([first] + fields, NUL);
    var response := header + EncodeUtf16Le(text);
    assert response[4..] == EncodeUtf16Le(text);
    Utf16LeRoundTrip(text, []);
    assert EncodeUtf16Le(text) + [] == EncodeUtf16Le(text);
    assert Payload(response) == text;
    assert AllFree([first] + fields, NUL) by {
      forall i | 0 <= i < |[first] + fields| ensures Free(([first] + fields)[i], NUL) {
        if i > 0 { assert ([first] + fields)[i] == fields[i - 1]; }
      }
    }
    SplitJoin([first] + fields, NUL);
    if fields == [] {
      assert text == first;
    } else {
      assert text[..|first|] == first;
    }
    assert HasMarker(text);
    assert ([first] + fields)[1..] == fields;
  }

  /** The simple format, piece by piece: MOTD, online and max are the first three
      '§'-separated pieces, the pieces past them are ignored, and no version is
      reported. */
  lemma SimpleFields(header: seq<byte>, pieces: seq<JsString>)
    requires |header| == 4
    requires |pieces| >= 1
    requires AllFree(pieces, SECTION_SIGN)
    requires !HasMarker(Join(pieces, SECTION_SIGN))
    ensures Parse(header + EncodeUtf16Le(Join(pieces, SECTION_SIGN))) == RawPingResponse(
      Players(NumberField(Field(pieces, 1)), NumberField(Field(pieces, 2)), None),
      None,
      None,
      Some(Text(pieces[0])))
  {
    var text := Join(pieces, SECTION_SIGN);
    var response := header + EncodeUtf16Le(text);
    assert response[4..] == EncodeUtf16Le(text);
    Utf16LeRoundTrip(text, []);
    assert EncodeUtf16Le(text) + [] == EncodeUtf16Le(text);
    SplitJoin(pieces, SECTION_SIGN);
  }

  /** Parsing never fails; a missing numeric field is NaN, not an error. */
  lemma MissingNumberIsNaN()
    ensures NumberField(None) == NaN
  {
    ParseIntUndefined();
  }

  /** A simple-format response whose MOTD is empty and whose player count starts
      with the digit 1 ("\u00A712\u00A720") also matches the marker: it is read as the
      extended format, and every field comes out undefined or NaN. */
  lemma EmptyMotdReadAsExtended(header: seq<byte>)
    requires |header| == 4
    ensures Parse(header + EncodeUtf16Le([SECTION_SIGN, 0x31, 0x32, SECTION_SIGN, 0x32, 0x30])) ==
      RawPingResponse(Players(NaN, NaN, None), Some(Version(None, NaN)), None, None)
  {
    var text: JsString := [SECTION_SIGN, 0x31, 0x32, SECTION_SIGN, 0x32, 0x30];
    var response := header + EncodeUtf16Le(text);
    assert response[4..] == EncodeUtf16Le(text);
    Utf16LeRoundTrip(text, []);
    assert EncodeUtf16Le(text) + [] == EncodeUtf16Le(text);
    assert Payload(response) == text;
    assert Free(text, NUL);
    SplitFree(text, NUL);
    assert HasMarker(text) && Split(text, NUL)[1..] == [];
    MissingNumberIsNaN();
  }

  // ---------------------------------------------------------------------------
  // The two worked responses

  const MOTD: JsString := [0x41, 0x20, 0x4D, 0x4F, 0x54, 0x44]   // "A MOTD"
  const VERSION_NAME: JsString := [0x31, 0x2E, 0x38]              // "1.8"

  /** A field holding the decimal digits of n reads as n. */
  lemma NumberFieldShow(n: nat)
    ensures NumberField(Some(Show(n))) == Int(n)
  {
    ParseIntShow(n, []);
    assert Show(n) + [] == Show(n);
  }

  /** Digits are neither NUL nor '§'. */
  lemma DigitsFree(d: JsString)
    requires AllDigits(d)
    ensures Free(d, NUL) && Free(d, SECTION_SIGN)
  {
  }

  /** "\u00A71\0" "61\0" "1.8\0" "A MOTD\0" "5\0" "20" reads as protocol 61, version
      "1.8", MOTD "A MOTD", 5 of 20 players. */
  lemma ExtendedExample(header: seq<byte>)
    requires |header| == 4
    ensures Parse(header + EncodeUtf16Le(Join([[SECTION_SIGN, 0x31], Show(61), VERSION_NAME, MOTD, Show(5), Show(20)], NUL)))
      == RawPingResponse(Players(Int(5), Int(20), None), Some(Version(Some(VERSION_NAME), Int(61))), None, Some(Text(MOTD)))
  {
    var fields := [Show(61), VERSION_NAME, MOTD, Show(5), Show(20)];
    assert [[SECTION_SIGN, 0x31], Show(61), VERSION_NAME, MOTD, Show(5), Show(20)] == [[SECTION_SIGN, 0x31]] + fields;
    DigitsFree(Show(61));
    DigitsFree(Show(5));
    DigitsFree(Show(20));
    assert AllFree(fields, NUL);
    ExtendedFields(header, [SECTION_SIGN, 0x31], fields);
    NumberFieldShow(61);
    NumberFieldShow(5);
    NumberFieldShow(20);
  }

  /** "A MOTD\u00A73\u00A720" reads as MOTD "A MOTD", 3 of 20 players, and no version. */
  lemma SimpleExample(header: seq<byte>)
    requires |header| == 4
    ensures Parse(header + EncodeUtf16Le(Join([MOTD, Show(3), Show(20)], SECTION_SIGN)))
      == RawPingResponse(Players(Int(3), Int(20), None), None, None, Some(Text(MOTD)))
  {
    var pieces := [MOTD, Show(3), Show(20)];
    DigitsFree(Show(3));
    DigitsFree(Show(20));
    assert AllFree(pieces, SECTION_SIGN);
    assert Join(pieces, SECTION_SIGN)[0] == 0x41;
    SimpleFields(header, pieces);
    NumberFieldShow(3);
    NumberFieldShow(20);
  }
}
