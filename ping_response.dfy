/** The shape of a server's status, as the JSON payload or the legacy text
    describes it. A field the source types as required but that the legacy parser
    can leave `undefined` is an Option here. */
module PingResponse {
  import opened Wrappers
  import opened Js

  /** The sixteen named chat colours. */
  datatype ChatColor =
    | Black | DarkBlue | DarkGreen | DarkCyan | DarkRed | DarkGray | Purple | Gold
    | Gray | Blue | Green | Cyan | Red | Pink | Yellow | White
  {
    /** The name a colour has in the JSON text. */
    function Name(): string
    {
      match this
      case Black => "black"
      case DarkBlue => "dark_blue"
      case DarkGreen => "dark_green"
      case DarkCyan => "dark_aqua"
      case DarkRed => "dark_red"
      case DarkGray => "dark_gray"
      case Purple => "dark_purple"
      case Gold => "gold"
      case Gray => "gray"
      case Blue => "blue"
      case Green => "green"
      case Cyan => "aqua"
      case Red => "red"
      case Pink => "light_purple"
      case Yellow => "yellow"
      case White => "white"
    }
  }

  /** A rich-text node; `extra` holds further nodes, so a description is a finite tree. */
  datatype Chat = Chat(
    text: JsString,
    bold: Option<bool>,
    italic: Option<bool>,
    underlined: Option<bool>,
    strikethrough: Option<bool>,
    obfuscated: Option<bool>,
    color: Option<ChatColor>,
    extra: Option<seq<Chat>>)

  /** `string | IChat`. */
  datatype Description = Text(text: JsString) | Rich(chat: Chat)

  datatype Sample = Sample(id: JsString, name: JsString)

  datatype Players = Players(online: Number, max: Number, sample: Option<seq<Sample>>)

  datatype Version = Version(name: Option<JsString>, protocol: Number)

  /** `IRawPingResponse`: what a strategy's parse returns. */
  datatype RawPingResponse = RawPingResponse(
    players: Players,
    version: Option<Version>,
    favicon: Option<JsString>,
    description: Option<Description>)

  /** `IPingResponse`: the raw response with the address it came from. No shown
      operation builds one; `PingContext.ping` is typed with it but emits the raw
      response. */
  datatype PingResponse = PingResponse(
    response: RawPingResponse, host: JsString, port: int, ip: Option<JsString>)

  /** `JSON.parse(payload.toString())` followed by reading its fields: None when
      JSON.parse would throw. It is a parameter of the model. */
  type JsonDecoder = seq<byte> -> Option<RawPingResponse>
}
