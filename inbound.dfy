/** The assistant's parser for inbound Telegram messages: it validates the
    chat and message identifiers of a webhook payload and turns the message
    into a block carrying either a media URL or the message text, or into no
    block at all. Resolving a file id to a URL is a call to Telegram, so it is
    a parameter `fileUrl`. */
module Inbound {
  import opened Wrappers
  import Decimal

  /** A decoded JSON value as Python holds it. */
  datatype Value =
    | Null
    | Bool(b: bool)
    | Int(i: int)
    | Float(x: real)
    | Str(s: string)
    | Array(items: seq<Value>)
    | Object(fields: map<string, Value>)

  /** `d.get(key)`: Python's None both for a missing key and for a JSON null. */
  function Get(d: map<string, Value>, key: string): Option<Value> {
    if key in d && d[key] != Null then Some(d[key]) else None
  }

  /** Python truthiness. */
  predicate Truthy(v: Value) {
    match v
    case Null => false
    case Bool(b) => b
    case Int(i) => i != 0
    case Float(x) => x != 0.0
    case Str(s) => s != ""
    case Array(items) => items != []
    case Object(fields) => fields != map[]
  }

  /** `isinstance(v, int)`; a bool is an int in Python. */
  predicate IsInt(v: Value) {
    v.Int? || v.Bool?
  }

  /** `str(v)` for a value that passed `isinstance(v, int)`. */
  function IntText(v: Value): string
    requires IsInt(v)
  {
    match v
    case Int(i) => Decimal.FromInt(i)
    case Bool(b) => if b then "True" else "False"
  }

  /** Why parsing stopped: the `SteamshipError`s the parser raises, and the
      `AttributeError` Python raises when `.get` is called on a value that is
      not a mapping. */
  datatype InboundError =
    | NoChat
    | NoChatId
    | BadChatId(chatId: Value)
    | NoMessageId
    | BadMessageId(messageId: Value)
    | AttributeError(notAMapping: Value)

  /** The block handed to the agent, tagged with the reply target. */
  datatype Block = Block(text: Option<Value>, url: Option<string>, chatId: string, messageId: string)

  /** An error, no block (a message without content), or one block. */
  datatype Parsed = Raised(error: InboundError) | NoBlock | Emit(block: Block)

  /** `payload.get("voice") or payload.get("video_note")` when it is truthy. */
  function Attachment(payload: map<string, Value>): Option<Value> {
    var voice := Get(payload, "voice");
    if voice.Some? && Truthy(voice.value) then voice
    else
      var note := Get(payload, "video_note");
      if note.Some? && Truthy(note.value) then note else None
  }

  /** The payload names its chat by an integer id and carries an integer
      message id. */
  predicate Routable(payload: map<string, Value>) {
    "chat" in payload && payload["chat"].Object? &&
    "id" in payload["chat"].fields && IsInt(payload["chat"].fields["id"]) &&
    "message_id" in payload && IsInt(payload["message_id"])
  }

  /** The payload carries a voice note or a video note. */
  predicate HasMedia(payload: map<string, Value>) {
    ("voice" in payload && Truthy(payload["voice"])) ||
    ("video_note" in payload && Truthy(payload["video_note"]))
  }

  /** The attachment used: the voice note if there is one, else the video note. */
  function MediaOf(payload: map<string, Value>): Value
    requires HasMedia(payload)
  {
    if "voice" in payload && Truthy(payload["voice"]) then payload["voice"] else payload["video_note"]
  }

  /** The payload carries a text (possibly empty). */
  predicate HasText(payload: map<string, Value>) {
    "text" in payload && payload["text"] != Null
  }

  /** `_parse_inbound`: a chain of guards over the payload, then media before
      text. */
  function ParseInbound(payload: map<string, Value>, fileUrl: Option<Value> -> string): (r: Parsed)
    ensures r.Raised? <==> !Routable(payload) || (HasMedia(payload) && !MediaOf(payload).Object?)
    ensures r.NoBlock? <==> Routable(payload) && !HasMedia(payload) && !HasText(payload)
    ensures r.Emit? ==>
      && Routable(payload)
      && r.block.chatId == IntText(payload["chat"].fields["id"])
      && r.block.messageId == IntText(payload["message_id"])
    ensures r.Emit? && HasMedia(payload) ==>
      r.block.url == Some(fileUrl(Get(MediaOf(payload).fields, "file_id"))) &&
      r.block.text == (if HasText(payload) then Some(payload["text"]) else None)
    ensures r.Emit? && !HasMedia(payload) ==>
      r.block.url == None && r.block.text == Some(payload["text"])
  {
    match Get(payload, "chat")
    case None => Raised(NoChat)
    case Some(chat) =>
      if !chat.Object? then Raised(AttributeError(chat))
      else match Get(chat.fields, "id")
      case None => Raised(NoChatId)
      case Some(chatId) =>
        if !IsInt(chatId) then Raised(BadChatId(chatId))
        else match Get(payload, "message_id")
        case None => Raised(NoMessageId)
        case Some(messageId) =>
          if !IsInt(messageId) then Raised(BadMessageId(messageId))
          else match Attachment(payload)
          case Some(media) =>
            if !media.Object? then Raised(AttributeError(media))
            else
              var url := fileUrl(Get(media.fields, "file_id"));
              Emit(Block(Get(payload, "text"), Some(url), IntText(chatId), IntText(messageId)))
          case None =>
            match Get(payload, "text")
            case Some(text) => Emit(Block(Some(text), None, IntText(chatId), IntText(messageId)))
            case None => NoBlock
  }

  /** The guards run in order: the chat first, then its id, then the message
      id; the first that fails decides the error, whatever follows it. */
  lemma GuardOrder(payload: map<string, Value>, fileUrl: Option<Value> -> string)
    ensures Get(payload, "chat").None? ==> ParseInbound(payload, fileUrl) == Raised(NoChat)
    ensures ("chat" in payload && payload["chat"] != Null && !payload["chat"].Object?) ==>
      ParseInbound(payload, fileUrl) == Raised(AttributeError(payload["chat"]))
    ensures ("chat" in payload && payload["chat"].Object? && Get(payload["chat"].fields, "id").None?) ==>
      ParseInbound(payload, fileUrl) == Raised(NoChatId)
    ensures (&& "chat" in payload && payload["chat"].Object? && "id" in payload["chat"].fields
             && payload["chat"].fields["id"] != Null && !IsInt(payload["chat"].fields["id"])) ==>
      ParseInbound(payload, fileUrl) == Raised(BadChatId(payload["chat"].fields["id"]))
    ensures (&& "chat" in payload && payload["chat"].Object? && "id" in payload["chat"].fields
             && IsInt(payload["chat"].fields["id"]) && Get(payload, "message_id").None?) ==>
      ParseInbound(payload, fileUrl) == Raised(NoMessageId)
    ensures (&& "chat" in payload && payload["chat"].Object? && "id" in payload["chat"].fields
             && IsInt(payload["chat"].fields["id"]) && "message_id" in payload
             && payload["message_id"] != Null && !IsInt(payload["message_id"])) ==>
      ParseInbound(payload, fileUrl) == Raised(BadMessageId(payload["message_id"]))
  {
  }

  /** A voice note wins over a video note, and either wins over plain text. */
  lemma MediaPrecedence(payload: map<string, Value>, fileUrl: Option<Value> -> string)
    requires Routable(payload) && "voice" in payload && payload["voice"].Object? && Truthy(payload["voice"])
    ensures ParseInbound(payload, fileUrl).Emit?
    ensures ParseInbound(payload, fileUrl).block.url ==
      Some(fileUrl(Get(payload["voice"].fields, "file_id")))
  {
  }

  /** The reply target of a block reads back as the integer identifiers the
      payload carried. */
  lemma {:induction false} IdsRoundTrip(payload: map<string, Value>, fileUrl: Option<Value> -> string)
    requires ParseInbound(payload, fileUrl).Emit?
    requires payload["chat"].fields["id"].Int? && payload["message_id"].Int?
    ensures Decimal.Parse(ParseInbound(payload, fileUrl).block.chatId) ==
      Some(payload["chat"].fields["id"].i)
    ensures Decimal.Parse(ParseInbound(payload, fileUrl).block.messageId) ==
      Some(payload["message_id"].i)
  {
    Decimal.RoundTrip(payload["chat"].fields["id"].i);
    Decimal.RoundTrip(payload["message_id"].i);
  }

  /** A text message in chat 42 with message id 7 becomes a text block
      addressed to "42" and "7". */
  lemma TextMessageExample(fileUrl: Option<Value> -> string)
    ensures ParseInbound(map["chat" := Object(map["id" := Int(42)]), "message_id" := Int(7), "text" := Str("hello")], fileUrl)
      == Emit(Block(Some(Str("hello")), None, "42", "7"))
  {
    assert Decimal.FromInt(42) == "42" by {
      assert Decimal.FromNat(4) == "4";
    }
    assert Decimal.FromInt(7) == "7";
  }

  /** A message with neither media nor text (a member joining the group, say)
      yields no block rather than an error. */
  lemma ContentlessMessageExample(fileUrl: Option<Value> -> string)
    ensures ParseInbound(map["chat" := Object(map["id" := Int(42)]), "message_id" := Int(7)], fileUrl) == NoBlock
  {
  }
}
