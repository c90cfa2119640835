/** Chat messages and the pass-through JSON codec of requests, on JSON syntax trees. */
module Llm {
  import opened Wrappers

  /** A JSON value; numbers keep their text, object keys are distinct (the last one wins). */
  datatype Json =
    | Null
    | Bool(b: bool)
    | Number(text: string)
    | String(s: string)
    | Array(elems: seq<Json>)
    | Object(fields: map<string, Json>)

  /** contentRaw is the JSON of a non-string content, contentText the text extracted from it. */
  datatype Message = Message(
    role: string,
    content: string,
    contentRaw: Option<Json>,
    contentText: string,
    extra: map<string, Json>)

  /** messages is None for a nil slice, which is written as null. */
  datatype ChatRequest = ChatRequest(
    model: string,
    messages: Option<seq<Message>>,
    stream: bool,
    extra: map<string, Json>)

  datatype Choice = Choice(index: int, message: Message, finishReason: string, extra: map<string, Json>)

  datatype Usage = Usage(promptTokens: int, completionTokens: int, totalTokens: int)

  datatype ChatResponse = ChatResponse(
    id: string,
    object_: string,
    created: int,
    model: string,
    choices: Option<seq<Choice>>,
    usage: Usage,
    extra: map<string, Json>)

  const EMPTY_MESSAGE := Message("", "", None, "", map[])

  // ----- decoding -----

  /** json.Unmarshal of a present field into a string: null leaves the zero value. */
  function DecodeString(j: Json): Result<string> {
    match j
    case String(s) => Ok(s)
    case Null => Ok("")
    case _ => Err("not a string")
  }

  function DecodeBool(j: Json): Result<bool> {
    match j
    case Bool(b) => Ok(b)
    case Null => Ok(false)
    case _ => Err("not a bool")
  }

  function StringField(fields: map<string, Json>, key: string): Result<string> {
    if key in fields then DecodeString(fields[key]) else Ok("")
  }

  /** The text of one element of a content array, if it has the shape of a part. */
  function PartText(j: Json): Result<string> {
    match j
    case Null => Ok("")
    case Object(fields) =>
      var kind, text := StringField(fields, "type"), StringField(fields, "text");
      if kind.Err? then kind
      else if text.Err? then text
      else if kind.value == "text" then text
      else Ok("")
    case _ => Err("not a part")
  }

  /** Joins the non-empty texts with newlines after what has been written so far. */
  function JoinParts(parts: seq<Json>, written: string): Result<string> {
    if parts == [] then Ok(written)
    else match PartText(parts[0])
      case Err(e) => Err(e)
      case Ok(text) =>
        JoinParts(parts[1..], if text == "" then written else if written == "" then text else written + "\n" + text)
  }

  function ExtractContentText(raw: Json): string {
    if !raw.Array? then ""
    else match JoinParts(raw.elems, "")
      case Ok(text) => text
      case Err(_) => ""
  }

  function DecodeMessage(j: Json): Result<Message> {
    match j
    case Null => Ok(EMPTY_MESSAGE)
    case Object(raw) =>
      (match StringField(raw, "role")
       case Err(e) => Err(e)
       case Ok(role) =>
         var extra := raw - {"role", "content"};
         if "content" !in raw then Ok(Message(role, "", None, "", extra))
         else match raw["content"]
           case String(s) => Ok(Message(role, s, None, "", extra))
           case Null => Ok(Message(role, "", Some(Null), "", extra))
           case other =>
             var text := ExtractContentText(other);
             Ok(Message(role, text, Some(other), text, extra)))
    case _ => Err("not a message")
  }

  function DecodeMessages(js: seq<Json>): (r: Result<seq<Message>>)
    ensures r.Ok? ==> |r.value| == |js| && forall i :: 0 <= i < |js| ==> DecodeMessage(js[i]) == Ok(r.value[i])
    ensures r.Err? ==> exists i :: 0 <= i < |js| && DecodeMessage(js[i]).Err?
  {
    if js == [] then Ok([])
    else match DecodeMessage(js[0])
      case Err(e) => Err(e)
      case Ok(m) =>
        match DecodeMessages(js[1..])
        case Err(e) => Err(e)
        case Ok(ms) => Ok([m] + ms)
  }

  function DecodeMessageList(fields: map<string, Json>): Result<Option<seq<Message>>> {
    if "messages" !in fields then Ok(None)
    else match fields["messages"]
      case Null => Ok(None)
      case Array(js) =>
        (match DecodeMessages(js)
         case Ok(ms) => Ok(Some(ms))
         case Err(e) => Err(e))
      case _ => Err("not an array")
  }

  const MODELLED := {"model", "messages", "stream"}

  function DecodeRequest(j: Json): Result<ChatRequest> {
    match j
    case Null => Ok(ChatRequest("", None, false, map[]))
    case Object(raw) =>
      var model := StringField(raw, "model");
      var messages := DecodeMessageList(raw);
      var stream := if "stream" in raw then DecodeBool(raw["stream"]) else Ok(false);
      if model.Err? then Err(model.error)
      else if messages.Err? then Err(messages.error)
      else if stream.Err? then Err(stream.error)
      else Ok(ChatRequest(model.value, messages.value, stream.value, raw - MODELLED))
    case _ => Err("not an object")
  }

  // ----- encoding -----

  function EncodeContent(m: Message): Json {
    if m.contentRaw.Some? && m.content == m.contentText then m.contentRaw.value else String(m.content)
  }

  function EncodeMessage(m: Message): Json {
    Object(m.extra["role" := String(m.role)]["content" := EncodeContent(m)])
  }

  function EncodeMessages(ms: seq<Message>): seq<Json> {
    seq(|ms|, i requires 0 <= i < |ms| => EncodeMessage(ms[i]))
  }

  function EncodeMessageList(messages: Option<seq<Message>>): Json {
    match messages
    case None => Null
    case Some(ms) => Array(EncodeMessages(ms))
  }

  function EncodeRequest(r: ChatRequest): Json {
    Object(r.extra["model" := String(r.model)]["messages" := EncodeMessageList(r.messages)]["stream" := Bool(r.stream)])
  }

  // ----- the codec law -----

  /** All modelled fields are present with the type they are written back with. */
  ghost predicate CanonicalMessage(j: Json) {
    && j.Object?
    && "role" in j.fields && j.fields["role"].String?
    && "content" in j.fields
  }

  ghost predicate CanonicalList(j: Json) {
    j.Null? || (j.Array? && forall i :: 0 <= i < |j.elems| ==> CanonicalMessage(j.elems[i]))
  }

  ghost predicate Canonical(j: Json) {
    && j.Object?
    && "model" in j.fields && j.fields["model"].String?
    && "messages" in j.fields && CanonicalList(j.fields["messages"])
    && "stream" in j.fields && j.fields["stream"].Bool?
  }

  lemma MessageIdentity(j: Json)
    requires DecodeMessage(j).Ok?
    ensures EncodeMessage(DecodeMessage(j).value) == j <==> CanonicalMessage(j)
  {
    var k := EncodeMessage(DecodeMessage(j).value);
    if j.Object? {
      var extra := j.fields - {"role", "content"};
      if CanonicalMessage(j) {
        assert j.fields == extra["role" := j.fields["role"]]["content" := j.fields["content"]];
      } else {
        assert k.fields["role"].String? && "content" in k.fields;
      }
    }
  }

  lemma MessagesIdentity(j: Json)
    requires j.Array? && DecodeMessages(j.elems).Ok?
    ensures Array(EncodeMessages(DecodeMessages(j.elems).value)) == j <==> CanonicalList(j)
  {
    var k := EncodeMessages(DecodeMessages(j.elems).value);
    assert |k| == |j.elems|;
    forall i | 0 <= i < |j.elems|
      ensures k[i] == j.elems[i] <==> CanonicalMessage(j.elems[i])
    {
      MessageIdentity(j.elems[i]);
    }
    if k != j.elems {
      var i :| 0 <= i < |k| && k[i] != j.elems[i];
    } else {
      assert forall i :: 0 <= i < |j.elems| ==> k[i] == j.elems[i];
    }
  }

  /** Decoding then encoding gives back the very same tree exactly for canonical requests. */
  lemma RequestIdentity(j: Json)
    requires DecodeRequest(j).Ok?
    ensures EncodeRequest(DecodeRequest(j).value) == j <==> Canonical(j)
  {
    var r := DecodeRequest(j).value;
    var k := EncodeRequest(r);
    assert k.fields["model"] == String(r.model) && k.fields["stream"] == Bool(r.stream);
    assert k.fields["messages"] == EncodeMessageList(r.messages);
    if j.Object? && "messages" in j.fields {
      if j.fields["messages"].Array? {
        MessagesIdentity(j.fields["messages"]);
      }
      assert EncodeMessageList(r.messages) == j.fields["messages"] <==> CanonicalList(j.fields["messages"]);
      if Canonical(j) {
        var extra := j.fields - MODELLED;
        assert j.fields
          == extra["model" := j.fields["model"]]["messages" := j.fields["messages"]]["stream" := j.fields["stream"]];
      }
    }
  }

  lemma MessageNormal(j: Json)
    requires DecodeMessage(j).Ok?
    ensures DecodeMessage(EncodeMessage(DecodeMessage(j).value)) == DecodeMessage(j)
  {
    var m := DecodeMessage(j).value;
    assert EncodeMessage(m).fields - {"role", "content"} == m.extra;
  }

  lemma {:induction false} MessagesNormal(js: seq<Json>)
    requires DecodeMessages(js).Ok?
    ensures DecodeMessages(EncodeMessages(DecodeMessages(js).value)) == DecodeMessages(js)
  {
    var ms := DecodeMessages(js).value;
    var ks := EncodeMessages(ms);
    forall i | 0 <= i < |ks|
      ensures DecodeMessage(ks[i]) == Ok(ms[i])
    {
      MessageNormal(js[i]);
    }
    assert DecodeMessages(ks).Ok?;
    assert DecodeMessages(ks).value == ms;
  }

  lemma EncodedRequest(r: ChatRequest)
    ensures var k := EncodeRequest(r).fields;
      && k["model"] == String(r.model) && k["messages"] == EncodeMessageList(r.messages)
        && k["stream"] == Bool(r.stream)
      && (r.extra.Keys !! MODELLED ==> k - MODELLED == r.extra)
  {
  }

  lemma MessageListNormal(raw: map<string, Json>, k: map<string, Json>)
    requires DecodeMessageList(raw).Ok? && "messages" in k
      && k["messages"] == EncodeMessageList(DecodeMessageList(raw).value)
    ensures DecodeMessageList(k) == DecodeMessageList(raw)
  {
    if DecodeMessageList(raw).value.Some? {
      MessagesNormal(raw["messages"].elems);
    }
  }

  /** Encoding is a left inverse up to decoding: the round trip normalises once and for all. */
  lemma RequestNormal(j: Json)
    requires DecodeRequest(j).Ok?
    ensures DecodeRequest(EncodeRequest(DecodeRequest(j).value)) == DecodeRequest(j)
  {
    var r := DecodeRequest(j).value;
    EncodedRequest(r);
    MessageListNormal(FieldsOf(j), EncodeRequest(r).fields);
  }

  // ----- what is taken at all -----

  /** A string, or null, or no such key; the value is then "" for the last two. */
  ghost predicate Textual(fields: map<string, Json>, key: string) {
    key in fields ==> fields[key].String? || fields[key].Null?
  }

  ghost predicate Readable(j: Json) {
    j.Null? || (j.Object? && Textual(j.fields, "role"))
  }

  /** Exactly the requests the decoder takes: an object or null whose modelled keys have their types or are null. */
  ghost predicate ReadableRequest(j: Json) {
    || j.Null?
    || (j.Object? && Textual(j.fields, "model")
      && ("stream" in j.fields ==> j.fields["stream"].Bool? || j.fields["stream"].Null?)
      && ("messages" in j.fields ==>
          j.fields["messages"].Null? || (j.fields["messages"].Array? && AllReadable(j.fields["messages"].elems))))
  }

  ghost predicate AllReadable(js: seq<Json>) {
    forall i :: 0 <= i < |js| ==> Readable(js[i])
  }

  lemma MessageReadableIff(j: Json)
    ensures DecodeMessage(j).Ok? <==> Readable(j)
  {
  }

  lemma MessagesReadableIff(js: seq<Json>)
    ensures DecodeMessages(js).Ok? <==> AllReadable(js)
  {
    forall i | 0 <= i < |js|
      ensures DecodeMessage(js[i]).Ok? <==> Readable(js[i])
    {
      MessageReadableIff(js[i]);
    }
  }

  /** A request is taken exactly if it is readable, and what is taken are its own model, stream flag and messages. */
  lemma RequestReadableIff(j: Json)
    ensures DecodeRequest(j).Ok? <==> ReadableRequest(j)
    ensures DecodeRequest(j).Ok? ==>
      var r, raw := DecodeRequest(j).value, FieldsOf(j);
      && r.model == (if "model" in raw && raw["model"].String? then raw["model"].s else "")
      && r.stream == ("stream" in raw && raw["stream"] == Bool(true))
      && (r.messages.Some? <==> "messages" in raw && raw["messages"].Array?)
      && (r.messages.Some? ==>
          && |r.messages.value| == |raw["messages"].elems|
          && forall i :: 0 <= i < |r.messages.value| ==>
            DecodeMessage(raw["messages"].elems[i]) == Ok(r.messages.value[i]))
  {
    if j.Object? && "messages" in j.fields && j.fields["messages"].Array? {
      MessagesReadableIff(j.fields["messages"].elems);
    }
  }

  // ----- what the proxy may change -----

  /** The request as the proxy forwards it: another model, other message texts. */
  function Rewritten(r: ChatRequest, model: string, texts: seq<string>): ChatRequest
    requires r.messages.Some? ==> |texts| == |r.messages.value|
  {
    r.(model := model, messages :=
      if r.messages.None? then None
      else Some(seq(|texts|, i requires 0 <= i < |texts| => r.messages.value[i].(content := texts[i]))))
  }

  /** The text a message's content stands for. */
  function TextOf(content: Json): string {
    if content.String? then content.s else ExtractContentText(content)
  }

  function FieldsOf(j: Json): map<string, Json> {
    if j.Object? then j.fields else map[]
  }

  /**
    k is the message j with the given text: the content as received if it stands for that text,
    else the text; the role as received, "" if there is none; every other key as received.
   */
  ghost predicate OnlyTextChanged(j: Json, k: Json, text: string) {
    var old_ := FieldsOf(j);
    && k.Object? && k.fields.Keys == old_.Keys + {"role", "content"}
    && (forall key :: key in old_ && key != "role" && key != "content" ==> k.fields[key] == old_[key])
    && k.fields["role"] == (if "role" in old_ && old_["role"].String? then old_["role"] else String(""))
    && k.fields["content"]
      == (if "content" in old_ && TextOf(old_["content"]) == text then old_["content"] else String(text))
  }

  lemma RewriteOneMessage(j: Json, text: string)
    requires DecodeMessage(j).Ok?
    ensures OnlyTextChanged(j, EncodeMessage(DecodeMessage(j).value.(content := text)), text)
  {
    var m, old_ := DecodeMessage(j).value, FieldsOf(j);
    var k := EncodeMessage(m.(content := text));
    assert m.extra == old_ - {"role", "content"};
    assert k.fields.Keys == old_.Keys + {"role", "content"};
    assert "content" in old_ ==> m.content == TextOf(old_["content"]);
  }

  ghost function MessageTrees(j: Json): seq<Json> {
    if "messages" in FieldsOf(j) && FieldsOf(j)["messages"].Array? then FieldsOf(j)["messages"].elems else []
  }

  /**
    Forwarding changes the model and the texts that were rewritten and nothing else: every other
    key at every level, tool calls and untouched multimodal content included, is as received.
   */
  lemma ForwardingPatchesOnlyTexts(j: Json, model: string, texts: seq<string>)
    requires DecodeRequest(j).Ok? && |texts| == |MessageTrees(j)|
    ensures var r := DecodeRequest(j).value; r.messages.Some? ==> |r.messages.value| == |texts|
    ensures var old_, k := FieldsOf(j), EncodeRequest(Rewritten(DecodeRequest(j).value, model, texts));
      && k.Object? && k.fields.Keys == old_.Keys + MODELLED
      && k.fields["model"] == String(model)
      && k.fields["stream"] == (if "stream" in old_ && old_["stream"].Bool? then old_["stream"] else Bool(false))
      && (forall key :: key in old_ && key !in MODELLED ==> k.fields[key] == old_[key])
      && (if "messages" in old_ && old_["messages"].Array?
          then MessagesRewritten(MessageTrees(j), k.fields["messages"], texts)
          else k.fields["messages"] == Null)
  {
    var r := DecodeRequest(j).value;
    assert r.extra == FieldsOf(j) - MODELLED;
    if r.messages.Some? {
      forall i | 0 <= i < |texts|
        ensures OnlyTextChanged(MessageTrees(j)[i], EncodeMessage(r.messages.value[i].(content := texts[i])), texts[i])
      {
        RewriteOneMessage(MessageTrees(j)[i], texts[i]);
      }
    }
    var k := EncodeRequest(Rewritten(r, model, texts));
    assert k.fields.Keys == FieldsOf(j).Keys + MODELLED;
  }

  ghost predicate MessagesRewritten(js: seq<Json>, k: Json, texts: seq<string>)
    requires |texts| == |js|
  {
    k.Array? && |k.elems| == |js| && forall i :: 0 <= i < |js| ==> OnlyTextChanged(js[i], k.elems[i], texts[i])
  }

  // ----- the text of a message -----

  /** null, or an object whose type and text are strings, null or absent. */
  ghost predicate IsPart(j: Json) {
    || j.Null?
    || (j.Object? && forall key :: key in j.fields && key in {"type", "text"} ==>
          j.fields[key].String? || j.fields[key].Null?)
  }

  ghost predicate IsTextPart(j: Json) {
    && j.Object? && "type" in j.fields && j.fields["type"] == String("text")
    && "text" in j.fields && j.fields["text"].String? && j.fields["text"].s != ""
  }

  /** The non-empty texts of a content array, in order. */
  ghost function PartTexts(parts: seq<Json>): seq<string> {
    if parts == [] then []
    else (if IsTextPart(parts[0]) then [parts[0].fields["text"].s] else []) + PartTexts(parts[1..])
  }

  ghost function Lines(texts: seq<string>): string {
    if texts == [] then "" else if |texts| == 1 then texts[0] else texts[0] + "\n" + Lines(texts[1..])
  }

  lemma OnePart(j: Json)
    ensures PartText(j).Ok? <==> IsPart(j)
    ensures IsPart(j) ==> PartText(j) == Ok(if IsTextPart(j) then j.fields["text"].s else "")
  {
    if j.Object? {
      assert IsPart(j) <==> StringField(j.fields, "type").Ok? && StringField(j.fields, "text").Ok?;
    }
  }

  lemma LinesJoined(a: string, b: string, rest: seq<string>)
    ensures Lines([a + "\n" + b] + rest) == Lines([a] + ([b] + rest))
  {
    assert ([a + "\n" + b] + rest)[1..] == rest && ([b] + rest)[1..] == rest && ([a] + ([b] + rest))[1..] == [b] + rest;
    assert rest != [] ==> (a + "\n" + b) + "\n" + Lines(rest) == a + "\n" + (b + "\n" + Lines(rest));
  }

  lemma {:induction false} JoinIsLines(parts: seq<Json>, written: string)
    ensures JoinParts(parts, written).Ok? <==> forall i :: 0 <= i < |parts| ==> IsPart(parts[i])
    ensures JoinParts(parts, written).Ok? ==>
      JoinParts(parts, written).value == Lines(if written == "" then PartTexts(parts) else [written] + PartTexts(parts))
    decreases |parts|
  {
    if parts != [] {
      OnePart(parts[0]);
      if IsPart(parts[0]) {
        var text, rest := PartText(parts[0]).value, PartTexts(parts[1..]);
        var written' := if text == "" then written else if written == "" then text else written + "\n" + text;
        JoinIsLines(parts[1..], written');
        assert forall i :: 0 < i < |parts| ==> parts[i] == parts[1..][i - 1];
        LinesJoined(written, text, rest);
        assert text == "" ==> PartTexts(parts) == rest;
      }
    }
  }

  /**
    What guards and transformers get to see of a message: its role, and of its content the string,
    or the text parts on lines of their own; nothing of any other content.
   */
  lemma DecodedText(j: Json)
    requires j.Object? && DecodeMessage(j).Ok?
    ensures var m, raw := DecodeMessage(j).value, j.fields;
      && m.role == (if "role" in raw && raw["role"].String? then raw["role"].s else "")
      && ("content" !in raw ==> m.content == "")
      && ("content" in raw ==> m.content == TextOf(raw["content"]))
    ensures forall c: Json :: c.String? ==> TextOf(c) == c.s
    ensures forall c: Json :: c.Array? && (forall i :: 0 <= i < |c.elems| ==> IsPart(c.elems[i])) ==>
      TextOf(c) == Lines(PartTexts(c.elems))
    ensures forall c: Json :: !c.String? && !(c.Array? && forall i :: 0 <= i < |c.elems| ==> IsPart(c.elems[i])) ==>
      TextOf(c) == ""
  {
    forall c: Json | c.Array?
      ensures TextOf(c)
        == if forall i :: 0 <= i < |c.elems| ==> IsPart(c.elems[i]) then Lines(PartTexts(c.elems)) else ""
    {
      JoinIsLines(c.elems, "");
    }
  }

  // ----- extraction -----

  /** The content of the last user message, "" if there is none. */
  method ExtractInputText(messages: seq<Message>) returns (text: string)
    ensures text == LastUserText(messages)
  {
    var i := |messages| - 1;
    assert messages[..i + 1] == messages;
    while i >= 0
      invariant -1 <= i < |messages|
      invariant LastUserText(messages) == LastUserText(messages[..i + 1])
    {
      if messages[i].role == "user" {
        return messages[i].content;
      }
      assert messages[..i + 1][..i] == messages[..i];
      i := i - 1;
    }
    return "";
  }

  ghost predicate LastUserAt(messages: seq<Message>, i: int) {
    && 0 <= i < |messages|
    && messages[i].role == "user"
    && forall k :: i < k < |messages| ==> messages[k].role != "user"
  }

  function LastUserText(messages: seq<Message>): (text: string)
    ensures (exists i :: LastUserAt(messages, i) && messages[i].content == text)
      || (text == "" && forall k :: 0 <= k < |messages| ==> messages[k].role != "user")
  {
    if messages == [] then ""
    else
      var last := messages[|messages| - 1];
      assert last.role == "user" ==> LastUserAt(messages, |messages| - 1);
      assert forall i :: LastUserAt(messages[..|messages| - 1], i) && last.role != "user" ==> LastUserAt(messages, i);
      if last.role == "user" then last.content else LastUserText(messages[..|messages| - 1])
  }
}
