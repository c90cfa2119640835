/** The pass-through JSON codec of responses, on JSON syntax trees. Ill-typed fields keep their zero value. */
module ResponseCodec {
  import opened Llm
  import opened Wrappers

  /** The decimal text of integers as encoding/json reads and writes it. */
  datatype Numbers = Numbers(parse: string -> Option<int>, render: int -> string)

  ghost predicate Lawful(nums: Numbers) {
    forall n :: nums.parse(nums.render(n)) == Some(n)
  }

  const EMPTY_CHOICE := Choice(0, EMPTY_MESSAGE, "", map[])
  const CHOICE_KEYS := {"index", "message", "finish_reason"}
  const RESPONSE_KEYS := {"id", "object", "created", "model", "choices", "usage"}

  // ----- decoding -----

  function TextField(raw: map<string, Json>, key: string): string {
    if key in raw && raw[key].String? then raw[key].s else ""
  }

  function IntField(nums: Numbers, raw: map<string, Json>, key: string): int {
    if key in raw && raw[key].Number? then nums.parse(raw[key].text).GetOr(0) else 0
  }

  function DecodeUsage(nums: Numbers, raw: map<string, Json>): Usage {
    Usage(IntField(nums, raw, "prompt_tokens"), IntField(nums, raw, "completion_tokens"),
          IntField(nums, raw, "total_tokens"))
  }

  function MessageField(raw: map<string, Json>): Message {
    if "message" !in raw then EMPTY_MESSAGE
    else match DecodeMessage(raw["message"])
      case Ok(m) => m
      case Err(_) => EMPTY_MESSAGE
  }

  function DecodeChoice(nums: Numbers, raw: map<string, Json>): Choice {
    Choice(IntField(nums, raw, "index"), MessageField(raw), TextField(raw, "finish_reason"), raw - CHOICE_KEYS)
  }

  function DecodeElement(nums: Numbers, j: Json): Choice {
    if j.Object? then DecodeChoice(nums, j.fields) else EMPTY_CHOICE
  }

  /** The array decoder stops at the first element that is not an object or null. */
  function DecodedCount(js: seq<Json>): (n: nat)
    ensures n <= |js|
    ensures forall i :: 0 <= i < n - 1 ==> js[i].Object? || js[i].Null?
    ensures n < |js| ==> n > 0 && !js[n - 1].Object? && !js[n - 1].Null?
  {
    if js == [] then 0 else if !js[0].Object? && !js[0].Null? then 1 else 1 + DecodedCount(js[1..])
  }

  /** The element it stops at is kept with zero values. */
  function DecodeChoices(nums: Numbers, js: seq<Json>): (cs: seq<Choice>)
    ensures |cs| == DecodedCount(js) && forall i :: 0 <= i < |cs| ==> cs[i] == DecodeElement(nums, js[i])
  {
    seq(DecodedCount(js), i requires 0 <= i < DecodedCount(js) => DecodeElement(nums, js[i]))
  }

  function DecodeChoiceList(nums: Numbers, raw: map<string, Json>): Option<seq<Choice>> {
    if "choices" in raw && raw["choices"].Array? then Some(DecodeChoices(nums, raw["choices"].elems)) else None
  }

  function DecodeResponse(nums: Numbers, j: Json): Result<ChatResponse> {
    if !j.Object? && !j.Null? then Err("not an object")
    else
      var raw := FieldsOf(j);
      Ok(ChatResponse(TextField(raw, "id"), TextField(raw, "object"), IntField(nums, raw, "created"),
                      TextField(raw, "model"), DecodeChoiceList(nums, raw),
                      DecodeUsage(nums, if "usage" in raw then FieldsOf(raw["usage"]) else map[]), raw - RESPONSE_KEYS))
  }

  // ----- encoding -----

  function EncodeInt(nums: Numbers, n: int): Json {
    Number(nums.render(n))
  }

  function EncodeUsage(nums: Numbers, u: Usage): Json {
    Object(map["prompt_tokens" := EncodeInt(nums, u.promptTokens),
               "completion_tokens" := EncodeInt(nums, u.completionTokens),
               "total_tokens" := EncodeInt(nums, u.totalTokens)])
  }

  function EncodeChoice(nums: Numbers, c: Choice): Json {
    Object(c.extra["index" := EncodeInt(nums, c.index)]
                  ["message" := EncodeMessage(c.message)]
                  ["finish_reason" := String(c.finishReason)])
  }

  function EncodeChoiceList(nums: Numbers, choices: Option<seq<Choice>>): Json {
    match choices
    case None => Null
    case Some(cs) => Array(seq(|cs|, i requires 0 <= i < |cs| => EncodeChoice(nums, cs[i])))
  }

  function EncodeResponse(nums: Numbers, r: ChatResponse): Json {
    Object(r.extra["id" := String(r.id)]["object" := String(r.object_)]["created" := EncodeInt(nums, r.created)]
                  ["model" := String(r.model)]["choices" := EncodeChoiceList(nums, r.choices)]
                  ["usage" := EncodeUsage(nums, r.usage)])
  }

  // ----- the codec law -----

  ghost predicate HasText(raw: map<string, Json>, key: string) {
    key in raw && raw[key].String?
  }

  /** An integer written the way it is written back. */
  ghost predicate HasInt(nums: Numbers, raw: map<string, Json>, key: string) {
    key in raw && raw[key].Number? && nums.parse(raw[key].text).Some?
      && nums.render(nums.parse(raw[key].text).value) == raw[key].text
  }

  /** Nothing but the three counts: anything else inside usage is lost. */
  ghost predicate CanonicalUsage(nums: Numbers, j: Json) {
    && j.Object? && j.fields.Keys == {"prompt_tokens", "completion_tokens", "total_tokens"}
    && HasInt(nums, j.fields, "prompt_tokens") && HasInt(nums, j.fields, "completion_tokens")
      && HasInt(nums, j.fields, "total_tokens")
  }

  ghost predicate CanonicalChoice(nums: Numbers, j: Json) {
    && j.Object?
    && HasInt(nums, j.fields, "index") && HasText(j.fields, "finish_reason")
    && "message" in j.fields && CanonicalMessage(j.fields["message"])
  }

  ghost predicate CanonicalChoices(nums: Numbers, j: Json) {
    j.Null? || (j.Array? && forall i :: 0 <= i < |j.elems| ==> CanonicalChoice(nums, j.elems[i]))
  }

  ghost predicate CanonicalResponse(nums: Numbers, j: Json) {
    && j.Object?
    && HasText(j.fields, "id") && HasText(j.fields, "object") && HasInt(nums, j.fields, "created")
      && HasText(j.fields, "model")
    && "choices" in j.fields && CanonicalChoices(nums, j.fields["choices"])
    && "usage" in j.fields && CanonicalUsage(nums, j.fields["usage"])
  }

  lemma IntIdentity(nums: Numbers, raw: map<string, Json>, key: string)
    requires Lawful(nums)
    ensures HasInt(nums, raw, key) <==> key in raw && raw[key] == EncodeInt(nums, IntField(nums, raw, key))
  {
    if key in raw && raw[key] == EncodeInt(nums, IntField(nums, raw, key)) {
      assert nums.parse(nums.render(IntField(nums, raw, key))).Some?;
    }
  }

  lemma UsageIdentity(nums: Numbers, j: Json)
    requires Lawful(nums)
    ensures EncodeUsage(nums, DecodeUsage(nums, FieldsOf(j))) == j <==> CanonicalUsage(nums, j)
  {
    var raw := FieldsOf(j);
    var k := EncodeUsage(nums, DecodeUsage(nums, raw));
    IntIdentity(nums, raw, "prompt_tokens");
    IntIdentity(nums, raw, "completion_tokens");
    IntIdentity(nums, raw, "total_tokens");
    assert k.fields.Keys == {"prompt_tokens", "completion_tokens", "total_tokens"};
    if CanonicalUsage(nums, j) {
      assert k.fields == j.fields;
    }
  }

  lemma MessageFieldIdentity(raw: map<string, Json>)
    requires "message" in raw
    ensures EncodeMessage(MessageField(raw)) == raw["message"] <==> CanonicalMessage(raw["message"])
  {
    if DecodeMessage(raw["message"]).Ok? {
      MessageIdentity(raw["message"]);
    } else {
      assert EncodeMessage(EMPTY_MESSAGE).fields["role"] == String("");
    }
  }

  lemma ChoiceIdentity(nums: Numbers, j: Json)
    requires Lawful(nums) && j.Object?
    ensures EncodeChoice(nums, DecodeChoice(nums, j.fields)) == j <==> CanonicalChoice(nums, j)
  {
    var raw, k := j.fields, EncodeChoice(nums, DecodeChoice(nums, j.fields));
    IntIdentity(nums, raw, "index");
    if "message" in raw {
      MessageFieldIdentity(raw);
    }
    assert k.fields["index"] == EncodeInt(nums, IntField(nums, raw, "index"));
    assert k.fields["message"] == EncodeMessage(MessageField(raw));
    assert k.fields["finish_reason"] == String(TextField(raw, "finish_reason"));
    if CanonicalChoice(nums, j) {
      assert k.fields == raw;
    }
  }

  lemma ChoicesIdentity(nums: Numbers, j: Json)
    requires Lawful(nums) && j.Array?
    ensures EncodeChoiceList(nums, Some(DecodeChoices(nums, j.elems))) == j <==> CanonicalChoices(nums, j)
  {
    var k := EncodeChoiceList(nums, Some(DecodeChoices(nums, j.elems))).elems;
    forall i | 0 <= i < |k|
      ensures k[i] == j.elems[i] <==> CanonicalChoice(nums, j.elems[i])
    {
      if j.elems[i].Object? {
        ChoiceIdentity(nums, j.elems[i]);
      }
    }
    if CanonicalChoices(nums, j) {
      assert k == j.elems;
    }
  }

  lemma ListIdentity(nums: Numbers, raw: map<string, Json>)
    requires Lawful(nums) && "choices" in raw
    ensures EncodeChoiceList(nums, DecodeChoiceList(nums, raw)) == raw["choices"]
      <==> CanonicalChoices(nums, raw["choices"])
  {
    if raw["choices"].Array? {
      ChoicesIdentity(nums, raw["choices"]);
    }
  }

  lemma SameFields(raw: map<string, Json>, k: map<string, Json>, keys: set<string>)
    requires k.Keys == (raw - keys).Keys + keys
    requires forall key :: key in raw && key !in keys ==> k[key] == raw[key]
    ensures k == raw <==> forall key :: key in keys ==> key in raw && raw[key] == k[key]
  {
    if forall key :: key in keys ==> key in raw && raw[key] == k[key] {
      assert k.Keys == raw.Keys;
    }
  }

  /** Decoding then encoding gives back the very same tree exactly for canonical responses. */
  lemma ResponseIdentity(nums: Numbers, j: Json)
    requires Lawful(nums) && DecodeResponse(nums, j).Ok?
    ensures EncodeResponse(nums, DecodeResponse(nums, j).value) == j <==> CanonicalResponse(nums, j)
  {
    if j.Object? {
      var raw, r := j.fields, DecodeResponse(nums, j).value;
      var k := EncodeResponse(nums, r).fields;
      EncodedFields(nums, r);
      SameFields(raw, k, RESPONSE_KEYS);
      assert HasText(raw, "id") <==> "id" in raw && raw["id"] == k["id"];
      assert HasText(raw, "object") <==> "object" in raw && raw["object"] == k["object"];
      assert HasText(raw, "model") <==> "model" in raw && raw["model"] == k["model"];
      IntIdentity(nums, raw, "created");
      if "choices" in raw {
        ListIdentity(nums, raw);
      }
      if "usage" in raw {
        UsageIdentity(nums, raw["usage"]);
      }
    }
  }

  /** A usage object with the three counts and more. */
  function Counts(nums: Numbers, more: map<string, Json>): Json {
    var n := EncodeInt(nums, 0);
    Object(more + map["prompt_tokens" := n, "completion_tokens" := n, "total_tokens" := n])
  }

  function WithUsage(nums: Numbers, usage: Json): Json {
    Object(map["id" := String("r"), "object" := String("chat.completion"), "created" := EncodeInt(nums, 0),
               "model" := String("m"),
               "choices" := Array([]), "usage" := usage])
  }

  lemma CountsCanonicalIff(nums: Numbers, more: map<string, Json>)
    requires Lawful(nums)
    ensures CanonicalUsage(nums, Counts(nums, more))
      <==> more.Keys <= {"prompt_tokens", "completion_tokens", "total_tokens"}
  {
    var raw := Counts(nums, more).fields;
    assert raw.Keys == more.Keys + {"prompt_tokens", "completion_tokens", "total_tokens"};
    assert nums.parse(nums.render(0)) == Some(0);
  }

  lemma WithUsageCanonicalIff(nums: Numbers, usage: Json)
    requires Lawful(nums)
    ensures CanonicalResponse(nums, WithUsage(nums, usage)) <==> CanonicalUsage(nums, usage)
  {
    assert nums.parse(nums.render(0)) == Some(0);
  }

  /** Token details inside usage do not come through; without them the same response does. */
  lemma UsageDetailsAreLost(nums: Numbers)
    requires Lawful(nums)
    ensures var plain := WithUsage(nums, Counts(nums, map[]));
      EncodeResponse(nums, DecodeResponse(nums, plain).value) == plain
    ensures var detailed := WithUsage(nums, Counts(nums, map["completion_tokens_details" := Object(map[])]));
      EncodeResponse(nums, DecodeResponse(nums, detailed).value) != detailed
  {
    var none, details: map<string, Json> := map[], map["completion_tokens_details" := Object(map[])];
    assert "completion_tokens_details" in details.Keys;
    CountsCanonicalIff(nums, none);
    CountsCanonicalIff(nums, details);
    WithUsageCanonicalIff(nums, Counts(nums, none));
    WithUsageCanonicalIff(nums, Counts(nums, details));
    ResponseIdentity(nums, WithUsage(nums, Counts(nums, none)));
    ResponseIdentity(nums, WithUsage(nums, Counts(nums, details)));
  }

  lemma EncodedFields(nums: Numbers, r: ChatResponse)
    ensures var k := EncodeResponse(nums, r).fields;
      && k.Keys == r.extra.Keys + RESPONSE_KEYS
      && k["id"] == String(r.id) && k["object"] == String(r.object_) && k["created"] == EncodeInt(nums, r.created)
      && k["model"] == String(r.model) && k["choices"] == EncodeChoiceList(nums, r.choices)
        && k["usage"] == EncodeUsage(nums, r.usage)
      && forall key :: key in r.extra && key !in RESPONSE_KEYS ==> k[key] == r.extra[key]
  {
  }

  lemma IntBack(nums: Numbers, raw: map<string, Json>, key: string, n: int)
    requires Lawful(nums) && key in raw && raw[key] == EncodeInt(nums, n)
    ensures IntField(nums, raw, key) == n
  {
  }

  lemma ElementNormal(nums: Numbers, j: Json)
    requires Lawful(nums)
    ensures var c := DecodeElement(nums, j); DecodeChoice(nums, EncodeChoice(nums, c).fields) == c
  {
    var c := DecodeElement(nums, j);
    var k := EncodeChoice(nums, c).fields;
    IntBack(nums, k, "index", c.index);
    assert k["message"] == EncodeMessage(c.message) && k["finish_reason"] == String(c.finishReason);
    assert DecodeMessage(EncodeMessage(c.message)) == Ok(c.message) by {
      if "message" in FieldsOf(j) && DecodeMessage(FieldsOf(j)["message"]).Ok? {
        MessageNormal(FieldsOf(j)["message"]);
      } else {
        MessageNormal(Null);
      }
    }
    assert k - CHOICE_KEYS == c.extra;
  }

  lemma UsageNormal(nums: Numbers, u: Usage)
    requires Lawful(nums)
    ensures DecodeUsage(nums, EncodeUsage(nums, u).fields) == u
  {
  }

  lemma ListNormal(nums: Numbers, js: seq<Json>)
    requires Lawful(nums)
    ensures var cs := DecodeChoices(nums, js); DecodeChoices(nums, EncodeChoiceList(nums, Some(cs)).elems) == cs
  {
    var cs := DecodeChoices(nums, js);
    var ks := EncodeChoiceList(nums, Some(cs)).elems;
    forall i | 0 <= i < |ks|
      ensures DecodeElement(nums, ks[i]) == cs[i]
    {
      ElementNormal(nums, js[i]);
    }
  }

  /** For every decodable response the round trip normalises once and for all. */
  lemma ResponseNormal(nums: Numbers, j: Json)
    requires Lawful(nums) && DecodeResponse(nums, j).Ok?
    ensures DecodeResponse(nums, EncodeResponse(nums, DecodeResponse(nums, j).value)) == DecodeResponse(nums, j)
  {
    var r := DecodeResponse(nums, j).value;
    var k := EncodeResponse(nums, r).fields;
    EncodedFields(nums, r);
    IntBack(nums, k, "created", r.created);
    UsageNormal(nums, r.usage);
    if r.choices.Some? {
      ListNormal(nums, ChoiceTrees(j));
    }
    assert r.extra == FieldsOf(j) - RESPONSE_KEYS;
    assert k - RESPONSE_KEYS == r.extra;
  }

  // ----- what is taken from a response -----

  /** n is the integer that the key holds, zero if it holds none. */
  ghost predicate IsInt(nums: Numbers, raw: map<string, Json>, key: string, n: int) {
    if key in raw && raw[key].Number? && nums.parse(raw[key].text).Some? then nums.parse(raw[key].text) == Some(n)
    else n == 0
  }

  /** s is the string that the key holds, empty if it holds none. */
  ghost predicate IsText(raw: map<string, Json>, key: string, s: string) {
    if key in raw && raw[key].String? then raw[key] == String(s) else s == ""
  }

  /** Every field of a choice is taken from its own key; the decoder keeps the element it stops at empty. */
  lemma ChoiceFields(nums: Numbers, js: seq<Json>, i: nat)
    requires i < |DecodeChoices(nums, js)|
    ensures var c, raw := DecodeChoices(nums, js)[i], FieldsOf(js[i]);
      && IsInt(nums, raw, "index", c.index) && IsText(raw, "finish_reason", c.finishReason)
      && (if "message" in raw && Readable(raw["message"]) then DecodeMessage(raw["message"]) == Ok(c.message)
          else c.message == Message("", "", None, "", map[]))
      && (!js[i].Object? ==> c == Choice(0, Message("", "", None, "", map[]), "", map[]))
  {
    if "message" in FieldsOf(js[i]) {
      MessageReadableIff(FieldsOf(js[i])["message"]);
    }
  }

  /** Every field of the response and of its usage is taken from its own key. */
  lemma ResponseFields(nums: Numbers, j: Json)
    ensures DecodeResponse(nums, j).Ok? <==> j.Object? || j.Null?
    ensures DecodeResponse(nums, j).Ok? ==>
      var r, raw := DecodeResponse(nums, j).value, FieldsOf(j);
      var usage := if "usage" in raw then FieldsOf(raw["usage"]) else map[];
      && IsText(raw, "id", r.id) && IsText(raw, "object", r.object_) && IsText(raw, "model", r.model)
      && IsInt(nums, raw, "created", r.created)
      && IsInt(nums, usage, "prompt_tokens", r.usage.promptTokens)
      && IsInt(nums, usage, "completion_tokens", r.usage.completionTokens)
      && IsInt(nums, usage, "total_tokens", r.usage.totalTokens)
      && (r.choices.Some? <==> "choices" in raw && raw["choices"].Array?)
      && (r.choices.Some? ==> r.choices.value == DecodeChoices(nums, raw["choices"].elems))
  {
  }

  // ----- what the proxy may change -----

  ghost function ChoiceTrees(j: Json): seq<Json> {
    if "choices" in FieldsOf(j) && FieldsOf(j)["choices"].Array? then FieldsOf(j)["choices"].elems else []
  }

  /** The response with other texts in its choices. */
  function Rewritten(r: ChatResponse, texts: seq<string>): ChatResponse
    requires |texts| == |r.choices.GetOr([])|
  {
    if r.choices.None? then r
    else r.(choices := Some(seq(|texts|, i requires 0 <= i < |texts| =>
      r.choices.value[i].(message := r.choices.value[i].message.(content := texts[i])))))
  }

  /**
    k is the choice j with the given text: every unmodelled key as received, index and finish
    reason as received where they are well typed, the message changed in its text only.
   */
  ghost predicate OnlyChoiceTextChanged(nums: Numbers, j: Json, k: Json, text: string) {
    var old_ := FieldsOf(j);
    && k.Object? && k.fields.Keys == old_.Keys + CHOICE_KEYS
    && (forall key :: key in old_ && key !in CHOICE_KEYS ==> k.fields[key] == old_[key])
    && k.fields["index"]
      == (if HasInt(nums, old_, "index") then old_["index"] else EncodeInt(nums, IntField(nums, old_, "index")))
    && k.fields["finish_reason"] == (if HasText(old_, "finish_reason") then old_["finish_reason"] else String(""))
    && ("message" in old_ && DecodeMessage(old_["message"]).Ok?
      ==> OnlyTextChanged(old_["message"], k.fields["message"], text))
  }

  lemma RewriteOneChoice(nums: Numbers, j: Json, text: string)
    ensures var c := DecodeElement(nums, j);
      OnlyChoiceTextChanged(nums, j, EncodeChoice(nums, c.(message := c.message.(content := text))), text)
  {
    var c, old_ := DecodeElement(nums, j), FieldsOf(j);
    assert c == DecodeChoice(nums, old_);
    var k := EncodeChoice(nums, c.(message := c.message.(content := text)));
    assert k.fields.Keys == old_.Keys + CHOICE_KEYS;
    if "message" in old_ && DecodeMessage(old_["message"]).Ok? {
      RewriteOneMessage(old_["message"], text);
    }
  }

  /** The choices of k are those of the response j, one per decoded element, with the given texts. */
  ghost predicate ChoicesRewritten(nums: Numbers, j: Json, k: Json, texts: seq<string>) {
    && k.Array? && |k.elems| == |texts| <= |ChoiceTrees(j)|
    && forall i :: 0 <= i < |texts| ==> OnlyChoiceTextChanged(nums, ChoiceTrees(j)[i], k.elems[i], texts[i])
  }

  lemma RewrittenList(nums: Numbers, j: Json, r: ChatResponse, texts: seq<string>)
    requires r.choices == Some(DecodeChoices(nums, ChoiceTrees(j))) && |texts| == |r.choices.value|
    ensures ChoicesRewritten(nums, j, EncodeChoiceList(nums, Rewritten(r, texts).choices), texts)
  {
    forall i | 0 <= i < |texts|
      ensures OnlyChoiceTextChanged(nums, ChoiceTrees(j)[i], EncodeChoice(nums, Rewritten(r, texts).choices.value[i]),
                                    texts[i])
    {
      RewriteOneChoice(nums, ChoiceTrees(j)[i], texts[i]);
    }
  }

  lemma UsageKept(nums: Numbers, raw: map<string, Json>)
    requires Lawful(nums) && "usage" in raw && CanonicalUsage(nums, raw["usage"])
    ensures EncodeUsage(nums, DecodeUsage(nums, FieldsOf(raw["usage"]))) == raw["usage"]
  {
    UsageIdentity(nums, raw["usage"]);
  }

  /**
    Returning a response with rewritten texts keeps every unmodelled key of the response, of its
    choices and of their messages - log probabilities, tool calls, fingerprints - and every
    modelled one that is well typed.
   */
  lemma ReturningPatchesOnlyTexts(nums: Numbers, j: Json, texts: seq<string>)
    requires Lawful(nums) && DecodeResponse(nums, j).Ok?
    requires |texts| == |DecodeResponse(nums, j).value.choices.GetOr([])|
    ensures var old_, k := FieldsOf(j), EncodeResponse(nums, Rewritten(DecodeResponse(nums, j).value, texts));
      && k.Object? && k.fields.Keys == old_.Keys + RESPONSE_KEYS
      && (forall key :: key in old_ && key !in RESPONSE_KEYS ==> k.fields[key] == old_[key])
      && (HasText(old_, "id") ==> k.fields["id"] == old_["id"])
      && (HasText(old_, "object") ==> k.fields["object"] == old_["object"])
      && (HasInt(nums, old_, "created") ==> k.fields["created"] == old_["created"])
      && (HasText(old_, "model") ==> k.fields["model"] == old_["model"])
      && ("usage" in old_ && CanonicalUsage(nums, old_["usage"]) ==> k.fields["usage"] == old_["usage"])
      && (if "choices" in old_ && old_["choices"].Array?
          then ChoicesRewritten(nums, j, k.fields["choices"], texts)
          else k.fields["choices"] == Null)
  {
    var r, old_ := DecodeResponse(nums, j).value, FieldsOf(j);
    var r' := Rewritten(r, texts);
    EncodedFields(nums, r');
    assert r'.extra == old_ - RESPONSE_KEYS;
    assert EncodeResponse(nums, r').fields.Keys == old_.Keys + RESPONSE_KEYS;
    IntIdentity(nums, old_, "created");
    if "usage" in old_ && CanonicalUsage(nums, old_["usage"]) {
      UsageKept(nums, old_);
    }
    if r.choices.Some? {
      RewrittenList(nums, j, r, texts);
    }
  }
}
