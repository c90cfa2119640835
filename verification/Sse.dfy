/** The replayed event stream and what a client rebuilds from it (section 9.2 of the WHATWG HTML Standard). */
module Sse {
  import opened Stream
  import opened Utf8
  import opened Wrappers

  const CHUNK_SIZE: nat := 48
  const LF: byte := 0x0A
  const CR: byte := 0x0D
  const STOP: Text := [0x73, 0x74, 0x6F, 0x70]
  const DATA: Text := [0x64, 0x61, 0x74, 0x61, 0x3A]
  const DONE: Text := [0x5B, 0x44, 0x4F, 0x4E, 0x45, 0x5D]

  /** The parts of a completion that are replayed, as bytes. */
  datatype StreamChoice = StreamChoice(index: int, role: Text, content: Text, finishReason: Text)

  datatype Completion = Completion(id: Text, created: int, model: Text, choices: seq<StreamChoice>)

  /** A choice of a chunk; role and content are left out of the JSON when empty. */
  datatype ChunkChoice = ChunkChoice(index: int, role: Text, content: Text, finish: Option<Text>)

  datatype Chunk = Chunk(id: Text, created: int, model: Text, choices: seq<ChunkChoice>)

  /** json.Marshal of a chunk and a client's JSON parser. */
  datatype Codec = Codec(encode: Chunk -> Text, decode: Text -> Option<Chunk>)

  ghost predicate ValidChunk(c: Chunk) {
    && Valid(c.id) && Valid(c.model)
    && forall i :: 0 <= i < |c.choices| ==>
      Valid(c.choices[i].role) && Valid(c.choices[i].content)
        && (c.choices[i].finish.Some? ==> Valid(c.choices[i].finish.value))
  }

  predicate OneLine(s: Text) {
    LF !in s && CR !in s
  }

  /** JSON of chunks of valid UTF-8 stays on one line, parses back, and is not the end marker. */
  ghost predicate Lawful(codec: Codec) {
    forall c :: ValidChunk(c) ==>
      codec.decode(codec.encode(c)) == Some(c) && OneLine(codec.encode(c)) && codec.encode(c) != DONE
  }

  // ----- emitting -----

  function Event(payload: Text): Text {
    DATA + [SPACE] + payload + [LF, LF]
  }

  function ChunkOf(resp: Completion, c: ChunkChoice): Chunk {
    Chunk(resp.id, resp.created, resp.model, [c])
  }

  function ContentChunks(index: int, pieces: seq<Text>): seq<ChunkChoice> {
    if pieces == [] then [] else [ChunkChoice(index, [], pieces[0], None)] + ContentChunks(index, pieces[1..])
  }

  function Finish(reason: Text): Text {
    if reason == [] then STOP else reason
  }

  /** A role delta, the content deltas, a finish event. */
  function ChoiceChunks(c: StreamChoice): seq<ChunkChoice> {
    [ChunkChoice(c.index, c.role, [], None)] + ContentChunks(c.index, Split(c.content, CHUNK_SIZE))
    + [ChunkChoice(c.index, [], [], Some(Finish(c.finishReason)))]
  }

  function AllChunks(choices: seq<StreamChoice>): seq<ChunkChoice> {
    if choices == [] then [] else ChoiceChunks(choices[0]) + AllChunks(choices[1..])
  }

  function Events(codec: Codec, resp: Completion, chunks: seq<ChunkChoice>): Text {
    if chunks == [] then [] else Event(codec.encode(ChunkOf(resp, chunks[0]))) + Events(codec, resp, chunks[1..])
  }

  lemma {:induction false} EventsConcat(codec: Codec, resp: Completion, a: seq<ChunkChoice>, b: seq<ChunkChoice>)
    ensures Events(codec, resp, a + b) == Events(codec, resp, a) + Events(codec, resp, b)
    decreases |a|
  {
    if a == [] {
      assert a + b == b;
    } else {
      assert (a + b)[1..] == a[1..] + b;
      EventsConcat(codec, resp, a[1..], b);
    }
  }

  lemma EventsAppend(codec: Codec, resp: Completion, sent: seq<ChunkChoice>, c: ChunkChoice)
    ensures Events(codec, resp, sent + [c]) == Events(codec, resp, sent) + Event(codec.encode(ChunkOf(resp, c)))
  {
    EventsConcat(codec, resp, sent, [c]);
    assert [c][1..] == [];
    assert Events(codec, resp, [c]) == Event(codec.encode(ChunkOf(resp, c)));
  }

  lemma ContentFrom(index: int, pieces: seq<Text>, k: nat, sent: seq<ChunkChoice>)
    requires k < |pieces|
    ensures sent + [ChunkChoice(index, [], pieces[k], None)] + ContentChunks(index, pieces[k + 1..])
      == sent + ContentChunks(index, pieces[k..])
  {
    assert pieces[k..][1..] == pieces[k + 1..];
  }

  class ResponseWriter {
    var body: Text

    constructor ()
      ensures body == []
    {
      body := [];
    }

    method Write(b: Text)
      modifies this
      ensures body == old(body) + b
    {
      body := body + b;
    }
  }

  method Emit(w: ResponseWriter, codec: Codec, c: Chunk)
    modifies w
    ensures w.body == old(w.body) + Event(codec.encode(c))
  {
    w.Write(DATA + [SPACE]);
    w.Write(codec.encode(c));
    w.Write([LF, LF]);
  }

  /** One chunk more behind those already sent. */
  method EmitDelta(w: ResponseWriter, codec: Codec, resp: Completion, c: ChunkChoice, ghost before: Text,
                   ghost sent: seq<ChunkChoice>)
    requires w.body == before + Events(codec, resp, sent)
    modifies w
    ensures w.body == before + Events(codec, resp, sent + [c])
  {
    Emit(w, codec, ChunkOf(resp, c));
    EventsAppend(codec, resp, sent, c);
  }

  method EmitChoice(w: ResponseWriter, codec: Codec, resp: Completion, choice: StreamChoice)
    modifies w
    ensures w.body == old(w.body) + Events(codec, resp, ChoiceChunks(choice))
  {
    ghost var before := w.body;
    var role := ChunkChoice(choice.index, choice.role, [], None);
    EmitDelta(w, codec, resp, role, before, []);
    ghost var sent := [] + [role];
    var pieces := SplitContent(choice.content, CHUNK_SIZE);
    ghost var all := sent + ContentChunks(choice.index, pieces);
    var k := 0;
    while k < |pieces|
      invariant 0 <= k <= |pieces|
      invariant w.body == before + Events(codec, resp, sent)
      invariant sent + ContentChunks(choice.index, pieces[k..]) == all
    {
      var c := ChunkChoice(choice.index, [], pieces[k], None);
      EmitDelta(w, codec, resp, c, before, sent);
      ContentFrom(choice.index, pieces, k, sent);
      sent := sent + [c];
      k := k + 1;
    }
    var finish := choice.finishReason;
    if finish == [] {
      finish := STOP;
    }
    var last := ChunkChoice(choice.index, [], [], Some(finish));
    EmitDelta(w, codec, resp, last, before, sent);
    assert sent == all;
    assert all + [last] == ChoiceChunks(choice);
  }

  lemma ChoiceSent(codec: Codec, resp: Completion, i: nat, sent: seq<ChunkChoice>, before: Text)
    requires i < |resp.choices|
    ensures var sent' := sent + ChoiceChunks(resp.choices[i]);
      && before + Events(codec, resp, sent) + Events(codec, resp, ChoiceChunks(resp.choices[i]))
        == before + Events(codec, resp, sent')
      && sent' + AllChunks(resp.choices[i + 1..]) == sent + AllChunks(resp.choices[i..])
  {
    EventsConcat(codec, resp, sent, ChoiceChunks(resp.choices[i]));
    assert resp.choices[i..][1..] == resp.choices[i + 1..];
  }

  /** All choices in turn, then the end marker. */
  method WriteSSEResponse(w: ResponseWriter, codec: Codec, resp: Completion)
    modifies w
    ensures w.body == old(w.body) + Events(codec, resp, AllChunks(resp.choices)) + Event(DONE)
  {
    ghost var before, sent, all := w.body, [], AllChunks(resp.choices);
    var i := 0;
    while i < |resp.choices|
      invariant 0 <= i <= |resp.choices|
      invariant w.body == before + Events(codec, resp, sent)
      invariant sent + AllChunks(resp.choices[i..]) == all
    {
      EmitChoice(w, codec, resp, resp.choices[i]);
      ChoiceSent(codec, resp, i, sent, before);
      sent := sent + ChoiceChunks(resp.choices[i]);
      i := i + 1;
    }
    assert sent == all;
    w.Write(Event(DONE));
  }

  // ----- the client's parser -----

  /** Index of the first line terminator character, |s| if there is none. */
  function LineEnd(s: Text): (n: nat)
    ensures n <= |s|
  {
    if s == [] || s[0] == LF || s[0] == CR then 0 else 1 + LineEnd(s[1..])
  }

  /** What follows the terminator; CR LF is one terminator. */
  function AfterLine(s: Text): Text
    requires LineEnd(s) < |s|
  {
    var n := LineEnd(s);
    if s[n] == CR && n + 1 < |s| && s[n + 1] == LF then s[n + 2..] else s[n + 1..]
  }

  /** A data field's value plus a line feed, nothing for other fields and comments. */
  function DataOf(line: Text): Text {
    if line == DATA[..4] then [LF]
    else if DATA <= line then
      (if |line| > 5 && line[5] == SPACE then line[6..] else line[5..]) + [LF]
    else []
  }

  /** Data of the dispatched events, buffer being the data read since the last blank line. */
  function Parse(s: Text, buffer: Text): seq<Text>
    decreases |s|
  {
    var n := LineEnd(s);
    if n == |s| then []
    else if n > 0 then Parse(AfterLine(s), buffer + DataOf(s[..n]))
    else if buffer == [] then Parse(AfterLine(s), [])
    else [buffer[..|buffer| - 1]] + Parse(AfterLine(s), [])
  }

  lemma {:induction false} LineEndAt(line: Text, rest: Text)
    requires OneLine(line)
    ensures LineEnd(line + [LF] + rest) == |line|
  {
    if line != [] {
      assert line == [line[0]] + line[1..];
      LineEndAt(line[1..], rest);
      assert (line + [LF] + rest)[1..] == line[1..] + [LF] + rest;
    }
  }

  /** One emitted event is read back as its payload, whatever follows. */
  lemma ParseEvent(payload: Text, rest: Text)
    requires OneLine(payload)
    ensures Parse(Event(payload) + rest, []) == [payload] + Parse(rest, [])
  {
    var line := DATA + [SPACE] + payload;
    var s := Event(payload) + rest;
    assert s == line + [LF] + ([LF] + rest);
    LineEndAt(line, [LF] + rest);
    assert s[|line|] == LF;
    assert AfterLine(s) == [LF] + rest;
    assert s[..|line|] == line && DATA <= line && line[5] == SPACE && line[6..] == payload;
    LineEndAt([], rest);
    assert [] + [LF] + rest == [LF] + rest;
    var buffer := [] + DataOf(line);
    assert buffer == payload + [LF];
    assert AfterLine([LF] + rest) == rest;
    assert buffer[..|buffer| - 1] == payload;
  }

  // ----- rebuilding the choices -----

  datatype Built = Built(role: Text, content: Text, finish: Text)

  function Fold(m: map<int, Built>, c: ChunkChoice): map<int, Built> {
    var b := if c.index in m then m[c.index] else Built([], [], []);
    m[c.index := Built(if c.role != [] then c.role else b.role, b.content + c.content, c.finish.GetOr(b.finish))]
  }

  function FoldAll(m: map<int, Built>, cs: seq<ChunkChoice>): map<int, Built>
    decreases |cs|
  {
    if cs == [] then m else FoldAll(Fold(m, cs[0]), cs[1..])
  }

  /** The client: decode payloads until the end marker; None if it is missing or a payload is bad. */
  function Rebuild(codec: Codec, payloads: seq<Text>, m: map<int, Built>): Option<map<int, Built>>
    decreases |payloads|
  {
    if payloads == [] then None
    else if payloads[0] == DONE then (if |payloads| == 1 then Some(m) else None)
    else match codec.decode(payloads[0])
      case None => None
      case Some(chunk) => Rebuild(codec, payloads[1..], FoldAll(m, chunk.choices))
  }

  lemma FoldOne(m: map<int, Built>, c: ChunkChoice)
    ensures FoldAll(m, [c]) == Fold(m, c)
  {
    assert FoldAll(Fold(m, c), [c][1..]) == Fold(m, c);
  }

  lemma {:induction false} FoldConcat(m: map<int, Built>, a: seq<ChunkChoice>, b: seq<ChunkChoice>)
    ensures FoldAll(m, a + b) == FoldAll(FoldAll(m, a), b)
    decreases |a|
  {
    if a == [] {
      assert a + b == b;
    } else {
      assert (a + b)[1..] == a[1..] + b;
      FoldConcat(Fold(m, a[0]), a[1..], b);
    }
  }

  lemma {:induction false} FoldContent(m: map<int, Built>, index: int, pieces: seq<Text>)
    requires index in m
    ensures FoldAll(m, ContentChunks(index, pieces))
      == m[index := m[index].(content := m[index].content + Concat(pieces))]
    decreases |pieces|
  {
    if pieces == [] {
      assert m[index].content + [] == m[index].content;
    } else {
      var c := ChunkChoice(index, [], pieces[0], None);
      var cs := ContentChunks(index, pieces);
      assert cs[0] == c && cs[1..] == ContentChunks(index, pieces[1..]);
      FoldContent(Fold(m, c), index, pieces[1..]);
      assert m[index].content + pieces[0] + Concat(pieces[1..]) == m[index].content + Concat(pieces);
    }
  }

  function BuiltOf(c: StreamChoice): Built {
    Built(c.role, c.content, Finish(c.finishReason))
  }

  lemma FoldPieces(m: map<int, Built>, c: StreamChoice, pieces: seq<Text>, first: ChunkChoice, last: ChunkChoice)
    requires c.index !in m && Concat(pieces) == c.content
    requires first == ChunkChoice(c.index, c.role, [], None)
    requires last == ChunkChoice(c.index, [], [], Some(Finish(c.finishReason)))
    ensures FoldAll(m, [first] + ContentChunks(c.index, pieces) + [last]) == m[c.index := BuiltOf(c)]
  {
    var middle := ContentChunks(c.index, pieces);
    var m1 := m[c.index := Built(c.role, [], [])];
    FoldFirst(m, c, first);
    FoldOne(m, first);
    FoldConcat(m, [first], middle);
    FoldContent(m1, c.index, pieces);
    var m2 := FoldAll(m1, middle);
    assert m2 == m[c.index := Built(c.role, c.content, [])] by { assert [] + c.content == c.content; }
    FoldConcat(m, [first] + middle, [last]);
    FoldOne(m2, last);
    FoldLast(m, c, last);
  }

  lemma FoldFirst(m: map<int, Built>, c: StreamChoice, first: ChunkChoice)
    requires c.index !in m && first == ChunkChoice(c.index, c.role, [], None)
    ensures Fold(m, first) == m[c.index := Built(c.role, [], [])]
  {
    assert Built([], [], []).content + first.content == [];
  }

  lemma FoldLast(m: map<int, Built>, c: StreamChoice, last: ChunkChoice)
    requires last == ChunkChoice(c.index, [], [], Some(Finish(c.finishReason)))
    ensures Fold(m[c.index := Built(c.role, c.content, [])], last) == m[c.index := BuiltOf(c)]
  {
    assert c.content + last.content == c.content;
  }

  lemma FoldChoice(m: map<int, Built>, c: StreamChoice)
    requires c.index !in m
    ensures FoldAll(m, ChoiceChunks(c)) == m[c.index := BuiltOf(c)]
  {
    PiecesAddUp(c.content, CHUNK_SIZE);
    FoldPieces(m, c, Split(c.content, CHUNK_SIZE), ChunkChoice(c.index, c.role, [], None),
               ChunkChoice(c.index, [], [], Some(Finish(c.finishReason))));
  }

  function Expected(m: map<int, Built>, choices: seq<StreamChoice>): map<int, Built>
    decreases |choices|
  {
    if choices == [] then m else Expected(m[choices[0].index := BuiltOf(choices[0])], choices[1..])
  }

  ghost predicate DistinctIndexes(choices: seq<StreamChoice>) {
    forall i, j :: 0 <= i < j < |choices| ==> choices[i].index != choices[j].index
  }

  lemma {:induction false} FoldChoices(m: map<int, Built>, choices: seq<StreamChoice>)
    requires DistinctIndexes(choices) && forall i :: 0 <= i < |choices| ==> choices[i].index !in m
    ensures FoldAll(m, AllChunks(choices)) == Expected(m, choices)
    decreases |choices|
  {
    if choices != [] {
      FoldChoice(m, choices[0]);
      FoldConcat(m, ChoiceChunks(choices[0]), AllChunks(choices[1..]));
      FoldChoices(m[choices[0].index := BuiltOf(choices[0])], choices[1..]);
    }
  }

  lemma {:induction false} ExpectedHasAll(m: map<int, Built>, choices: seq<StreamChoice>)
    requires DistinctIndexes(choices)
    ensures forall i :: 0 <= i < |choices| ==>
      choices[i].index in Expected(m, choices) && Expected(m, choices)[choices[i].index] == BuiltOf(choices[i])
    ensures forall k :: (forall i :: 0 <= i < |choices| ==> choices[i].index != k) ==>
      (k in Expected(m, choices) <==> k in m) && (k in m ==> Expected(m, choices)[k] == m[k])
    decreases |choices|
  {
    if choices != [] {
      var m', rest := m[choices[0].index := BuiltOf(choices[0])], choices[1..];
      ExpectedHasAll(m', rest);
      assert forall i :: 0 <= i < |rest| ==> rest[i] == choices[i + 1];
    }
  }

  ghost predicate ValidCompletion(resp: Completion) {
    && Valid(resp.id) && Valid(resp.model)
    && forall i :: 0 <= i < |resp.choices| ==> ValidChoice(resp.choices[i])
  }

  ghost predicate ValidChoice(c: StreamChoice) {
    Valid(c.role) && Valid(c.content) && Valid(c.finishReason)
  }

  ghost predicate ValidParts(cs: seq<ChunkChoice>) {
    forall i :: 0 <= i < |cs|
      ==> Valid(cs[i].role) && Valid(cs[i].content) && (cs[i].finish.Some? ==> Valid(cs[i].finish.value))
  }

  lemma {:induction false} ContentChunksValid(index: int, pieces: seq<Text>)
    requires forall k :: 0 <= k < |pieces| ==> Valid(pieces[k])
    ensures ValidParts(ContentChunks(index, pieces))
  {
    if pieces != [] {
      ContentChunksValid(index, pieces[1..]);
    }
  }

  lemma StopIsValid()
    ensures Valid(STOP)
  {
    assert STOP[1..][1..][1..][1..] == [];
  }

  lemma PartsTogether(a: seq<ChunkChoice>, b: seq<ChunkChoice>)
    requires ValidParts(a) && ValidParts(b)
    ensures ValidParts(a + b)
  {
  }

  lemma ChoiceChunksValid(c: StreamChoice)
    requires ValidChoice(c)
    ensures ValidParts(ChoiceChunks(c))
  {
    PiecesStayValid(c.content, CHUNK_SIZE);
    ContentChunksValid(c.index, Split(c.content, CHUNK_SIZE));
    StopIsValid();
    var first := ChunkChoice(c.index, c.role, [], None);
    var last := ChunkChoice(c.index, [], [], Some(Finish(c.finishReason)));
    PartsTogether([first], ContentChunks(c.index, Split(c.content, CHUNK_SIZE)));
    PartsTogether([first] + ContentChunks(c.index, Split(c.content, CHUNK_SIZE)), [last]);
  }

  lemma {:induction false} AllChunksValid(choices: seq<StreamChoice>)
    requires forall i :: 0 <= i < |choices| ==> ValidChoice(choices[i])
    ensures ValidParts(AllChunks(choices))
  {
    if choices != [] {
      ChoiceChunksValid(choices[0]);
      AllChunksValid(choices[1..]);
      PartsTogether(ChoiceChunks(choices[0]), AllChunks(choices[1..]));
    }
  }

  function Payloads(codec: Codec, resp: Completion, cs: seq<ChunkChoice>): seq<Text> {
    if cs == [] then [DONE] else [codec.encode(ChunkOf(resp, cs[0]))] + Payloads(codec, resp, cs[1..])
  }

  lemma ChunkIsLawful(codec: Codec, resp: Completion, c: ChunkChoice)
    requires Lawful(codec) && Valid(resp.id) && Valid(resp.model) && ValidParts([c])
    ensures var payload := codec.encode(ChunkOf(resp, c));
      codec.decode(payload) == Some(ChunkOf(resp, c)) && OneLine(payload) && payload != DONE
  {
    assert [c][0] == c;
    assert ValidChunk(ChunkOf(resp, c));
  }

  lemma FirstEvent(codec: Codec, resp: Completion, cs: seq<ChunkChoice>)
    requires cs != []
    ensures Events(codec, resp, cs) + Event(DONE)
      == Event(codec.encode(ChunkOf(resp, cs[0]))) + (Events(codec, resp, cs[1..]) + Event(DONE))
  {
  }

  lemma {:induction false} ParseEvents(codec: Codec, resp: Completion, cs: seq<ChunkChoice>)
    requires Lawful(codec) && Valid(resp.id) && Valid(resp.model) && ValidParts(cs)
    ensures Parse(Events(codec, resp, cs) + Event(DONE), []) == Payloads(codec, resp, cs)
  {
    if cs == [] {
      ParseEvent(DONE, []);
      assert [] + Event(DONE) == Event(DONE) + [];
    } else {
      ChunkIsLawful(codec, resp, cs[0]);
      var payload := codec.encode(ChunkOf(resp, cs[0]));
      var rest := Events(codec, resp, cs[1..]) + Event(DONE);
      assert OneLine(payload);
      ParseEvent(payload, rest);
      FirstEvent(codec, resp, cs);
      assert ValidParts(cs[1..]);
      ParseEvents(codec, resp, cs[1..]);
    }
  }

  /** Every payload before the end marker is a chunk of this completion: its id, time and model, and one choice. */
  lemma {:induction false} ChunksCarryCompletion(codec: Codec, resp: Completion, cs: seq<ChunkChoice>, i: nat)
    requires Lawful(codec) && Valid(resp.id) && Valid(resp.model) && ValidParts(cs) && i < |cs|
    ensures var payloads := Parse(Events(codec, resp, cs) + Event(DONE), []);
      && |payloads| == |cs| + 1 && payloads[|cs|] == DONE
      && codec.decode(payloads[i]) == Some(Chunk(resp.id, resp.created, resp.model, [cs[i]]))
  {
    ParseEvents(codec, resp, cs);
    PayloadAt(codec, resp, cs, i);
    assert ValidParts([cs[i]]);
    ChunkIsLawful(codec, resp, cs[i]);
  }

  lemma {:induction false} PayloadAt(codec: Codec, resp: Completion, cs: seq<ChunkChoice>, i: nat)
    requires i < |cs|
    ensures |Payloads(codec, resp, cs)| == |cs| + 1
    ensures Payloads(codec, resp, cs)[i] == codec.encode(ChunkOf(resp, cs[i]))
    ensures Payloads(codec, resp, cs)[|cs|] == DONE
  {
    if |cs| > 1 {
      PayloadAt(codec, resp, cs[1..], if i > 0 then i - 1 else 0);
    }
  }

  lemma {:induction false} RebuildPayloads(codec: Codec, resp: Completion, cs: seq<ChunkChoice>, m: map<int, Built>)
    requires Lawful(codec) && Valid(resp.id) && Valid(resp.model) && ValidParts(cs)
    ensures Rebuild(codec, Payloads(codec, resp, cs), m) == Some(FoldAll(m, cs))
    decreases |cs|
  {
    if cs != [] {
      ChunkIsLawful(codec, resp, cs[0]);
      var ps := Payloads(codec, resp, cs);
      assert ps[1..] == Payloads(codec, resp, cs[1..]);
      FoldOne(m, cs[0]);
      RebuildPayloads(codec, resp, cs[1..], Fold(m, cs[0]));
    }
  }

  /**
    A client that parses the stream and folds the deltas by index gets every choice back - role,
    whole content, finish reason ("stop" for none) - and nothing else, with the end marker last.
   */
  lemma StreamRebuildsCompletion(codec: Codec, resp: Completion)
    requires Lawful(codec) && ValidCompletion(resp) && DistinctIndexes(resp.choices)
    ensures var built := Rebuild(codec, Parse(Events(codec, resp, AllChunks(resp.choices)) + Event(DONE), []), map[]);
      && built.Some?
      && (forall i :: 0 <= i < |resp.choices| ==>
          var c := resp.choices[i];
          && c.index in built.value
          && built.value[c.index] == Built(c.role, c.content, if c.finishReason == [] then STOP else c.finishReason))
      && (forall k :: k in built.value ==> exists i :: 0 <= i < |resp.choices| && resp.choices[i].index == k)
  {
    AllChunksValid(resp.choices);
    ParseEvents(codec, resp, AllChunks(resp.choices));
    RebuildPayloads(codec, resp, AllChunks(resp.choices), map[]);
    FoldChoices(map[], resp.choices);
    ExpectedHasAll(map[], resp.choices);
  }
}
