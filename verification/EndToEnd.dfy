/** Anonymization across one whole request: what the client gets back when the LLM answers in placeholders. */
module EndToEnd {
  import opened ConfigStore
  import opened Llm
  import opened Placeholders
  import opened Processor
  import opened Replacer
  import opened RoundTrip
  import opened TransformState
  import opened Transformers
  import opened WorkspaceConfig
  import opened Wrappers
  import Pipeline

  ghost predicate GoodTable(t: Table) {
    Consistent(t) && Bracketed(t)
  }

  /** What any transformer of the chain may do to the request's table, also when it fails. */
  ghost predicate KeepsTable(core: Pipeline.Core) {
    forall t, msgs :: GoodTable(t) ==> GoodTable(core.run(t, msgs).0) && Extends(t, core.run(t, msgs).0)
  }

  /** A reversible anonymizer: when it succeeds, the call is a run of the span loop over all messages. */
  ghost predicate Anonymizes(core: Pipeline.Core, analyze: Analyzer) {
    forall t, msgs :: GoodTable(t) && core.run(t, msgs).1.Ok? ==>
      Anonymized(t, msgs, analyze, core.run(t, msgs).0, core.run(t, msgs).1.value)
  }

  ghost predicate Anonymized(t: Table, msgs: seq<Message>, analyze: Analyzer, t': Table, outs: seq<Message>) {
    && TypesOk(AnswersTo(analyze, msgs))
    && exists ts, orders :: TransformRun(ts, msgs, AnswersTo(analyze, msgs), orders, outs) && ts[0] == t
         && ts[|msgs|] == t'
  }

  /** A deanonymizer: one replacer, from some listing of the table, on every message. */
  ghost predicate Deanonymizes(core: Pipeline.Core) {
    forall t, msgs :: GoodTable(t) ==>
      core.run(t, msgs).0 == t && core.run(t, msgs).1.Ok? && Decoded(t, msgs, core.run(t, msgs).1.value)
  }

  ghost predicate Decoded(t: Table, msgs: seq<Message>, outs: seq<Message>) {
    && |outs| == |msgs|
    && exists pairs :: Lists(pairs, t.mappings) && NonEmptyOlds(pairs) && DecodedBy(pairs, msgs, outs)
  }

  ghost predicate DecodedBy(pairs: Pairs, msgs: seq<Message>, outs: seq<Message>)
    requires NonEmptyOlds(pairs) && |outs| == |msgs|
  {
    forall i :: 0 <= i < |msgs| ==> outs[i] == msgs[i].(content := Replace(pairs, msgs[i].content))
  }

  // ----- there are such transformers -----

  /** The reversible mode of the anonymizer as a step of a chain. */
  ghost function AnonymizerCore(s: Setup): Pipeline.Core {
    Pipeline.Core("presidio", "presidio",
      (t: Table, msgs: seq<Message>) => var (t', r) := Rewrite(s, Some(t), msgs); (t'.GetOr(t), r))
  }

  lemma AnonymizerCoreWorks(s: Setup)
    requires s.reversible && Sorts(s.sort) && FreeTypes(s.analyze)
    ensures KeepsTable(AnonymizerCore(s)) && Anonymizes(AnonymizerCore(s), s.analyze)
  {
    var core := AnonymizerCore(s);
    forall t, msgs | GoodTable(t)
      ensures GoodTable(core.run(t, msgs).0) && Extends(t, core.run(t, msgs).0)
      ensures core.run(t, msgs).1.Ok? ==> Anonymized(t, msgs, s.analyze, core.run(t, msgs).0, core.run(t, msgs).1.value)
    {
      RewriteKeepsTable(s, Some(t), msgs, |msgs|);
      if core.run(t, msgs).1.Ok? {
        RewriteIsRun(s, t, msgs);
        var answers := AnswersTo(s.analyze, msgs);
        forall i | 0 <= i < |answers| && answers[i].Ok?
          ensures BracketFreeTypes(answers[i].value)
        {
          assert answers[i] == AnswerTo(s.analyze, msgs, i);
        }
      }
    }
  }

  ghost function ListingOf(m: map<string, string>): (pairs: Pairs)
    ensures Lists(pairs, m)
  {
    ListingExists(m);
    var pairs :| Lists(pairs, m);
    pairs
  }

  lemma ListingExists(m: map<string, string>)
    ensures exists pairs :: Lists(pairs, m)
  {
    var pairs := SomeListing(m);
  }

  ghost function Decode(m: map<string, string>, msgs: seq<Message>): seq<Message>
    requires NonEmptyOlds(ListingOf(m))
  {
    seq(|msgs|, i requires 0 <= i < |msgs| => msgs[i].(content := Replace(ListingOf(m), msgs[i].content)))
  }

  /** The deanonymizer as a step of a chain. */
  ghost function DeanonymizerCore(): Pipeline.Core {
    Pipeline.Core("deanonymize", "deanonymize",
      (t: Table, msgs: seq<Message>) =>
        (t, Ok(if NonEmptyOlds(ListingOf(t.mappings)) then Decode(t.mappings, msgs) else msgs)))
  }

  lemma DecodeIsDecoded(t: Table, msgs: seq<Message>)
    requires GoodTable(t)
    ensures NonEmptyOlds(ListingOf(t.mappings)) && Decoded(t, msgs, Decode(t.mappings, msgs))
  {
    var pairs := ListingOf(t.mappings);
    assert forall i :: 0 <= i < |pairs| ==> Delimited(pairs[i].0);
    assert DecodedBy(pairs, msgs, Decode(t.mappings, msgs));
  }

  lemma DeanonymizerCoreWorks()
    ensures KeepsTable(DeanonymizerCore()) && Deanonymizes(DeanonymizerCore())
  {
    var core := DeanonymizerCore();
    forall t, msgs | GoodTable(t)
      ensures core.run(t, msgs).0 == t && core.run(t, msgs).1.Ok? && Decoded(t, msgs, core.run(t, msgs).1.value)
    {
      DecodeIsDecoded(t, msgs);
    }
  }

  // ----- chains -----

  /** A chain keeps the table in order as well, whichever of its steps fail and are passed over. */
  lemma {:induction false} FoldKeepsTable(ts: seq<Pipeline.Transformer>, t: Table, msgs: seq<Message>)
    requires GoodTable(t) && forall k :: 0 <= k < |ts| ==> KeepsTable(ts[k].Base())
    ensures GoodTable(Pipeline.Fold(ts, t, msgs).0) && Extends(t, Pipeline.Fold(ts, t, msgs).0)
    decreases |ts|
  {
    if ts != [] {
      assert KeepsTable(ts[0].Base());
      var (t', r) := ts[0].Base().run(t, msgs);
      if r.Ok? || ts[0].FailOpen? {
        var next := if r.Ok? then r.value else msgs;
        FoldKeepsTable(ts[1..], t', next);
        ExtendsTransitive(t, t', Pipeline.Fold(ts[1..], t', next).0);
      }
    }
  }

  /** The last step of a chain works on what the others leave. */
  lemma {:induction false} FoldLast(ts: seq<Pipeline.Transformer>, last: Pipeline.Transformer, t: Table,
                                    msgs: seq<Message>)
    requires Pipeline.Fold(ts, t, msgs).1.Ok?
    ensures var (t', r) := Pipeline.Fold(ts, t, msgs);
      Pipeline.Fold(ts + [last], t, msgs) == Pipeline.Fold([last], t', r.value)
    decreases |ts|
  {
    if ts == [] {
      assert ts + [last] == [last];
    } else {
      assert (ts + [last])[1..] == ts[1..] + [last];
      var (t', r) := ts[0].Base().run(t, msgs);
      FoldLast(ts[1..], last, t', if r.Ok? then r.value else msgs);
    }
  }

  // ----- the response -----

  ghost predicate InputOk(src: ResolvedSource, req: ChatRequest) {
    InputChain(src, req).1.Ok?
  }

  ghost function LlmAnswer(env: Environment, src: ResolvedSource, req: ChatRequest): Result<ChatResponse>
    requires InputOk(src, req)
  {
    env.llm(CallOf(src, req, InputChain(src, req).1.value))
  }

  /** The request went through, and what the LLM and the client saw is defined. */
  ghost predicate Passed(env: Environment, src: ResolvedSource, org: Uuid, req: ChatRequest) {
    && InputOk(src, req) && LlmAnswer(env, src, req).Ok?
    && ExecutedFor(env, src, org, req).0.Ok? && ExecutedFor(env, src, org, req).0.value.response.Some?
  }

  ghost function Returned(env: Environment, src: ResolvedSource, org: Uuid, req: ChatRequest): ChatResponse
    requires Passed(env, src, org, req)
  {
    ExecutedFor(env, src, org, req).0.value.response.value
  }

  ghost predicate Restoring(src: ResolvedSource) {
    && (forall k :: 0 <= k < |src.inputTransformers| ==> KeepsTable(src.inputTransformers[k].Base()))
    && |src.outputTransformers| == 1 && Deanonymizes(src.outputTransformers[0].Base())
  }

  lemma FreshTable()
    ensures GoodTable(EMPTY)
  {
  }

  /** The client gets the answer of the LLM decoded under the table the input chain left behind. */
  lemma ReturnedIsDecoded(env: Environment, src: ResolvedSource, org: Uuid, req: ChatRequest) returns (pairs: Pairs)
    requires Restoring(src) && Passed(env, src, org, req)
    ensures GoodTable(InputChain(src, req).0)
    ensures Lists(pairs, InputChain(src, req).0.mappings) && NonEmptyOlds(pairs)
    ensures var answer, resp := ChoicesOf(LlmAnswer(env, src, req).value), ChoicesOf(Returned(env, src, org, req));
      && |resp| == |answer|
      && forall i :: 0 <= i < |answer| ==>
        resp[i] == answer[i].(message := answer[i].message.(content := Replace(pairs, answer[i].message.content)))
  {
    FreshTable();
    FoldKeepsTable(src.inputTransformers, EMPTY, req.messages.GetOr([]));
    var t, answer := InputChain(src, req).0, LlmAnswer(env, src, req).value;
    var msgs := MessagesOf(answer);
    var core := src.outputTransformers[0].Base();
    var outs := core.run(t, msgs).1.value;
    assert Decoded(t, msgs, outs);
    pairs :| Lists(pairs, t.mappings) && NonEmptyOlds(pairs) && DecodedBy(pairs, msgs, outs);
    OnlyStep(src.outputTransformers, t, msgs);
    var resp := Returned(env, src, org, req);
    assert OutputChain(src, t, answer) == Ok(resp);
    if ChoicesOf(answer) != [] {
      assert resp == WithMessages(answer, outs);
    }
  }

  lemma OnlyStep(ts: seq<Pipeline.Transformer>, t: Table, msgs: seq<Message>)
    requires |ts| == 1 && ts[0].Base().run(t, msgs).1.Ok?
    ensures Pipeline.Fold(ts, t, msgs) == ts[0].Base().run(t, msgs)
  {
    var (t', r) := ts[0].Base().run(t, msgs);
    assert Pipeline.Fold(ts[1..], t', r.value) == (t', Ok(r.value));
  }

  /**
    An answer that interleaves literals with placeholders of the request reaches the client with
    the originals in their places, in every choice, whatever else the input chain recorded.
   */
  lemma AnswerIsRestored(env: Environment, src: ResolvedSource, org: Uuid, req: ChatRequest, i: nat, head: string,
                         ps: seq<Piece>)
    requires Restoring(src) && Passed(env, src, org, req)
    requires i < |ChoicesOf(LlmAnswer(env, src, req).value)|
    requires ChoicesOf(LlmAnswer(env, src, req).value)[i].message.content == head + Rendered(ps)
    requires Inert(InputChain(src, req).0.mappings, head) && Known(InputChain(src, req).0.mappings, ps)
    ensures |ChoicesOf(Returned(env, src, org, req))| > i
    ensures ChoicesOf(Returned(env, src, org, req))[i].message.content
      == head + Restored(InputChain(src, req).0.mappings, ps)
  {
    var pairs := ReturnedIsDecoded(env, src, org, req);
    DecodeInterleaving(pairs, InputChain(src, req).0.mappings, head, ps);
  }

  /**
    An LLM that repeats a message as it received it makes the proxy return that message as it was
    before anonymization - the last input step, after any other steps.
   */
  lemma {:induction false} EchoIsRestored(env: Environment, src: ResolvedSource, org: Uuid, req: ChatRequest,
                       before: seq<Pipeline.Transformer>, anonymizer: Pipeline.Transformer, analyze: Analyzer,
                       i: nat, j: nat)
    requires Restoring(src) && Passed(env, src, org, req)
    requires src.inputTransformers == before + [anonymizer] && Anonymizes(anonymizer.Base(), analyze)
    requires Pipeline.Fold(before, EMPTY, req.messages.GetOr([])).1.Ok?
    requires var (t0, m0) := Pipeline.Fold(before, EMPTY, req.messages.GetOr([]));
      anonymizer.Base().run(t0, m0.value).1.Ok?
    requires var msgs := Pipeline.Fold(before, EMPTY, req.messages.GetOr([])).1.value;
      && j < |msgs|
      && forall k :: 0 <= k < |msgs| ==> WellCovered(msgs[k], AnswerTo(analyze, msgs, k), InputChain(src, req).0)
    requires i < |ChoicesOf(LlmAnswer(env, src, req).value)| && j < |InputChain(src, req).1.value|
    requires ChoicesOf(LlmAnswer(env, src, req).value)[i].message.content == InputChain(src, req).1.value[j].content
    ensures |ChoicesOf(Returned(env, src, org, req))| > i
    ensures ChoicesOf(Returned(env, src, org, req))[i].message.content
      == Pipeline.Fold(before, EMPTY, req.messages.GetOr([])).1.value[j].content
  {
    var pairs := ReturnedIsDecoded(env, src, org, req);
    var (t0, m0) := Pipeline.Fold(before, EMPTY, req.messages.GetOr([]));
    var msgs := m0.value;
    FoldLast(before, anonymizer, EMPTY, req.messages.GetOr([]));
    OnlyStep([anonymizer], t0, msgs);
    var (t, outs) := anonymizer.Base().run(t0, msgs);
    assert (t, outs) == InputChain(src, req);
    FreshTable();
    assert forall k :: 0 <= k < |before| ==> before[k] == src.inputTransformers[k];
    FoldKeepsTable(before, EMPTY, req.messages.GetOr([]));
    assert Anonymized(t0, msgs, analyze, t, outs.value);
    var answers := AnswersTo(analyze, msgs);
    var ts, orders :| TransformRun(ts, msgs, answers, orders, outs.value) && ts[0] == t0 && ts[|msgs|] == t;
    forall k | 0 <= k < |msgs|
      ensures WellCovered(msgs[k], answers[k], t)
    {
      assert answers[k] == AnswerTo(analyze, msgs, k);
    }
    ConversationRoundTrip(ts, msgs, answers, orders, outs.value, t, pairs);
  }
}
