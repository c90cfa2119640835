/** One proxied request: transformers, input guards, the LLM call, output transformers and guards. */
module Processor {
  import opened ConfigStore
  import opened Llm
  import opened TransformState
  import opened WorkspaceConfig
  import opened Wrappers
  import Guards
  import Pipeline

  datatype LlmCall = LlmCall(baseUrl: string, apiKey: string, request: ChatRequest)

  datatype AuditRecord = AuditRecord(
    orgId: Uuid,
    sourceId: Uuid,
    inputText: string,
    guardResults: map<string, Guards.EngineResult>,
    transforms: Option<Pipeline.ChainResult>,
    outputTransforms: Option<Pipeline.ChainResult>,
    overallResult: string,
    usage: Option<Usage>,
    model: string)

  datatype AlertEvent = AlertEvent(orgId: Uuid, sourceRoute: string, phase: string, failed: seq<Guards.GuardResult>)

  /** What a request does to the world outside. */
  datatype Effect = CalledLlm(call: LlmCall) | Audited(record: AuditRecord) | Alerted(alert: AlertEvent)

  datatype Outcome = Outcome(
    status: string,
    phase: string,
    response: Option<ChatResponse>,
    guardResults: map<string, Guards.EngineResult>,
    transforms: Option<Pipeline.ChainResult>,
    outputTransforms: Option<Pipeline.ChainResult>)

  /** The LLM gateway's answer to a call, and which sinks are configured. */
  datatype Environment = Environment(llm: LlmCall -> Result<ChatResponse>, auditing: bool, alerting: bool)

  /** "system: ...\nuser: ..." in order. */
  function SerializeMessages(messages: seq<Message>): string {
    if messages == [] then ""
    else
      var line := messages[0].role + ": " + messages[0].content;
      if |messages| == 1 then line else line + "\n" + SerializeMessages(messages[1..])
  }

  lemma LinesJoin(a: string, b: string, c: string)
    ensures a + "\n" + (b + "\n" + c) == (a + "\n" + b) + "\n" + c
  {
  }

  lemma {:induction false} LinesConcat(a: seq<Message>, b: seq<Message>)
    requires a != [] && b != []
    ensures SerializeMessages(a + b) == SerializeMessages(a) + "\n" + SerializeMessages(b)
  {
    assert (a + b)[0] == a[0] && (a + b)[1..] == a[1..] + b;
    if |a| == 1 {
      assert a[1..] + b == b;
    } else {
      LinesConcat(a[1..], b);
      LinesJoin(a[0].role + ": " + a[0].content, SerializeMessages(a[1..]), SerializeMessages(b));
    }
  }

  /** One line a message, in order; this is all there is to the text. */
  lemma SerializedLines(a: seq<Message>, b: seq<Message>)
    ensures SerializeMessages([]) == ""
    ensures forall m: Message :: SerializeMessages([m]) == m.role + ": " + m.content
    ensures a != [] && b != [] ==> SerializeMessages(a + b) == SerializeMessages(a) + "\n" + SerializeMessages(b)
  {
    if a != [] && b != [] {
      LinesConcat(a, b);
    }
  }

  function ChoicesOf(resp: ChatResponse): seq<Choice> {
    resp.choices.GetOr([])
  }

  function OutputText(resp: ChatResponse): string {
    if |ChoicesOf(resp)| > 0 then ChoicesOf(resp)[0].message.content else ""
  }

  function InputEval(src: ResolvedSource): Guards.EvalConfig {
    Guards.EvalConfig(src.config.criteria.input, src.config.criteria.inputThreshold.GetOr(0))
  }

  function OutputEval(src: ResolvedSource): Guards.EvalConfig {
    Guards.EvalConfig(src.config.criteria.output, src.config.criteria.outputThreshold.GetOr(0))
  }

  function InputMeta(src: ResolvedSource, messages: seq<Message>): Guards.CallMeta {
    Guards.CallMeta("input", src.config.route, SerializeMessages(messages))
  }

  function OutputMeta(src: ResolvedSource): Guards.CallMeta {
    Guards.CallMeta("output", src.config.route, "")
  }

  function MessagesOf(resp: ChatResponse): seq<Message> {
    seq(|ChoicesOf(resp)|, i requires 0 <= i < |ChoicesOf(resp)| => ChoicesOf(resp)[i].message)
  }

  function WithMessages(resp: ChatResponse, messages: seq<Message>): ChatResponse
    requires |messages| == |ChoicesOf(resp)|
  {
    resp.(choices := Some(seq(|messages|,
                              i requires 0 <= i < |messages| => ChoicesOf(resp)[i].(message := messages[i]))))
  }

  predicate FailedEnforcing(r: Guards.GuardResult) { !r.passed && !r.shadow }

  function Failed(results: seq<Guards.GuardResult>): seq<Guards.GuardResult> {
    if results == [] then []
    else
      var n := |results| - 1;
      Failed(results[..n]) + (if FailedEnforcing(results[n]) then [results[n]] else [])
  }

  // ----- the request as a function -----

  ghost function RecordEffect(env: Environment, record: AuditRecord): seq<Effect> {
    if env.auditing then [Audited(record)] else []
  }

  ghost function AlertEffect(env: Environment, alert: AlertEvent): seq<Effect> {
    if env.alerting then [Alerted(alert)] else []
  }

  /** The messages after the input chain, with the table it leaves. */
  ghost function InputChain(src: ResolvedSource, req: ChatRequest): (Table, Result<seq<Message>>) {
    Pipeline.Fold(src.inputTransformers, EMPTY, req.messages.GetOr([]))
  }

  ghost function InputVerdict(src: ResolvedSource, messages: seq<Message>): Guards.EngineResult {
    Guards.Verdict(src.inputGuards, InputMeta(src, messages), LastUserText(messages), InputEval(src))
  }

  ghost function OutputVerdict(src: ResolvedSource, resp: ChatResponse): Guards.EngineResult {
    Guards.Verdict(src.outputGuards, OutputMeta(src), OutputText(resp), OutputEval(src))
  }

  /** The response after the output chain, if it succeeds and keeps the number of choices. */
  ghost function OutputChain(src: ResolvedSource, t: Table, resp: ChatResponse): Result<ChatResponse> {
    if src.outputTransformers == [] || ChoicesOf(resp) == [] then Ok(resp)
    else match Pipeline.Fold(src.outputTransformers, t, MessagesOf(resp)).1
      case Err(_) => Err("running output transformers")
      case Ok(messages) =>
        if |messages| != |ChoicesOf(resp)| then Err("output transformers changed message count")
        else Ok(WithMessages(resp, messages))
  }

  ghost function InputSteps(src: ResolvedSource, req: ChatRequest): Option<Pipeline.ChainResult> {
    if src.inputTransformers == [] then None
    else Some(Pipeline.Chain(src.inputTransformers, EMPTY, req.messages.GetOr([])))
  }

  ghost function OutputSteps(src: ResolvedSource, t: Table, resp: ChatResponse): Option<Pipeline.ChainResult> {
    if src.outputTransformers == [] || ChoicesOf(resp) == [] then None
    else Some(Pipeline.Chain(src.outputTransformers, t, MessagesOf(resp)))
  }

  ghost function CallOf(src: ResolvedSource, req: ChatRequest, messages: seq<Message>): LlmCall {
    LlmCall(src.config.llmBaseUrl, src.config.llmApiKey,
            (if src.inputTransformers == [] then req
             else req.(messages := Some(messages))).(model := src.config.llmModel))
  }

  ghost function InputGuardResults(src: ResolvedSource, messages: seq<Message>): map<string, Guards.EngineResult> {
    if src.inputGuards == [] then map[] else map["input" := InputVerdict(src, messages)]
  }

  /** What a rejection by the input guards records and reports. */
  ghost function InputRejection(env: Environment, src: ResolvedSource, org: Uuid, req: ChatRequest,
                                messages: seq<Message>): seq<Effect> {
    RecordEffect(env,
                 AuditRecord(org, src.config.id, LastUserText(messages), InputGuardResults(src, messages),
                             InputSteps(src, req), None, "fail", None, ""))
    + AlertEffect(env, AlertEvent(org, src.config.route, "input", Failed(InputVerdict(src, messages).results)))
  }

  /** The last stage: the output guards' verdict on the response decides. */
  ghost function Concluded(env: Environment, src: ResolvedSource, org: Uuid, text: string, resp: ChatResponse,
                           verdict: Guards.EngineResult, gin: map<string, Guards.EngineResult>,
                           steps: Option<Pipeline.ChainResult>, osteps: Option<Pipeline.ChainResult>)
    : (Outcome, seq<Effect>)
  {
    var gout := if src.outputGuards == [] then gin else gin["output" := verdict];
    if src.outputGuards != [] && !verdict.passed then
      (Outcome("rejected", "output", None, gout, steps, osteps),
       RecordEffect(env,
                    AuditRecord(org, src.config.id, text, gout, steps, osteps, "fail", Some(resp.usage), resp.model))
       + AlertEffect(env, AlertEvent(org, src.config.route, "output", Failed(verdict.results))))
    else
      (Outcome("pass", "", Some(resp), gout, steps, osteps),
       RecordEffect(env,
                    AuditRecord(org, src.config.id, text, gout, steps, osteps, "pass", Some(resp.usage), resp.model)))
  }

  /** From the LLM's answer on. */
  ghost function Answered(env: Environment, src: ResolvedSource, org: Uuid, req: ChatRequest, t: Table,
                          messages: seq<Message>, answer: ChatResponse)
    : (Result<Outcome>, seq<Effect>)
  {
    match OutputChain(src, t, answer)
    case Err(e) => (Err(e), [])
    case Ok(resp) =>
      var (o, effects) := Concluded(env, src, org, LastUserText(messages), resp, OutputVerdict(src, resp),
                                    InputGuardResults(src, messages), InputSteps(src, req),
                                    OutputSteps(src, t, answer));
      (Ok(o), effects)
  }

  /** From the LLM call on. */
  ghost function Forwarded(env: Environment, src: ResolvedSource, org: Uuid, req: ChatRequest, t: Table,
                           messages: seq<Message>)
    : (Result<Outcome>, seq<Effect>)
  {
    var call := CallOf(src, req, messages);
    match env.llm(call)
    case Err(_) => (Err("LLM call failed"), [CalledLlm(call)])
    case Ok(answer) =>
      var (result, effects) := Answered(env, src, org, req, t, messages, answer);
      (result, [CalledLlm(call)] + effects)
  }

  /** A request to an enabled source. */
  ghost function ExecutedFor(env: Environment, src: ResolvedSource, org: Uuid,
                             req: ChatRequest): (Result<Outcome>, seq<Effect>) {
    var (t, r) := InputChain(src, req);
    match r
    case Err(_) => (Err("running transformers"), [])
    case Ok(messages) =>
      if src.inputGuards != [] && !InputVerdict(src, messages).passed then
        (Ok(Outcome("rejected", "input", None, InputGuardResults(src, messages), InputSteps(src, req), None)),
         InputRejection(env, src, org, req, messages))
      else Forwarded(env, src, org, req, t, messages)
  }

  /** The whole request: its result and its effects in order. */
  ghost function Executed(env: Environment, found: Option<ResolvedSource>, org: Uuid,
                          req: ChatRequest): (Result<Outcome>, seq<Effect>) {
    if found.None? then (Err("source not found"), [])
    else if !found.value.config.enabled then (Err("source is disabled"), [])
    else ExecutedFor(env, found.value, org, req)
  }

  lemma CallFirst(env: Environment, src: ResolvedSource, org: Uuid, req: ChatRequest, t: Table, messages: seq<Message>,
                  call: LlmCall, log: seq<Effect>)
    requires call == CallOf(src, req, messages)
    ensures env.llm(call).Err?
      ==> Forwarded(env, src, org, req, t, messages) == (Err("LLM call failed"), [CalledLlm(call)])
    ensures env.llm(call).Ok? ==>
      var (result, effects) := Answered(env, src, org, req, t, messages, env.llm(call).value);
      && Forwarded(env, src, org, req, t, messages).0 == result
      && log + Forwarded(env, src, org, req, t, messages).1 == log + [CalledLlm(call)] + effects
  {
  }

  // ----- the processor -----

  /** Some schedule that lets all guards of any run finish. */
  type Scheduler = (seq<Guards.Guard>, Guards.CallMeta, string) -> seq<nat>

  ghost predicate Fair(schedule: Scheduler) {
    forall gs, meta, input :: Guards.Complete(gs, meta, input, schedule(gs, meta, input))
  }

  function TakeTurns(guards: seq<Guards.Guard>, meta: Guards.CallMeta, input: string): seq<nat> {
    Guards.InTurn(|guards|)
  }

  /** There is a fair scheduler. */
  lemma FairSchedulerExists()
    ensures Fair(TakeTurns)
  {
    forall gs, meta, input
      ensures Guards.Complete(gs, meta, input, TakeTurns(gs, meta, input))
    {
      Guards.InTurnIsComplete(gs, meta, input);
    }
  }

  class Processor {
    const store: Store
    const env: Environment
    var log: seq<Effect>

    constructor (store: Store, env: Environment)
      ensures this.store == store && this.env == env && log == []
    {
      this.store, this.env, this.log := store, env, [];
    }

    ghost function Lookup(org: Uuid, route: string): Option<ResolvedSource>
      reads store
    {
      match store.current
      case None => None
      case Some(snap) => if (org, route) in snap.sources then Some(snap.sources[(org, route)]) else None
    }

    method Record(record: AuditRecord)
      modifies this`log
      ensures log == old(log) + RecordEffect(env, record)
    {
      if env.auditing {
        log := log + [Audited(record)];
      }
    }

    /** Carries the failing guards of the phase that are not in shadow mode. */
    method Alert(org: Uuid, route: string, phase: string, res: Guards.EngineResult)
      modifies this`log
      ensures log == old(log) + AlertEffect(env, AlertEvent(org, route, phase, Failed(res.results)))
    {
      if !env.alerting {
        return;
      }
      var failed: seq<Guards.GuardResult> := [];
      for i := 0 to |res.results|
        invariant failed == Failed(res.results[..i])
      {
        assert res.results[..i + 1][..i] == res.results[..i];
        if !res.results[i].passed && !res.results[i].shadow {
          failed := failed + [res.results[i]];
        }
      }
      assert res.results[..|res.results|] == res.results;
      log := log + [Alerted(AlertEvent(org, route, phase, failed))];
    }

    /** The output chain on the messages of all choices; without any the response is left as it came. */
    method TransformOutput(src: ResolvedSource, t: Table, answer: ChatResponse)
      returns (r: Result<ChatResponse>, outputTransforms: Option<Pipeline.ChainResult>)
      ensures r == OutputChain(src, t, answer)
      ensures outputTransforms == OutputSteps(src, t, answer)
    {
      r, outputTransforms := Ok(answer), None;
      if |src.outputTransformers| > 0 && |ChoicesOf(answer)| > 0 {
        var t', out, chain := Pipeline.ApplyAll(src.outputTransformers, t, MessagesOf(answer));
        outputTransforms := Some(chain);
        r := if out.Err? then Err("running output transformers")
          else if |out.value| != |ChoicesOf(answer)| then Err("output transformers changed message count")
          else Ok(WithMessages(answer, out.value));
      }
    }

    /** The stages after the LLM has answered. */
    method Respond(src: ResolvedSource, org: Uuid, ghost req: ChatRequest, t: Table, ghost messages: seq<Message>,
                   text: string, transforms: Option<Pipeline.ChainResult>,
                   guardResults0: map<string, Guards.EngineResult>, answer: ChatResponse, schedule: Scheduler)
      returns (r: Result<Outcome>)
      requires Fair(schedule)
      requires text == LastUserText(messages) && transforms == InputSteps(src, req)
        && guardResults0 == InputGuardResults(src, messages)
      modifies this`log
      ensures r == Answered(env, src, org, req, t, messages, answer).0
      ensures log == old(log) + Answered(env, src, org, req, t, messages, answer).1
    {
      var transformed, outputTransforms := TransformOutput(src, t, answer);
      if transformed.Err? {
        return Err(transformed.error);
      }
      var outcome := Conclude(src, org, text, transformed.value, guardResults0, transforms, outputTransforms, schedule);
      r := Ok(outcome);
    }

    /** The output guards on the response as the client would get it; either way it is recorded here. */
    method Conclude(src: ResolvedSource, org: Uuid, text: string, resp: ChatResponse,
                    guardResults0: map<string, Guards.EngineResult>, transforms: Option<Pipeline.ChainResult>,
                    outputTransforms: Option<Pipeline.ChainResult>, schedule: Scheduler)
      returns (o: Outcome)
      requires Fair(schedule)
      modifies this`log
      ensures var (o', effects) := Concluded(env, src, org, text, resp, OutputVerdict(src, resp), guardResults0,
                                             transforms, outputTransforms);
        o == o' && log == old(log) + effects
    {
      var guardResults := guardResults0;
      if |src.outputGuards| > 0 {
        var outputText := OutputText(resp);
        var verdict := Guards.Run(src.outputGuards, OutputMeta(src), outputText, OutputEval(src),
                                  schedule(src.outputGuards, OutputMeta(src), outputText));
        guardResults := guardResults["output" := verdict];
        if !verdict.passed {
          Record(AuditRecord(org, src.config.id, text, guardResults, transforms, outputTransforms, "fail",
                             Some(resp.usage), resp.model));
          Alert(org, src.config.route, "output", verdict);
          return Outcome("rejected", "output", None, guardResults, transforms, outputTransforms);
        }
      }
      Record(AuditRecord(org, src.config.id, text, guardResults, transforms, outputTransforms, "pass", Some(resp.usage),
                         resp.model));
      o := Outcome("pass", "", Some(resp), guardResults, transforms, outputTransforms);
    }

    /** The input guards on the transformed messages; a rejection is recorded and reported here. */
    method Admit(src: ResolvedSource, org: Uuid, ghost req: ChatRequest, messages: seq<Message>, text: string,
                 transforms: Option<Pipeline.ChainResult>, schedule: Scheduler)
      returns (rejected: bool, guardResults: map<string, Guards.EngineResult>)
      requires Fair(schedule)
      requires text == LastUserText(messages) && transforms == InputSteps(src, req)
      modifies this`log
      ensures rejected <==> src.inputGuards != [] && !InputVerdict(src, messages).passed
      ensures guardResults == InputGuardResults(src, messages)
      ensures log == old(log) + (if rejected then InputRejection(env, src, org, req, messages) else [])
    {
      guardResults := map[];
      rejected := false;
      if |src.inputGuards| > 0 {
        var meta := InputMeta(src, messages);
        var verdict := Guards.Run(src.inputGuards, meta, text, InputEval(src), schedule(src.inputGuards, meta, text));
        guardResults := guardResults["input" := verdict];
        if !verdict.passed {
          Record(AuditRecord(org, src.config.id, text, guardResults, transforms, None, "fail", None, ""));
          Alert(org, src.config.route, "input", verdict);
          rejected := true;
        }
      }
    }

    /** The input chain; without transformers the request is left as it came. */
    method TransformInput(src: ResolvedSource, req0: ChatRequest)
      returns (t: Table, r: Result<ChatRequest>, transforms: Option<Pipeline.ChainResult>)
      ensures r.Err? <==> InputChain(src, req0).1.Err?
      ensures r.Ok? ==> InputChain(src, req0) == (t, Ok(r.value.messages.GetOr([])))
      ensures r.Ok? ==> r.value.(model := src.config.llmModel) == CallOf(src, req0, r.value.messages.GetOr([])).request
      ensures transforms == InputSteps(src, req0)
    {
      t, r, transforms := EMPTY, Ok(req0), None;
      if |src.inputTransformers| > 0 {
        var t', out, chain := Pipeline.ApplyAll(src.inputTransformers, t, req0.messages.GetOr([]));
        t, transforms := t', Some(chain);
        r := match out case Ok(messages) => Ok(req0.(messages := Some(messages))) case Err(e) => Err(e);
      }
    }

    method ExecuteFor(src: ResolvedSource, org: Uuid, req0: ChatRequest, schedule: Scheduler)
      returns (r: Result<Outcome>)
      requires Fair(schedule)
      modifies this`log
      ensures r == ExecutedFor(env, src, org, req0).0
      ensures log == old(log) + ExecutedFor(env, src, org, req0).1
    {
      var t, transformed, transforms := TransformInput(src, req0);
      if transformed.Err? {
        return Err("running transformers");
      }
      var req := transformed.value;
      var messages := req.messages.GetOr([]);
      var text := ExtractInputText(messages);
      var rejected, guardResults := Admit(src, org, req0, messages, text, transforms, schedule);
      if rejected {
        return Ok(Outcome("rejected", "input", None, guardResults, transforms, None));
      }
      assert log == old(log);
      req := req.(model := src.config.llmModel);
      r := Forward(src, org, req, req0, t, messages, text, transforms, guardResults, schedule);
    }

    /** The LLM call and what follows it. */
    method Forward(src: ResolvedSource, org: Uuid, req: ChatRequest, ghost req0: ChatRequest, t: Table,
                   ghost messages: seq<Message>, text: string, transforms: Option<Pipeline.ChainResult>,
                   guardResults: map<string, Guards.EngineResult>, schedule: Scheduler)
      returns (r: Result<Outcome>)
      requires Fair(schedule) && req == CallOf(src, req0, messages).request
      requires text == LastUserText(messages) && transforms == InputSteps(src, req0)
        && guardResults == InputGuardResults(src, messages)
      modifies this`log
      ensures r == Forwarded(env, src, org, req0, t, messages).0
      ensures log == old(log) + Forwarded(env, src, org, req0, t, messages).1
    {
      var call := LlmCall(src.config.llmBaseUrl, src.config.llmApiKey, req);
      CallFirst(env, src, org, req0, t, messages, call, log);
      log := log + [CalledLlm(call)];
      var answer := env.llm(call);
      if answer.Err? {
        return Err("LLM call failed");
      }
      r := Respond(src, org, req0, t, messages, text, transforms, guardResults, answer.value, schedule);
    }

    method Execute(org: Uuid, route: string, req: ChatRequest, schedule: Scheduler) returns (r: Result<Outcome>)
      requires Fair(schedule)
      modifies this`log
      ensures Lookup(org, route).Some? <==> store.current.Some? && (org, route) in store.current.value.sources
      ensures Lookup(org, route).Some? ==> Lookup(org, route).value == store.current.value.sources[(org, route)]
      ensures r == Executed(env, Lookup(org, route), org, req).0
      ensures log == old(log) + Executed(env, Lookup(org, route), org, req).1
    {
      var found := store.LookupSource(org, route);
      if found.None? {
        return Err("source not found");
      }
      if !found.value.config.enabled {
        return Err("source is disabled");
      }
      r := ExecuteFor(found.value, org, req, schedule);
    }
  }

  // ----- what every path keeps -----

  function Calls(effects: seq<Effect>): seq<LlmCall> {
    if effects == [] then [] else (if effects[0].CalledLlm? then [effects[0].call] else []) + Calls(effects[1..])
  }

  function Audits(effects: seq<Effect>): seq<AuditRecord> {
    if effects == [] then [] else (if effects[0].Audited? then [effects[0].record] else []) + Audits(effects[1..])
  }

  function Alerts(effects: seq<Effect>): seq<AlertEvent> {
    if effects == [] then [] else (if effects[0].Alerted? then [effects[0].alert] else []) + Alerts(effects[1..])
  }

  lemma SinkEffects(env: Environment, record: AuditRecord, alert: AlertEvent)
    ensures var e := RecordEffect(env, record) + AlertEffect(env, alert);
      && Calls(e) == [] && Audits(e) == (if env.auditing then [record] else [])
        && Alerts(e) == (if env.alerting then [alert] else [])
    ensures var e := RecordEffect(env, record);
      Calls(e) == [] && Audits(e) == (if env.auditing then [record] else []) && Alerts(e) == []
  {
    var a, b := RecordEffect(env, record), AlertEffect(env, alert);
    assert a == [] || a[1..] == [];
    assert b == [] || b[1..] == [];
    assert Calls(b) == [] && Audits(b) == [] && Alerts(b) == if env.alerting then [alert] else [];
    if env.auditing {
      assert (a + b)[1..] == b;
    } else {
      assert a + b == b;
    }
  }

  lemma RejectionEffects(env: Environment, src: ResolvedSource, org: Uuid, req: ChatRequest, messages: seq<Message>)
    ensures var e := InputRejection(env, src, org, req, messages);
      Calls(e) == [] && |Audits(e)| == (if env.auditing then 1 else 0) && |Alerts(e)| == (if env.alerting then 1 else 0)
  {
    SinkEffects(env,
                AuditRecord(org, src.config.id, LastUserText(messages), InputGuardResults(src, messages),
                            InputSteps(src, req), None, "fail", None, ""),
                AlertEvent(org, src.config.route, "input", Failed(InputVerdict(src, messages).results)));
  }

  lemma AfterCall(call: LlmCall, effects: seq<Effect>)
    ensures var e := [CalledLlm(call)] + effects;
      Calls(e) == [call] + Calls(effects) && Audits(e) == Audits(effects) && Alerts(e) == Alerts(effects)
  {
    assert ([CalledLlm(call)] + effects)[1..] == effects;
  }

  ghost predicate OnlySinks(effects: seq<Effect>) {
    |effects| <= 2 && (forall e :: e in effects ==> !e.CalledLlm?) && (|effects| == 2 ==> effects[0].Audited?)
  }

  /** The last stage makes no call, and answers, audits and alerts consistently. */
  lemma ConcludedEffects(env: Environment, src: ResolvedSource, org: Uuid, text: string, resp: ChatResponse,
                         verdict: Guards.EngineResult, gin: map<string, Guards.EngineResult>,
                         steps: Option<Pipeline.ChainResult>, osteps: Option<Pipeline.ChainResult>)
    ensures var (o, effects) := Concluded(env, src, org, text, resp, verdict, gin, steps, osteps);
      && Calls(effects) == [] && OnlySinks(effects)
      && |Audits(effects)| == (if env.auditing then 1 else 0)
      && |Alerts(effects)| == (if o.status == "rejected" && env.alerting then 1 else 0)
  {
    var o := Concluded(env, src, org, text, resp, verdict, gin, steps, osteps).0;
    SinkEffects(env,
                AuditRecord(org, src.config.id, text, o.guardResults, steps, osteps,
                            if o.status == "pass" then "pass" else "fail", Some(resp.usage), resp.model),
                AlertEvent(org, src.config.route, "output", Failed(verdict.results)));
  }

  /** The stages after the call make no further call, and answer, audit and alert consistently. */
  lemma AnsweredEffects(env: Environment, src: ResolvedSource, org: Uuid, req: ChatRequest, t: Table,
                        messages: seq<Message>, answer: ChatResponse)
    ensures var (r, effects) := Answered(env, src, org, req, t, messages, answer);
      && Calls(effects) == [] && OnlySinks(effects)
      && |Audits(effects)| == (if r.Ok? && env.auditing then 1 else 0)
      && |Alerts(effects)| == (if r.Ok? && r.value.status == "rejected" && env.alerting then 1 else 0)
  {
    var c := OutputChain(src, t, answer);
    if c.Ok? {
      ConcludedEffects(env, src, org, LastUserText(messages), c.value, OutputVerdict(src, c.value),
                       InputGuardResults(src, messages), InputSteps(src, req), OutputSteps(src, t, answer));
    }
  }

  /**
    On every path: at most one LLM call; one audit record exactly when there is a result (and
    auditing is on); one alert exactly when the request was rejected (and alerting is on).
   */
  lemma OneCallOneAuditOneAlert(env: Environment, found: Option<ResolvedSource>, org: Uuid, req: ChatRequest)
    ensures var (r, effects) := Executed(env, found, org, req);
      && |Calls(effects)| <= 1
      && |Audits(effects)| == (if r.Ok? && env.auditing then 1 else 0)
      && |Alerts(effects)| == (if r.Ok? && r.value.status == "rejected" && env.alerting then 1 else 0)
  {
    if found.Some? && found.value.config.enabled && InputChain(found.value, req).1.Ok? {
      var src := found.value;
      var (t, chained) := InputChain(src, req);
      var messages := chained.value;
      var call := CallOf(src, req, messages);
      if src.inputGuards != [] && !InputVerdict(src, messages).passed {
        RejectionEffects(env, src, org, req, messages);
      } else {
        match env.llm(call)
        case Err(_) => AfterCall(call, []);
        case Ok(answer) =>
          AnsweredEffects(env, src, org, req, t, messages, answer);
          AfterCall(call, Answered(env, src, org, req, t, messages, answer).1);
      }
    }
  }

  /** The call comes before everything else, and an alert after everything else. */
  ghost predicate InOrder(effects: seq<Effect>) {
    forall i, j :: 0 <= i < j < |effects| ==> !effects[j].CalledLlm? && !effects[i].Alerted?
  }

  lemma SinksAreInOrder(call: LlmCall, effects: seq<Effect>)
    requires OnlySinks(effects)
    ensures InOrder(effects) && InOrder([CalledLlm(call)] + effects)
  {
    assert forall k :: 0 <= k < |effects| ==> effects[k] in effects;
  }

  lemma EffectsInOrder(env: Environment, found: Option<ResolvedSource>, org: Uuid, req: ChatRequest)
    ensures InOrder(Executed(env, found, org, req).1)
  {
    if found.Some? && found.value.config.enabled && InputChain(found.value, req).1.Ok? {
      var src := found.value;
      var (t, chained) := InputChain(src, req);
      var call := CallOf(src, req, chained.value);
      SinksAreInOrder(call, []);
      SinksAreInOrder(call, InputRejection(env, src, org, req, chained.value));
      if env.llm(call).Ok? {
        AnsweredEffects(env, src, org, req, t, chained.value, env.llm(call).value);
        SinksAreInOrder(call, Answered(env, src, org, req, t, chained.value, env.llm(call).value).1);
      }
    }
  }

  // ----- when a request gets how far, without the stages' own functions -----

  /** The input guards on the last user text of the messages, knowing phase, route and the whole conversation. */
  ghost function JudgedInput(src: ResolvedSource, messages: seq<Message>): Guards.EngineResult {
    Guards.Verdict(src.inputGuards, Guards.CallMeta("input", src.config.route, SerializeMessages(messages)),
                   LastUserText(messages),
                   Guards.EvalConfig(src.config.criteria.input, src.config.criteria.inputThreshold.GetOr(0)))
  }

  /** The output guards on the text of the first choice, "" if there is none. */
  ghost function JudgedOutput(src: ResolvedSource, resp: ChatResponse): Guards.EngineResult {
    Guards.Verdict(src.outputGuards, Guards.CallMeta("output", src.config.route, ""),
                   if resp.choices.GetOr([]) == [] then "" else resp.choices.value[0].message.content,
                   Guards.EvalConfig(src.config.criteria.output, src.config.criteria.outputThreshold.GetOr(0)))
  }

  ghost predicate AcceptsInput(src: ResolvedSource, messages: seq<Message>) {
    src.inputGuards == [] || JudgedInput(src, messages).passed
  }

  ghost predicate AcceptsOutput(src: ResolvedSource, resp: ChatResponse) {
    src.outputGuards == [] || JudgedOutput(src, resp).passed
  }

  /** The messages of all choices go through the output chain and come back one for one; else nothing changes. */
  ghost predicate TransformedInto(src: ResolvedSource, t: Table, answer: ChatResponse, resp: ChatResponse) {
    var cs := answer.choices.GetOr([]);
    if src.outputTransformers == [] || cs == [] then resp == answer
    else
      exists msgs: seq<Message> ::
        && |msgs| == |cs| && (forall i :: 0 <= i < |cs| ==> msgs[i] == cs[i].message)
        && TransformedMessages(answer, resp, Pipeline.Fold(src.outputTransformers, t, msgs).1)
  }

  ghost predicate TransformedMessages(answer: ChatResponse, resp: ChatResponse, outs: Result<seq<Message>>) {
    var cs, cs' := answer.choices.GetOr([]), resp.choices.GetOr([]);
    && outs.Ok? && resp == answer.(choices := resp.choices) && |outs.value| == |cs'| == |cs|
    && forall i :: 0 <= i < |cs| ==> cs'[i] == cs[i].(message := outs.value[i])
  }

  lemma PutBack(answer: ChatResponse, resp: ChatResponse, outs: seq<Message>)
    requires ChoicesOf(answer) != []
    ensures TransformedMessages(answer, resp, Ok(outs))
      <==> |outs| == |ChoicesOf(answer)| && resp == WithMessages(answer, outs)
  {
    if |outs| == |ChoicesOf(answer)| {
      var resp' := WithMessages(answer, outs);
      assert TransformedMessages(answer, resp', Ok(outs));
      if TransformedMessages(answer, resp, Ok(outs)) {
        assert ChoicesOf(resp) == ChoicesOf(resp');
      }
    }
  }

  lemma TransformedIff(src: ResolvedSource, t: Table, answer: ChatResponse, resp: ChatResponse)
    ensures OutputChain(src, t, answer) == Ok(resp) <==> TransformedInto(src, t, answer, resp)
  {
    var cs, ms := ChoicesOf(answer), MessagesOf(answer);
    if src.outputTransformers != [] && cs != [] {
      assert forall msgs: seq<Message> ::
        |msgs| == |cs| && (forall i :: 0 <= i < |cs| ==> msgs[i] == cs[i].message) ==> msgs == ms;
      var outs := Pipeline.Fold(src.outputTransformers, t, ms).1;
      assert TransformedInto(src, t, answer, resp) <==> TransformedMessages(answer, resp, outs);
      if outs.Ok? {
        PutBack(answer, resp, outs.value);
      }
    }
  }

  /** The request is for an enabled source, and the source's input chain succeeds on it. */
  ghost predicate Reaches(found: Option<ResolvedSource>, req: ChatRequest) {
    && found.Some? && found.value.config.enabled
    && Pipeline.Fold(found.value.inputTransformers, EMPTY, req.messages.GetOr([])).1.Ok?
  }

  lemma CallsMade(env: Environment, found: Option<ResolvedSource>, org: Uuid, req: ChatRequest)
    ensures Calls(Executed(env, found, org, req).1) ==
      if Reaches(found, req) && AcceptsInput(found.value, InputChain(found.value, req).1.value)
      then [CallOf(found.value, req, InputChain(found.value, req).1.value)] else []
  {
    if Reaches(found, req) {
      var src := found.value;
      var (t, chained) := InputChain(src, req);
      var messages := chained.value;
      if AcceptsInput(src, messages) {
        var call := CallOf(src, req, messages);
        match env.llm(call)
        case Err(_) => AfterCall(call, []);
        case Ok(answer) =>
          AnsweredEffects(env, src, org, req, t, messages, answer);
          AfterCall(call, Answered(env, src, org, req, t, messages, answer).1);
      } else {
        RejectionEffects(env, src, org, req, messages);
      }
    }
  }

  /**
    The LLM is called exactly for requests that reach it, with the messages the input guards
    approved: the fold of the input chain, at the source's address with its key and its model.
   */
  lemma CallsAreApproved(env: Environment, found: Option<ResolvedSource>, org: Uuid, req: ChatRequest, call: LlmCall)
    ensures call in Calls(Executed(env, found, org, req).1) <==>
      && Reaches(found, req)
      && var src, (t, chained) := found.value,
           Pipeline.Fold(found.value.inputTransformers, EMPTY, req.messages.GetOr([]));
         && AcceptsInput(src, chained.value)
         && call.baseUrl == src.config.llmBaseUrl && call.apiKey == src.config.llmApiKey
         && call.request == req.(model := src.config.llmModel, messages := call.request.messages)
         && call.request.messages == if src.inputTransformers == [] then req.messages else Some(chained.value)
  {
    CallsMade(env, found, org, req);
  }

  lemma AnsweredWith(env: Environment, src: ResolvedSource, org: Uuid, req: ChatRequest, t: Table,
                     messages: seq<Message>, answer: ChatResponse, resp: ChatResponse)
    ensures var r := Answered(env, src, org, req, t, messages, answer).0;
      r.Ok? && r.value.response == Some(resp) <==> TransformedInto(src, t, answer, resp) && AcceptsOutput(src, resp)
  {
    TransformedIff(src, t, answer, resp);
  }

  /** A response is returned exactly if it is the transformed answer and the guards approve its first choice. */
  lemma ResponsesAreApproved(env: Environment, found: Option<ResolvedSource>, org: Uuid, req: ChatRequest,
                             resp: ChatResponse)
    ensures var (r, effects) := Executed(env, found, org, req);
      r.Ok? && r.value.response == Some(resp) <==>
        && Reaches(found, req) && |Calls(effects)| == 1 && env.llm(Calls(effects)[0]).Ok?
        && var src, (t, chained) := found.value,
             Pipeline.Fold(found.value.inputTransformers, EMPTY, req.messages.GetOr([]));
           TransformedInto(src, t, env.llm(Calls(effects)[0]).value, resp) && AcceptsOutput(src, resp)
  {
    CallsMade(env, found, org, req);
    if Reaches(found, req) {
      var (t, chained) := InputChain(found.value, req);
      var call := CallOf(found.value, req, chained.value);
      if env.llm(call).Ok? {
        AnsweredWith(env, found.value, org, req, t, chained.value, env.llm(call).value, resp);
      }
    }
  }

  /** The transformed answer that the output guards reject. */
  ghost predicate RejectedAnswer(src: ResolvedSource, t: Table, answer: Result<ChatResponse>) {
    answer.Ok? && exists resp :: TransformedInto(src, t, answer.value, resp) && !AcceptsOutput(src, resp)
  }

  /**
    A request is rejected exactly when guards reject it, and names their phase; it returns no
    response then. Whatever is neither rejected nor answered is an error.
   */
  lemma RejectionsNameTheirPhase(env: Environment, found: Option<ResolvedSource>, org: Uuid, req: ChatRequest)
    ensures var (r, effects) := Executed(env, found, org, req);
      && (r.Ok? ==> (r.value.response.None? <==> r.value.status == "rejected"))
      && (r.Ok? && r.value.status != "rejected" ==> r.value.status == "pass" && r.value.phase == "")
      && (r.Ok? && r.value.status == "rejected" ==> r.value.phase in {"input", "output"})
      && (r.Ok? && r.value.phase == "input" <==>
          && Reaches(found, req)
          && var src, (t, chained) := found.value,
               Pipeline.Fold(found.value.inputTransformers, EMPTY, req.messages.GetOr([]));
             !AcceptsInput(src, chained.value))
      && (r.Ok? && r.value.phase == "output" <==>
          && Reaches(found, req) && |Calls(effects)| == 1
          && var src, (t, chained) := found.value,
               Pipeline.Fold(found.value.inputTransformers, EMPTY, req.messages.GetOr([]));
             RejectedAnswer(src, t, env.llm(Calls(effects)[0])))
      && (r.Ok? && r.value.status == "rejected" ==>
          && r.value.phase in r.value.guardResults && !r.value.guardResults[r.value.phase].passed
          && (r.value.phase == "input" <==> Calls(effects) == []))
  {
    CallsMade(env, found, org, req);
    if Reaches(found, req) {
      var src := found.value;
      var (t, chained) := InputChain(src, req);
      var answer := env.llm(CallOf(src, req, chained.value));
      if answer.Ok? {
        RejectedIff(src, t, answer.value);
      }
    }
  }

  lemma RejectedIff(src: ResolvedSource, t: Table, answer: ChatResponse)
    ensures RejectedAnswer(src, t, Ok(answer)) <==>
      var c := OutputChain(src, t, answer);
      c.Ok? && src.outputGuards != [] && !OutputVerdict(src, c.value).passed
  {
    var c := OutputChain(src, t, answer);
    forall resp
      ensures TransformedInto(src, t, answer, resp) <==> c == Ok(resp)
    {
      TransformedIff(src, t, answer, resp);
    }
  }

  // ----- what is told about a request -----

  lemma {:induction false} FailedIsChosen(results: seq<Guards.GuardResult>)
    ensures Failed(results) == Chosen(results, (r: Guards.GuardResult) => !r.passed && !r.shadow)
  {
    if results != [] {
      FailedIsChosen(results[..|results| - 1]);
    }
  }

  /** The verdicts in a result: the input guards' on what the LLM was to see, the output guards' on the answer. */
  ghost predicate TellsVerdicts(src: ResolvedSource, messages: seq<Message>, t: Table, answer: Result<ChatResponse>,
                                o: Outcome) {
    && ("input" in o.guardResults <==> src.inputGuards != [])
    && ("output" in o.guardResults <==> src.outputGuards != [] && o.phase != "input")
    && ("input" in o.guardResults ==> o.guardResults["input"] == JudgedInput(src, messages))
    && ("output" in o.guardResults ==>
          && answer.Ok?
          && exists resp ::
               TransformedInto(src, t, answer.value, resp) && o.guardResults["output"] == JudgedOutput(src, resp))
  }

  /** The steps of the chains that ran. */
  ghost predicate TellsSteps(src: ResolvedSource, req: ChatRequest, t: Table, answer: Result<ChatResponse>,
                             o: Outcome)
  {
    && o.transforms == (if src.inputTransformers == [] then None
                        else Some(Pipeline.Chain(src.inputTransformers, EMPTY, req.messages.GetOr([]))))
    && (o.phase == "input" ==> o.outputTransforms == None)
    && (o.phase != "input" ==>
          && answer.Ok?
          && o.outputTransforms == if src.outputTransformers == [] || ChoicesOf(answer.value) == [] then None
               else Some(Pipeline.Chain(src.outputTransformers, t, MessagesOf(answer.value))))
  }

  lemma ConcludedVerdicts(env: Environment, src: ResolvedSource, org: Uuid, text: string, resp: ChatResponse,
                          vin: Guards.EngineResult, vout: Guards.EngineResult, gin: map<string, Guards.EngineResult>,
                          steps: Option<Pipeline.ChainResult>, osteps: Option<Pipeline.ChainResult>)
    requires gin == if src.inputGuards == [] then map[] else map["input" := vin]
    ensures var o := Concluded(env, src, org, text, resp, vout, gin, steps, osteps).0;
      && o.phase != "input" && o.transforms == steps && o.outputTransforms == osteps
      && ("input" in o.guardResults <==> src.inputGuards != [])
      && ("output" in o.guardResults <==> src.outputGuards != [])
      && ("input" in o.guardResults ==> o.guardResults["input"] == vin)
      && ("output" in o.guardResults ==> o.guardResults["output"] == vout)
  {
  }

  lemma AnsweredVerdicts(env: Environment, src: ResolvedSource, org: Uuid, req: ChatRequest, t: Table,
                         messages: seq<Message>, answer: ChatResponse)
    requires Answered(env, src, org, req, t, messages, answer).0.Ok?
    ensures var o := Answered(env, src, org, req, t, messages, answer).0.value;
      TellsVerdicts(src, messages, t, Ok(answer), o) && TellsSteps(src, req, t, Ok(answer), o)
  {
    var resp := OutputChain(src, t, answer).value;
    TransformedIff(src, t, answer, resp);
    ConcludedVerdicts(env, src, org, LastUserText(messages), resp, JudgedInput(src, messages), JudgedOutput(src, resp),
                      InputGuardResults(src, messages), InputSteps(src, req), OutputSteps(src, t, answer));
  }

  /** The result holds exactly the verdicts and steps of the stages the request went through. */
  lemma OutcomeTells(env: Environment, found: Option<ResolvedSource>, org: Uuid, req: ChatRequest)
    requires Executed(env, found, org, req).0.Ok?
    ensures Reaches(found, req)
    ensures var src := found.value;
      var (t, chained) := Pipeline.Fold(src.inputTransformers, EMPTY, req.messages.GetOr([]));
      var (r, effects) := Executed(env, found, org, req);
      var answer := if Calls(effects) == [] then Err("no call") else env.llm(Calls(effects)[0]);
      TellsVerdicts(src, chained.value, t, answer, r.value) && TellsSteps(src, req, t, answer, r.value)
  {
    CallsMade(env, found, org, req);
    var src := found.value;
    var (t, chained) := InputChain(src, req);
    if AcceptsInput(src, chained.value) {
      AnsweredVerdicts(env, src, org, req, t, chained.value, env.llm(CallOf(src, req, chained.value)).value);
    }
  }

  /** What the audit log keeps of a request is what its result says, and of the answer its usage and model. */
  ghost predicate TellsOutcome(src: ResolvedSource, org: Uuid, messages: seq<Message>, answer: Result<ChatResponse>,
                               o: Outcome, record: AuditRecord) {
    && record.orgId == org && record.sourceId == src.config.id && record.inputText == LastUserText(messages)
    && record.guardResults == o.guardResults
    && record.transforms == o.transforms && record.outputTransforms == o.outputTransforms
    && record.overallResult == (if o.status == "pass" then "pass" else "fail")
    && (o.phase == "input" ==> record.usage == None && record.model == "")
    && (o.phase != "input" ==>
          answer.Ok? && record.usage == Some(answer.value.usage) && record.model == answer.value.model)
  }

  /** An alert names the guards that failed in the rejecting phase, shadow guards left out, in their order. */
  ghost predicate TellsRejection(src: ResolvedSource, org: Uuid, o: Outcome, alert: AlertEvent) {
    && alert.orgId == org && alert.sourceRoute == src.config.route && alert.phase == o.phase
    && o.phase in o.guardResults
    && alert.failed == Chosen(o.guardResults[o.phase].results, (r: Guards.GuardResult) => !r.passed && !r.shadow)
  }

  /** Every audit record and alert among the effects tells of this outcome. */
  ghost predicate AllTell(src: ResolvedSource, org: Uuid, messages: seq<Message>, answer: Result<ChatResponse>,
                          o: Outcome, effects: seq<Effect>) {
    && (forall record :: record in Audits(effects) ==> TellsOutcome(src, org, messages, answer, o, record))
    && (forall alert :: alert in Alerts(effects) ==> TellsRejection(src, org, o, alert))
  }

  lemma SinksTell(env: Environment, src: ResolvedSource, org: Uuid, messages: seq<Message>,
                  answer: Result<ChatResponse>, o: Outcome, record: AuditRecord, alert: AlertEvent)
    requires TellsOutcome(src, org, messages, answer, o, record)
    ensures AllTell(src, org, messages, answer, o, RecordEffect(env, record))
    ensures TellsRejection(src, org, o, alert)
      ==> AllTell(src, org, messages, answer, o, RecordEffect(env, record) + AlertEffect(env, alert))
  {
    SinkEffects(env, record, alert);
  }

  lemma ConcludedTells(env: Environment, src: ResolvedSource, org: Uuid, messages: seq<Message>, answer: ChatResponse,
                       resp: ChatResponse, verdict: Guards.EngineResult, gin: map<string, Guards.EngineResult>,
                       steps: Option<Pipeline.ChainResult>, osteps: Option<Pipeline.ChainResult>)
    requires resp.usage == answer.usage && resp.model == answer.model
    ensures var (o, effects) := Concluded(env, src, org, LastUserText(messages), resp, verdict, gin, steps, osteps);
      AllTell(src, org, messages, Ok(answer), o, effects)
  {
    var o := Concluded(env, src, org, LastUserText(messages), resp, verdict, gin, steps, osteps).0;
    FailedIsChosen(verdict.results);
    SinksTell(env, src, org, messages, Ok(answer), o,
              AuditRecord(org, src.config.id, LastUserText(messages), o.guardResults, steps, osteps,
                          if o.status == "pass" then "pass" else "fail", Some(resp.usage), resp.model),
              AlertEvent(org, src.config.route, "output", Failed(verdict.results)));
  }

  lemma AnsweredTells(env: Environment, src: ResolvedSource, org: Uuid, req: ChatRequest, t: Table,
                      messages: seq<Message>, answer: ChatResponse)
    ensures var (r, effects) := Answered(env, src, org, req, t, messages, answer);
      if r.Ok? then AllTell(src, org, messages, Ok(answer), r.value, effects) else effects == []
  {
    var c := OutputChain(src, t, answer);
    if c.Ok? {
      ConcludedTells(env, src, org, messages, answer, c.value, OutputVerdict(src, c.value),
                     InputGuardResults(src, messages), InputSteps(src, req), OutputSteps(src, t, answer));
    }
  }

  lemma InputRejectionTells(env: Environment, src: ResolvedSource, org: Uuid, req: ChatRequest, messages: seq<Message>,
                            o: Outcome)
    requires o == Outcome("rejected", "input", None, InputGuardResults(src, messages), InputSteps(src, req), None)
    requires src.inputGuards != []
    ensures var effects := InputRejection(env, src, org, req, messages);
      AllTell(src, org, messages, Err("no call"), o, effects)
  {
    var failed := InputVerdict(src, messages).results;
    FailedIsChosen(failed);
    SinksTell(env, src, org, messages, Err("no call"), o,
              AuditRecord(org, src.config.id, LastUserText(messages), InputGuardResults(src, messages),
                          InputSteps(src, req), None, "fail", None, ""),
              AlertEvent(org, src.config.route, "input", Failed(failed)));
  }

  /** On every path the audit record and the alert say what the caller is told. */
  lemma RecordsTellTheOutcome(env: Environment, found: Option<ResolvedSource>, org: Uuid, req: ChatRequest)
    ensures var (r, effects) := Executed(env, found, org, req);
      (Audits(effects) != [] || Alerts(effects) != []) ==>
        && r.Ok? && Reaches(found, req)
        && var messages := Pipeline.Fold(found.value.inputTransformers, EMPTY, req.messages.GetOr([])).1.value;
           var answer := if Calls(effects) == [] then Err("no call") else env.llm(Calls(effects)[0]);
           AllTell(found.value, org, messages, answer, r.value, effects)
  {
    CallsMade(env, found, org, req);
    if Reaches(found, req) {
      var src := found.value;
      var (t, chained) := InputChain(src, req);
      var call := CallOf(src, req, chained.value);
      if !AcceptsInput(src, chained.value) {
        InputRejectionTells(env, src, org, req, chained.value, Executed(env, found, org, req).0.value);
      } else if env.llm(call).Err? {
        AfterCall(call, []);
      } else {
        AnsweredTells(env, src, org, req, t, chained.value, env.llm(call).value);
        AfterCall(call, Answered(env, src, org, req, t, chained.value, env.llm(call).value).1);
      }
    }
  }
}
