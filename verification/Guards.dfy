/** Guards, their decorators, and the engine that runs a set of them concurrently. */
module Guards {
  import opened Wrappers

  /** Which phase runs for which source; allMessagesText is set on the input phase only. */
  datatype CallMeta = CallMeta(phase: string, sourceRoute: string, allMessagesText: string)

  datatype GuardResult = GuardResult(guardName: string, guardType: string, passed: bool, message: string, shadow: bool)

  /** A guard implementation; validate is whatever it answers to a call. */
  datatype Core = Core(name: string, kind: string, validate: (CallMeta, string) -> Result<GuardResult>)

  datatype Guard =
    | Plain(core: Core)
    | ScopeAllMessages(inner: Guard)
    | FailOpen(inner: Guard)
    | Shadow(inner: Guard)
  {
    function Base(): Core {
      match this
      case Plain(core) => core
      case ScopeAllMessages(g) => g.Base()
      case FailOpen(g) => g.Base()
      case Shadow(g) => g.Base()
    }

    function Name(): string { Base().name }

    function Type(): string { Base().kind }

    /** Decorators delegate; the scope decorator first swaps in the whole conversation. */
    function Validate(meta: CallMeta, input: string): Result<GuardResult> {
      match this
      case Plain(core) => core.validate(meta, input)
      case ScopeAllMessages(g) =>
        g.Validate(meta, if meta.phase == "input" && meta.allMessagesText != "" then meta.allMessagesText else input)
      case FailOpen(g) => g.Validate(meta, input)
      case Shadow(g) => g.Validate(meta, input)
    }
  }

  datatype Marker = ScopeMarker | FailOpenMarker | ShadowMarker

  predicate Carries(g: Guard, marker: Marker) {
    match marker
    case ScopeMarker => g.ScopeAllMessages?
    case FailOpenMarker => g.FailOpen?
    case ShadowMarker => g.Shadow?
  }

  /** Some decorator of the chain carries the marker. */
  predicate Marked(g: Guard, marker: Marker) {
    Carries(g, marker) || (!g.Plain? && Marked(g.inner, marker))
  }

  /** guardAs: unwraps decorators until one carries the marker or none is left. */
  method GuardAs(guard: Guard, marker: Marker) returns (found: bool)
    ensures found == Marked(guard, marker)
  {
    var g := guard;
    while true
      invariant Marked(guard, marker) == Marked(g, marker)
      decreases g
    {
      if Carries(g, marker) {
        return true;
      }
      if g.Plain? {
        return false;
      }
      g := g.inner;
    }
  }

  // ----- one guard -----

  /** The slot a guard's goroutine writes: a pure function of the guard and the call. */
  function Outcome(g: Guard, meta: CallMeta, input: string): GuardResult {
    var r := match g.Validate(meta, input)
      case Ok(result) => result
      case Err(e) => GuardResult(g.Name(), g.Type(), Marked(g, FailOpenMarker), "guard error: " + e, false);
    if Marked(g, ShadowMarker) then r.(shadow := true) else r
  }

  lemma {:induction false} ValidateByMarkers(g: Guard, meta: CallMeta, input: string)
    ensures var whole := Marked(g, ScopeMarker) && meta.phase == "input" && meta.allMessagesText != "";
      g.Validate(meta, input) == g.Base().validate(meta, if whole then meta.allMessagesText else input)
  {
    if !g.Plain? {
      ValidateByMarkers(g.inner, meta, input);
      ValidateByMarkers(g.inner, meta, meta.allMessagesText);
    }
  }

  /** Only which decorators occur matters: not their order, nesting or repetition. */
  lemma {:induction false} NestingOrderIrrelevant(g: Guard, h: Guard, meta: CallMeta, input: string)
    requires g.Base() == h.Base() && forall marker :: Marked(g, marker) == Marked(h, marker)
    ensures Outcome(g, meta, input) == Outcome(h, meta, input)
  {
    ValidateByMarkers(g, meta, input);
    ValidateByMarkers(h, meta, input);
    assert Marked(g, ScopeMarker) == Marked(h, ScopeMarker);
    assert Marked(g, FailOpenMarker) == Marked(h, FailOpenMarker);
    assert Marked(g, ShadowMarker) == Marked(h, ShadowMarker);
  }

  // ----- the concurrent run -----

  /** Program counter of a guard's goroutine and the slots it shares with the engine. */
  datatype Phase = Waiting | Validated(answer: Result<GuardResult>) | ErrorNoted(result: GuardResult) | Done

  datatype RunState = RunState(phases: seq<Phase>, errs: seq<bool>, results: seq<Option<GuardResult>>)

  function StartState(n: nat): RunState {
    RunState(seq(n, _ => Waiting), seq(n, _ => false), seq(n, _ => None))
  }

  /** The i-th goroutine takes its next step: call the guard, note an error, write its slot. */
  function GoStep(guards: seq<Guard>, meta: CallMeta, input: string, s: RunState, i: nat): RunState
    requires |s.phases| == |s.errs| == |s.results| == |guards| && i < |guards|
  {
    var g := guards[i];
    match s.phases[i]
    case Waiting => s.(phases := s.phases[i := Validated(g.Validate(meta, input))])
    case Validated(Ok(result)) => s.(phases := s.phases[i := ErrorNoted(result)])
    case Validated(Err(e)) =>
      s.(phases := s.phases[i := ErrorNoted(GuardResult(g.Name(), g.Type(), Marked(g, FailOpenMarker),
                                                        "guard error: " + e, false))],
         errs := s.errs[i := true])
    case ErrorNoted(result) =>
      s.(phases := s.phases[i := Done],
         results := s.results[i := Some(if Marked(g, ShadowMarker) then result.(shadow := true) else result)])
    case Done => s
  }

  function RunSchedule(guards: seq<Guard>, meta: CallMeta, input: string, s: RunState,
                       schedule: seq<nat>): (s': RunState)
    requires |s.phases| == |s.errs| == |s.results| == |guards|
    requires forall k :: 0 <= k < |schedule| ==> schedule[k] < |guards|
    ensures |s'.phases| == |s'.errs| == |s'.results| == |guards|
    decreases |schedule|
  {
    if schedule == [] then s
    else RunSchedule(guards, meta, input, GoStep(guards, meta, input, s, schedule[0]), schedule[1..])
  }

  ghost predicate SlotsOk(guards: seq<Guard>, meta: CallMeta, input: string, s: RunState) {
    && |s.phases| == |s.errs| == |s.results| == |guards|
    && forall i :: 0 <= i < |guards| ==> SlotOk(guards[i], meta, input, s.phases[i], s.errs[i], s.results[i])
  }

  ghost predicate SlotOk(g: Guard, meta: CallMeta, input: string, phase: Phase, err: bool, slot: Option<GuardResult>) {
    match phase
    case Waiting => !err && slot.None?
    case Validated(r) => !err && slot.None? && r == g.Validate(meta, input)
    case ErrorNoted(r) => err == g.Validate(meta, input).Err? && slot.None?
      && Outcome(g, meta, input) == (if Marked(g, ShadowMarker) then r.(shadow := true) else r)
    case Done => err == g.Validate(meta, input).Err? && slot == Some(Outcome(g, meta, input))
  }

  lemma GoStepKeepsSlots(guards: seq<Guard>, meta: CallMeta, input: string, s: RunState, i: nat)
    requires SlotsOk(guards, meta, input, s) && i < |guards|
    ensures SlotsOk(guards, meta, input, GoStep(guards, meta, input, s, i))
  {
    var s' := GoStep(guards, meta, input, s, i);
    assert SlotOk(guards[i], meta, input, s.phases[i], s.errs[i], s.results[i]);
    assert SlotOk(guards[i], meta, input, s'.phases[i], s'.errs[i], s'.results[i]);
    forall j | 0 <= j < |guards| && j != i
      ensures SlotOk(guards[j], meta, input, s'.phases[j], s'.errs[j], s'.results[j])
    {
      assert SlotOk(guards[j], meta, input, s.phases[j], s.errs[j], s.results[j]);
    }
  }

  lemma {:induction false} ScheduleKeepsSlots(guards: seq<Guard>, meta: CallMeta, input: string, s: RunState,
                                              schedule: seq<nat>)
    requires SlotsOk(guards, meta, input, s)
    requires forall k :: 0 <= k < |schedule| ==> schedule[k] < |guards|
    ensures SlotsOk(guards, meta, input, RunSchedule(guards, meta, input, s, schedule))
    decreases |schedule|
  {
    if schedule != [] {
      GoStepKeepsSlots(guards, meta, input, s, schedule[0]);
      ScheduleKeepsSlots(guards, meta, input, GoStep(guards, meta, input, s, schedule[0]), schedule[1..]);
    }
  }

  function Sequential(guards: seq<Guard>, meta: CallMeta, input: string): seq<GuardResult> {
    seq(|guards|, i requires 0 <= i < |guards| => Outcome(guards[i], meta, input))
  }

  /** However the goroutines interleave, once all are done the slots hold the sequential results. */
  lemma EveryInterleavingIsSequential(guards: seq<Guard>, meta: CallMeta, input: string, schedule: seq<nat>)
    requires forall k :: 0 <= k < |schedule| ==> schedule[k] < |guards|
    requires forall i :: 0 <= i < |guards|
               ==> RunSchedule(guards, meta, input, StartState(|guards|), schedule).phases[i].Done?
    ensures var s := RunSchedule(guards, meta, input, StartState(|guards|), schedule);
      && |s.results| == |s.errs| == |guards|
      && (forall i :: 0 <= i < |guards| ==> s.results[i] == Some(Sequential(guards, meta, input)[i]))
      && (forall i :: 0 <= i < |guards| ==> s.errs[i] == guards[i].Validate(meta, input).Err?)
  {
    var s := RunSchedule(guards, meta, input, StartState(|guards|), schedule);
    ScheduleKeepsSlots(guards, meta, input, StartState(|guards|), schedule);
    forall i | 0 <= i < |guards|
      ensures s.results[i] == Some(Outcome(guards[i], meta, input)) && s.errs[i] == guards[i].Validate(meta, input).Err?
    {
      assert SlotOk(guards[i], meta, input, s.phases[i], s.errs[i], s.results[i]);
    }
  }

  // ----- the verdict -----

  datatype EvalConfig = EvalConfig(criteria: string, threshold: int)

  datatype EngineResult = EngineResult(
    passed: bool,
    criteria: string,
    threshold: Option<int>,
    results: seq<GuardResult>,
    passCount: nat,
    failCount: nat)

  function Evaluate(cfg: EvalConfig, passCount: int, total: int): bool {
    if cfg.criteria == "any" then passCount > 0
    else if cfg.criteria == "n_of_m" then passCount >= cfg.threshold
    else passCount == total
  }

  predicate EnforcingPass(r: GuardResult) { !r.shadow && r.passed }

  predicate EnforcingFail(r: GuardResult) { !r.shadow && !r.passed }

  predicate IsShadow(r: GuardResult) { r.shadow }

  function Count<T>(s: seq<T>, p: T -> bool): nat {
    if s == [] then 0 else (if p(s[0]) then 1 else 0) + Count(s[1..], p)
  }

  lemma {:induction false} CountConcat<T>(s: seq<T>, t: seq<T>, p: T -> bool)
    ensures Count(s + t, p) == Count(s, p) + Count(t, p)
    decreases |s|
  {
    if s == [] {
      assert s + t == t;
    } else {
      CountConcat(s[1..], t, p);
      assert (s + t)[1..] == s[1..] + t;
    }
  }

  lemma CountAppend<T>(s: seq<T>, x: T, p: T -> bool)
    ensures Count(s + [x], p) == Count(s, p) + (if p(x) then 1 else 0)
  {
    CountConcat(s, [x], p);
    assert [x][1..] == [];
  }

  /** The decision over the recorded results: shadow results are left out. */
  ghost function Decide(cfg: EvalConfig, results: seq<GuardResult>): bool {
    var pass, fail := Count(results, EnforcingPass), Count(results, EnforcingFail);
    pass + fail == 0 || Evaluate(cfg, pass, pass + fail)
  }

  ghost predicate Complete(guards: seq<Guard>, meta: CallMeta, input: string, schedule: seq<nat>) {
    && (forall k :: 0 <= k < |schedule| ==> schedule[k] < |guards|)
    && (forall i :: 0 <= i < |guards|
          ==> RunSchedule(guards, meta, input, StartState(|guards|), schedule).phases[i].Done?)
  }

  // ----- which schedules let everybody finish -----

  function Progress(phase: Phase): nat {
    match phase
    case Waiting => 0
    case Validated(_) => 1
    case ErrorNoted(_) => 2
    case Done => 3
  }

  function Times(schedule: seq<nat>, i: nat): nat {
    if schedule == [] then 0 else (if schedule[0] == i then 1 else 0) + Times(schedule[1..], i)
  }

  function AtMostThree(n: nat): nat {
    if n < 3 then n else 3
  }

  lemma {:induction false} ProgressAfter(guards: seq<Guard>, meta: CallMeta, input: string, s: RunState,
                                         schedule: seq<nat>, i: nat)
    requires |s.phases| == |s.errs| == |s.results| == |guards| && i < |guards|
    requires forall k :: 0 <= k < |schedule| ==> schedule[k] < |guards|
    ensures Progress(RunSchedule(guards, meta, input, s, schedule).phases[i])
      == AtMostThree(Progress(s.phases[i]) + Times(schedule, i))
    decreases |schedule|
  {
    if schedule != [] {
      ProgressAfter(guards, meta, input, GoStep(guards, meta, input, s, schedule[0]), schedule[1..], i);
    }
  }

  ghost predicate NamesAll(n: nat, schedule: seq<nat>) {
    && (forall k :: 0 <= k < |schedule| ==> schedule[k] < n)
    && (forall i :: 0 <= i < n ==> Times(schedule, i) >= 3)
  }

  /** A run is complete exactly when the schedule names every goroutine three times or more, and nobody else. */
  lemma CompleteIff(guards: seq<Guard>, meta: CallMeta, input: string, schedule: seq<nat>)
    ensures Complete(guards, meta, input, schedule) <==> NamesAll(|guards|, schedule)
  {
    if forall k :: 0 <= k < |schedule| ==> schedule[k] < |guards| {
      var s := RunSchedule(guards, meta, input, StartState(|guards|), schedule);
      forall i | 0 <= i < |guards|
        ensures s.phases[i].Done? <==> Times(schedule, i) >= 3
      {
        ProgressAfter(guards, meta, input, StartState(|guards|), schedule, i);
      }
      assert Complete(guards, meta, input, schedule) <==> forall i :: 0 <= i < |guards| ==> s.phases[i].Done?;
    }
  }

  /** One goroutine after the other. */
  function InTurn(n: nat): seq<nat> {
    if n == 0 then [] else InTurn(n - 1) + [n - 1, n - 1, n - 1]
  }

  lemma {:induction false} TimesConcat(a: seq<nat>, b: seq<nat>, i: nat)
    ensures Times(a + b, i) == Times(a, i) + Times(b, i)
  {
    if a == [] {
      assert a + b == b;
    } else {
      assert (a + b)[1..] == a[1..] + b;
      TimesConcat(a[1..], b, i);
    }
  }

  lemma TimesOfThree(x: nat, i: nat)
    ensures Times([x, x, x], i) == if x == i then 3 else 0
  {
    assert [x][1..] == [] && [x, x][1..] == [x] && [x, x, x][1..] == [x, x];
    assert Times([x], i) == if x == i then 1 else 0;
    assert Times([x, x], i) == if x == i then 2 else 0;
  }

  lemma {:induction false} InTurnNamesAll(n: nat, i: nat)
    ensures forall k :: 0 <= k < |InTurn(n)| ==> InTurn(n)[k] < n
    ensures i < n ==> Times(InTurn(n), i) == 3
    ensures i >= n ==> Times(InTurn(n), i) == 0
  {
    if n > 0 {
      var last := [n - 1, n - 1, n - 1];
      InTurnNamesAll(n - 1, i);
      TimesConcat(InTurn(n - 1), last, i);
      TimesOfThree(n - 1, i);
    }
  }

  /** So there are complete schedules for any guards. */
  lemma {:induction false} InTurnIsComplete(guards: seq<Guard>, meta: CallMeta, input: string)
    ensures Complete(guards, meta, input, InTurn(|guards|))
  {
    forall i | 0 <= i < |guards|
      ensures Times(InTurn(|guards|), i) >= 3
    {
      InTurnNamesAll(|guards|, i);
    }
    InTurnNamesAll(|guards|, 0);
    CompleteIff(guards, meta, input, InTurn(|guards|));
  }

  // ----- the engine -----

  /** The engine's result as a function of the guards alone. */
  ghost function Verdict(guards: seq<Guard>, meta: CallMeta, input: string, cfg: EvalConfig): EngineResult {
    var results := Sequential(guards, meta, input);
    EngineResult(Decide(cfg, results), cfg.criteria,
                 if guards != [] && cfg.criteria == "n_of_m" then Some(cfg.threshold) else None,
                 results, Count(results, EnforcingPass), Count(results, EnforcingFail))
  }

  /** Runs all guards under some schedule that lets every goroutine finish. */
  method Run(guards: seq<Guard>, meta: CallMeta, input: string, cfg: EvalConfig, schedule: seq<nat>)
    returns (r: EngineResult)
    requires Complete(guards, meta, input, schedule)
    ensures r == Verdict(guards, meta, input, cfg)
  {
    if |guards| == 0 {
      return EngineResult(true, cfg.criteria, None, [], 0, 0);
    }
    var s := RunSchedule(guards, meta, input, StartState(|guards|), schedule);
    EveryInterleavingIsSequential(guards, meta, input, schedule);
    var results := seq(|guards|, i requires 0 <= i < |guards| => s.results[i].value);
    assert results == Sequential(guards, meta, input);
    var passCount, failCount, enforcing := 0, 0, 0;
    for i := 0 to |results|
      invariant passCount == Count(results[..i], EnforcingPass)
      invariant failCount == Count(results[..i], EnforcingFail)
      invariant enforcing == passCount + failCount
    {
      assert results[..i + 1] == results[..i] + [results[i]];
      CountAppend(results[..i], results[i], EnforcingPass);
      CountAppend(results[..i], results[i], EnforcingFail);
      if results[i].shadow {
        continue;
      }
      enforcing := enforcing + 1;
      if results[i].passed {
        passCount := passCount + 1;
      } else {
        failCount := failCount + 1;
      }
    }
    assert results[..|results|] == results;
    var passed := enforcing == 0 || Evaluate(cfg, passCount, enforcing);
    var threshold := if cfg.criteria == "n_of_m" then Some(cfg.threshold) else None;
    r := EngineResult(passed, cfg.criteria, threshold, results, passCount, failCount);
  }

  // ----- what the result says -----

  /** The places of the results that are not shadow results and have this verdict. */
  ghost function Enforcing(results: seq<GuardResult>, passed: bool): set<int> {
    set i | 0 <= i < |results| && !results[i].shadow && results[i].passed == passed
  }

  lemma OneResultMore(results: seq<GuardResult>, r: GuardResult, passed: bool)
    ensures |Enforcing(results + [r], passed)|
      == |Enforcing(results, passed)| + (if !r.shadow && r.passed == passed then 1 else 0)
  {
    var n := |results|;
    var before := Enforcing(results, passed);
    assert n !in before;
    assert Enforcing(results + [r], passed) == if !r.shadow && r.passed == passed then before + {n} else before;
  }

  lemma {:induction false} CountIsPlaces(results: seq<GuardResult>)
    ensures Count(results, EnforcingPass) == |Enforcing(results, true)|
    ensures Count(results, EnforcingFail) == |Enforcing(results, false)|
  {
    if results != [] {
      var front, last := results[..|results| - 1], results[|results| - 1];
      assert results == front + [last];
      CountIsPlaces(front);
      CountAppend(front, last, EnforcingPass);
      CountAppend(front, last, EnforcingFail);
      OneResultMore(front, last, true);
      OneResultMore(front, last, false);
    }
  }

  /** The three criteria in terms of the single results: which of the enforcing guards have to pass. */
  lemma VerdictByCriteria(guards: seq<Guard>, meta: CallMeta, input: string, cfg: EvalConfig)
    ensures var r := Verdict(guards, meta, input, cfg);
      var pass, fail := Enforcing(r.results, true), Enforcing(r.results, false);
      && (cfg.criteria == "any" ==> (r.passed <==> pass != {} || fail == {}))
      && (cfg.criteria == "n_of_m" ==> (r.passed <==> |pass| >= cfg.threshold || pass + fail == {}))
      && (cfg.criteria != "any" && cfg.criteria != "n_of_m" ==> (r.passed <==> fail == {}))
      && r.passCount == |pass| && r.failCount == |fail| && r.criteria == cfg.criteria
      && r.threshold == (if cfg.criteria == "n_of_m" && guards != [] then Some(cfg.threshold) else None)
  {
    CountIsPlaces(Verdict(guards, meta, input, cfg).results);
  }

  /**
    The i-th result is the i-th guard's: what its implementation answers to the text its scope asks
    for, a pass or a failure of the guard's name if it errors, marked if the guard is in shadow mode.
   */
  lemma ResultsAreGuards(guards: seq<Guard>, meta: CallMeta, input: string, cfg: EvalConfig, i: nat)
    requires i < |guards|
    ensures var g, results := guards[i], Verdict(guards, meta, input, cfg).results;
      var whole := Marked(g, ScopeMarker) && meta.phase == "input" && meta.allMessagesText != "";
      var answer := g.Base().validate(meta, if whole then meta.allMessagesText else input);
      && |results| == |guards|
      && (answer.Ok? ==> results[i] == answer.value.(shadow := answer.value.shadow || Marked(g, ShadowMarker)))
      && (answer.Err? ==>
            && results[i].guardName == g.Base().name && results[i].guardType == g.Base().kind
            && results[i].passed == Marked(g, FailOpenMarker) && results[i].shadow == Marked(g, ShadowMarker)
            && results[i].message == "guard error: " + answer.error)
  {
    ValidateByMarkers(guards[i], meta, input);
  }

  /** Every guard is counted once: as a pass, a failure or a shadow. */
  lemma {:induction false} CountsAddUp(results: seq<GuardResult>)
    ensures Count(results, EnforcingPass) + Count(results, EnforcingFail) + Count(results, IsShadow) == |results|
  {
    if results != [] {
      CountsAddUp(results[1..]);
    }
  }

  /** Results that differ only in what shadow guards said. */
  ghost predicate SameUpToShadow(a: seq<GuardResult>, b: seq<GuardResult>) {
    |a| == |b| && forall i :: 0 <= i < |a| ==> a[i].shadow == b[i].shadow && (a[i].shadow || a[i].passed == b[i].passed)
  }

  lemma {:induction false} CountsUpToShadow(a: seq<GuardResult>, b: seq<GuardResult>)
    requires SameUpToShadow(a, b)
    ensures Count(a, EnforcingPass) == Count(b, EnforcingPass) && Count(a, EnforcingFail) == Count(b, EnforcingFail)
  {
    if a != [] {
      assert SameUpToShadow(a[1..], b[1..]);
      CountsUpToShadow(a[1..], b[1..]);
    }
  }

  /** No verdict of a shadow guard changes the decision, under any criteria. */
  lemma ShadowVerdictsDoNotCount(cfg: EvalConfig, a: seq<GuardResult>, b: seq<GuardResult>)
    requires SameUpToShadow(a, b)
    ensures Decide(cfg, a) == Decide(cfg, b)
  {
    CountsUpToShadow(a, b);
  }

  /** Enforcing verdicts only improve from a to b. */
  ghost predicate Improves(a: seq<GuardResult>, b: seq<GuardResult>) {
    |a| == |b| && forall i :: 0 <= i < |a|
                    ==> a[i].shadow == b[i].shadow && (!a[i].shadow && a[i].passed ==> b[i].passed)
  }

  lemma {:induction false} CountsImprove(a: seq<GuardResult>, b: seq<GuardResult>)
    requires Improves(a, b)
    ensures Count(a, EnforcingPass) <= Count(b, EnforcingPass)
    ensures Count(a, EnforcingPass) + Count(a, EnforcingFail) == Count(b, EnforcingPass) + Count(b, EnforcingFail)
  {
    if a != [] {
      assert Improves(a[1..], b[1..]);
      CountsImprove(a[1..], b[1..]);
    }
  }

  /** A request that passed still passes when some enforcing guard changes its mind to pass. */
  lemma DecisionIsMonotone(cfg: EvalConfig, a: seq<GuardResult>, b: seq<GuardResult>)
    requires Improves(a, b) && Decide(cfg, a)
    ensures Decide(cfg, b)
  {
    CountsImprove(a, b);
    CountsAddUp(b);
  }

  function Without<T>(s: seq<T>, i: nat): seq<T>
    requires i < |s|
  {
    s[..i] + s[i + 1..]
  }

  /** Equal multisets: the first element of one has a place in the other, and the rests agree too. */
  lemma PlaceOfFirst<T>(s: seq<T>, t: seq<T>) returns (i: nat)
    requires s != [] && multiset(s) == multiset(t)
    ensures i < |t| && t[i] == s[0] && |t| == |s|
    ensures multiset(s[1..]) == multiset(Without(t, i))
  {
    assert |multiset(s)| == |s| && |multiset(t)| == |t|;
    assert s[0] in multiset(t);
    i :| 0 <= i < |t| && t[i] == s[0];
    assert s == [s[0]] + s[1..];
    assert t == t[..i] + [t[i]] + t[i + 1..];
    assert multiset(s) == multiset{s[0]} + multiset(s[1..]);
    assert multiset(t) == multiset(t[..i]) + multiset{t[i]} + multiset(t[i + 1..]);
    assert multiset(s[1..]) == multiset(s) - multiset{s[0]};
    assert multiset(Without(t, i)) == multiset(t) - multiset{t[i]};
  }

  lemma EmptyLikewise<T>(s: seq<T>, t: seq<T>)
    requires multiset(s) == multiset(t)
    ensures |s| == |t|
  {
    assert |multiset(s)| == |s| && |multiset(t)| == |t|;
  }

  lemma AroundMiddle<T>(t: seq<T>, i: nat)
    requires i < |t|
    ensures t == t[..i] + [t[i]] + t[i + 1..]
  {
  }

  lemma CountMiddle<T>(a: seq<T>, x: T, b: seq<T>, p: T -> bool)
    ensures Count(a + [x] + b, p) == Count(a + b, p) + (if p(x) then 1 else 0)
  {
    CountConcat(a + [x], b, p);
    CountAppend(a, x, p);
    CountConcat(a, b, p);
  }

  lemma {:induction false} CountWithout<T>(t: seq<T>, i: nat, p: T -> bool)
    requires i < |t|
    ensures Count(t, p) == Count(Without(t, i), p) + (if p(t[i]) then 1 else 0)
  {
    AroundMiddle(t, i);
    CountMiddle(t[..i], t[i], t[i + 1..], p);
  }

  lemma {:induction false} CountPermuted<T>(s: seq<T>, t: seq<T>, p: T -> bool)
    requires multiset(s) == multiset(t)
    ensures Count(s, p) == Count(t, p)
    decreases |s|
  {
    EmptyLikewise(s, t);
    if s != [] {
      var i := PlaceOfFirst(s, t);
      CountPermuted(s[1..], Without(t, i), p);
      CountWithout(t, i, p);
    }
  }

  lemma SequentialWithout(guards: seq<Guard>, i: nat, meta: CallMeta, input: string)
    requires i < |guards|
    ensures Sequential(Without(guards, i), meta, input) == Without(Sequential(guards, meta, input), i)
  {
  }

  lemma CountsPermuted(guards: seq<Guard>, guards': seq<Guard>, meta: CallMeta, input: string, p: GuardResult -> bool)
    requires multiset(guards) == multiset(guards')
    ensures Count(Sequential(guards, meta, input), p) == Count(Sequential(guards', meta, input), p)
    decreases |guards|
  {
    EmptyLikewise(guards, guards');
    if guards != [] {
      var i := PlaceOfFirst(guards, guards');
      CountsPermuted(guards[1..], Without(guards', i), meta, input, p);
      SequentialWithout(guards', i, meta, input);
      CountWithout(Sequential(guards', meta, input), i, p);
      assert Sequential(guards, meta, input)[1..] == Sequential(guards[1..], meta, input);
    }
  }

  /** The order in which guards are attached does not change the decision. */
  lemma GuardOrderIrrelevant(cfg: EvalConfig, guards: seq<Guard>, guards': seq<Guard>, meta: CallMeta, input: string)
    requires multiset(guards) == multiset(guards')
    ensures Decide(cfg, Sequential(guards, meta, input)) == Decide(cfg, Sequential(guards', meta, input))
  {
    CountsPermuted(guards, guards', meta, input, EnforcingPass);
    CountsPermuted(guards, guards', meta, input, EnforcingFail);
  }

  /** Neither does the nesting order of decorators, guard by guard. */
  lemma DecoratorOrderIrrelevant(cfg: EvalConfig, guards: seq<Guard>, guards': seq<Guard>, meta: CallMeta,
                                 input: string)
    requires |guards| == |guards'|
    requires forall i :: 0 <= i < |guards| ==> guards[i].Base() == guards'[i].Base()
    requires forall i, marker :: 0 <= i < |guards| ==> Marked(guards[i], marker) == Marked(guards'[i], marker)
    ensures Sequential(guards, meta, input) == Sequential(guards', meta, input)
  {
    forall i | 0 <= i < |guards|
      ensures Outcome(guards[i], meta, input) == Outcome(guards'[i], meta, input)
    {
      NestingOrderIrrelevant(guards[i], guards'[i], meta, input);
    }
  }
}
