/** Transformer chains: sequential rewriting with fail-closed and fail-open steps. */
module Pipeline {
  import opened Llm
  import opened TransformState
  import opened Wrappers

  /** A transformer implementation: it may change the request's table even when it fails. */
  datatype Core = Core(name: string, kind: string, run: (Table, seq<Message>) -> (Table, Result<seq<Message>>))

  datatype Transformer = Plain(core: Core) | FailOpen(inner: Transformer)
  {
    function Base(): Core {
      match this
      case Plain(core) => core
      case FailOpen(t) => t.Base()
    }
  }

  datatype StepResult = StepResult(name: string, kind: string, changed: bool, errored: bool, skipped: bool)

  datatype ChainResult = ChainResult(steps: seq<StepResult>, changed: bool)

  ghost predicate SameText(a: seq<Message>, b: seq<Message>) {
    |a| == |b| && forall i :: 0 <= i < |a| ==> a[i].role == b[i].role && a[i].content == b[i].content
  }

  method MessagesEqual(a: seq<Message>, b: seq<Message>) returns (same: bool)
    ensures same == SameText(a, b)
    ensures same <==> |a| == |b| && forall i :: 0 <= i < |a| ==> a[i].role == b[i].role && a[i].content == b[i].content
  {
    if |a| != |b| {
      return false;
    }
    for i := 0 to |a|
      invariant forall j :: 0 <= j < i ==> a[j].role == b[j].role && a[j].content == b[j].content
    {
      if a[i].role != b[i].role || a[i].content != b[i].content {
        return false;
      }
    }
    return true;
  }

  /**
    The chain as a fold: a step that succeeds hands its messages on, a fail-open step that errors
    is passed over, any other error ends the chain.
   */
  ghost function Fold(ts: seq<Transformer>, t: Table, msgs: seq<Message>): (Table, Result<seq<Message>>)
    decreases |ts|
  {
    if ts == [] then (t, Ok(msgs))
    else
      var (t', r) := ts[0].Base().run(t, msgs);
      match r
      case Ok(next) => Fold(ts[1..], t', next)
      case Err(e) => if ts[0].FailOpen? then Fold(ts[1..], t', msgs) else (t', Err(e))
  }

  function OkStep(t: Transformer, changed: bool): StepResult {
    StepResult(t.Base().name, t.Base().kind, changed, false, false)
  }

  function ErrorStep(t: Transformer): StepResult {
    StepResult(t.Base().name, t.Base().kind, false, true, t.FailOpen?)
  }

  /** What the audit log says about each step that ran. */
  ghost function Steps(ts: seq<Transformer>, t: Table, msgs: seq<Message>): seq<StepResult>
    decreases |ts|
  {
    if ts == [] then []
    else
      var (t', r) := ts[0].Base().run(t, msgs);
      match r
      case Ok(next) => [OkStep(ts[0], !SameText(msgs, next))] + Steps(ts[1..], t', next)
      case Err(_) => [ErrorStep(ts[0])] + (if ts[0].FailOpen? then Steps(ts[1..], t', msgs) else [])
  }

  ghost function Chain(ts: seq<Transformer>, t: Table, msgs: seq<Message>): ChainResult {
    ChainResult(Steps(ts, t, msgs), AnyChanged(Steps(ts, t, msgs)))
  }

  /** The chain from its i-th transformer on: what remains to be done and to be told. */
  lemma FromHere(ts: seq<Transformer>, i: nat, t: Table, msgs: seq<Message>)
    requires i < |ts|
    ensures var (t', r) := ts[i].Base().run(t, msgs);
      match r
      case Ok(next) =>
        && Fold(ts[i..], t, msgs) == Fold(ts[i + 1..], t', next)
        && Steps(ts[i..], t, msgs) == [OkStep(ts[i], !SameText(msgs, next))] + Steps(ts[i + 1..], t', next)
      case Err(e) =>
        if ts[i].FailOpen? then
          && Fold(ts[i..], t, msgs) == Fold(ts[i + 1..], t', msgs)
          && Steps(ts[i..], t, msgs) == [ErrorStep(ts[i])] + Steps(ts[i + 1..], t', msgs)
        else
          Fold(ts[i..], t, msgs) == (t', Err(e)) && Steps(ts[i..], t, msgs) == [ErrorStep(ts[i])]
  {
    assert ts[i..][1..] == ts[i + 1..];
  }

  lemma Regroup(steps: seq<StepResult>, step: StepResult, later: seq<StepResult>)
    ensures steps + ([step] + later) == (steps + [step]) + later
  {
  }

  ghost predicate AnyChanged(steps: seq<StepResult>) {
    exists s :: s in steps && s.changed
  }

  /** Runs the chain in order on one request's table. */
  method ApplyAll(ts: seq<Transformer>, t0: Table, msgs: seq<Message>)
    returns (t: Table, r: Result<seq<Message>>, chain: ChainResult)
    ensures t == Fold(ts, t0, msgs).0
    ensures match Fold(ts, t0, msgs).1 case Ok(out) => r == Ok(out) case Err(_) => r.Err?
    ensures chain == Chain(ts, t0, msgs)
  {
    t := t0;
    var current := msgs;
    var steps: seq<StepResult> := [];
    var changed := false;
    for i := 0 to |ts|
      invariant Fold(ts[i..], t, current) == Fold(ts, t0, msgs)
      invariant steps + Steps(ts[i..], t, current) == Steps(ts, t0, msgs)
      invariant changed <==> AnyChanged(steps)
    {
      var transformer := ts[i];
      FromHere(ts, i, t, current);
      var (t', next) := transformer.Base().run(t, current);
      var step: StepResult;
      if next.Err? {
        step := ErrorStep(transformer);
        if !transformer.FailOpen? {
          return t', Err("transformer failed: " + next.error), ChainResult(steps + [step], changed);
        }
      } else {
        var same := MessagesEqual(current, next.value);
        step := OkStep(transformer, !same);
        changed := changed || !same;
        current := next.value;
      }
      t := t';
      Regroup(steps, step, Steps(ts[i + 1..], t, current));
      steps := steps + [step];
    }
    assert steps + [] == steps;
    r, chain := Ok(current), ChainResult(steps, changed);
  }

  /** A chain that reports no change handed on messages with the texts and roles it was given. */
  lemma {:induction false} UnchangedMeansSameText(ts: seq<Transformer>, t: Table, msgs: seq<Message>)
    requires Fold(ts, t, msgs).1.Ok? && !Chain(ts, t, msgs).changed
    ensures var out := Fold(ts, t, msgs).1.value;
      && |out| == |msgs|
      && forall i :: 0 <= i < |msgs| ==> out[i].role == msgs[i].role && out[i].content == msgs[i].content
    decreases |ts|
  {
    if ts != [] {
      var (t', r) := ts[0].Base().run(t, msgs);
      var steps := Steps(ts, t, msgs);
      var next := if r.Ok? then r.value else msgs;
      assert steps[0] in steps && steps == [steps[0]] + Steps(ts[1..], t', next);
      assert forall s :: s in Steps(ts[1..], t', next) ==> s in steps;
      UnchangedMeansSameText(ts[1..], t', next);
    }
  }

  /**
    The i-th step is told of the i-th transformer: that it ran on what the steps before it left, what
    it changed, whether it failed and whether that was passed over. The chain up to it then goes on
    with its messages, or with those it was given, and with its table in any case.
   */
  lemma {:induction false} StepAt(ts: seq<Transformer>, t: Table, msgs: seq<Message>, i: nat)
    requires i < |Chain(ts, t, msgs).steps|
    ensures i < |ts| && Fold(ts[..i], t, msgs).1.Ok?
    ensures Chain(ts, t, msgs).changed
      <==> exists k :: 0 <= k < |Chain(ts, t, msgs).steps| && Chain(ts, t, msgs).steps[k].changed
    ensures var (t0, before) := Fold(ts[..i], t, msgs);
      var (t1, r) := ts[i].Base().run(t0, before.value);
      var skipped := r.Err? && ts[i].FailOpen?;
      && Chain(ts, t, msgs).steps[i]
        == StepResult(ts[i].Base().name, ts[i].Base().kind, r.Ok? && !SameText(before.value, r.value), r.Err?, skipped)
      && Fold(ts[..i + 1], t, msgs) == (t1, if skipped then before else r)
    decreases i
  {
    var (t', r) := ts[0].Base().run(t, msgs);
    var next := if r.Ok? then r.value else msgs;
    if i == 0 {
      assert ts[..1][0] == ts[0] && ts[..1][1..] == [];
      assert Fold([], t', next) == (t', Ok(next));
    } else {
      StepAt(ts[1..], t', next, i - 1);
      assert ts[..i][1..] == ts[1..][..i - 1] && ts[..i + 1][1..] == ts[1..][..i];
    }
  }

  predicate Aborts(step: StepResult) {
    step.errored && !step.skipped
  }

  /** The last step, and no other, is an error that was not skipped - or there is none. */
  ghost predicate TellsFailure(steps: seq<StepResult>, failed: bool) {
    && (failed <==> steps != [] && Aborts(steps[|steps| - 1]))
    && forall i :: 0 <= i < |steps| - 1 ==> !Aborts(steps[i])
  }

  lemma StepInFront(step: StepResult, steps: seq<StepResult>, failed: bool)
    requires !Aborts(step) && TellsFailure(steps, failed)
    ensures TellsFailure([step] + steps, failed)
  {
  }

  /**
    The chain fails exactly when its last recorded step is an error that is not skipped; every
    other error is skipped, and all transformers ran unless the chain failed.
   */
  lemma {:induction false} StepsTellFailure(ts: seq<Transformer>, t: Table, msgs: seq<Message>)
    ensures TellsFailure(Steps(ts, t, msgs), Fold(ts, t, msgs).1.Err?)
    ensures |Steps(ts, t, msgs)| <= |ts| && (Fold(ts, t, msgs).1.Ok? ==> |Steps(ts, t, msgs)| == |ts|)
    decreases |ts|
  {
    if ts != [] {
      FromHere(ts, 0, t, msgs);
      assert ts[0..] == ts;
      var (t', r) := ts[0].Base().run(t, msgs);
      var next := if r.Ok? then r.value else msgs;
      if r.Ok? || ts[0].FailOpen? {
        StepsTellFailure(ts[1..], t', next);
        StepInFront(Steps(ts, t, msgs)[0], Steps(ts[1..], t', next), Fold(ts[1..], t', next).1.Err?);
      }
    }
  }
}
