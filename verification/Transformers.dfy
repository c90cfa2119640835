/** The two transformers of the codec, over the shared per-request State object. */
module Transformers {
  import opened Llm
  import opened Placeholders
  import opened Presidio
  import opened Replacer
  import opened RoundTrip
  import opened TransformState
  import opened Wrappers

  /** The answers of the analyzer and anonymizer services to the calls for the i-th message. */
  type Analyzer = (nat, string) -> Result<seq<Span>>
  type Anonymizer = (nat, string, seq<Span>) -> Result<string>

  /** sort.Slice by descending start: some sorting function, ties in an order of its own. */
  type Sorter = seq<Span> -> seq<Span>

  ghost predicate Sorts(sort: Sorter) {
    forall results :: Sorted(sort(results), results)
  }

  /** There is one: insertion sort. */
  function SortByStart(results: seq<Span>): (spans: seq<Span>)
    ensures Sorted(spans, results)
  {
    if results == [] then []
    else
      assert results == [results[0]] + results[1..];
      InsertSorts(results[0], SortByStart(results[1..]));
      Insert(results[0], SortByStart(results[1..]))
  }

  function Insert(r: Span, spans: seq<Span>): seq<Span> {
    if spans == [] || r.start >= spans[0].start then [r] + spans
    else [spans[0]] + Insert(r, spans[1..])
  }

  lemma {:induction false} InsertAdds(r: Span, spans: seq<Span>)
    ensures multiset(Insert(r, spans)) == multiset(spans) + multiset{r}
    decreases |spans|
  {
    if spans != [] && r.start < spans[0].start {
      InsertAdds(r, spans[1..]);
      assert spans == [spans[0]] + spans[1..];
    }
  }

  lemma {:induction false} InsertDescends(r: Span, spans: seq<Span>)
    requires Descending(spans)
    ensures Descending(Insert(r, spans)) && Insert(r, spans) != []
    ensures Insert(r, spans)[0] == if spans == [] || r.start >= spans[0].start then r else spans[0]
    decreases |spans|
  {
    if spans != [] && r.start >= spans[0].start {
      PrependDescending(r, spans);
    } else if spans != [] {
      RestIsDescending(spans);
      InsertDescends(r, spans[1..]);
      PrependDescending(spans[0], Insert(r, spans[1..]));
    }
  }

  lemma {:induction false} InsertSorts(r: Span, spans: seq<Span>)
    requires Descending(spans)
    ensures Descending(Insert(r, spans)) && multiset(Insert(r, spans)) == multiset(spans) + multiset{r}
  {
    InsertDescends(r, spans);
    InsertAdds(r, spans);
  }

  lemma PrependDescending(r: Span, spans: seq<Span>)
    requires spans != [] && Descending(spans) && r.start >= spans[0].start
    ensures Descending([r] + spans)
  {
    assert forall j :: 0 <= j < |spans| ==> spans[0].start >= spans[j].start;
  }

  lemma CutNext(t: Table, out: string, spans: seq<Span>, k: nat)
    requires k < |spans|
    ensures CutAll(t, out, spans[k..]) ==
      if Skipped(out, spans[k]) then CutAll(t, out, spans[k + 1..])
      else var (t', out') := Cut(t, out, spans[k]); CutAll(t', out', spans[k + 1..])
  {
    assert spans[k..][1..] == spans[k + 1..];
  }

  /** The analyzer reports no entity type with a bracket in it. */
  ghost predicate FreeTypes(analyze: Analyzer) {
    forall i, text :: analyze(i, text).Ok? ==> BracketFreeTypes(analyze(i, text).value)
  }

  // ----- a whole call as a function -----

  /** The mode of a transformer and what its services do during a call. */
  datatype Setup = Setup(reversible: bool, analyze: Analyzer, anonymize: Anonymizer, sort: Sorter)

  const NO_STATE := "presidio: reversible mode requires request state"

  /** The table of a state, None without one. */
  ghost function ViewOf(state: State?): Option<Table>
    reads state
  {
    if state == null then None else Some(state.View())
  }

  ghost function RewriteText(s: Setup, t: Option<Table>, i: nat, text: string): (Option<Table>, Result<string>) {
    match s.analyze(i, text)
    case Err(e) => (t, Err(e))
    case Ok(results) =>
      if results == [] then (t, Ok(text))
      else if !s.reversible then (t, s.anonymize(i, text, results))
      else if t.None? then (t, Err(NO_STATE))
      else var (t', out) := CutAll(t.value, text, s.sort(results)); (Some(t'), Ok(out))
  }

  /** The first k messages in turn, up to the first error; empty messages are passed over. */
  ghost function RewriteUpTo(s: Setup, t: Option<Table>, msgs: seq<Message>,
                             k: nat): (Option<Table>, Result<seq<Message>>)
    requires k <= |msgs|
  {
    if k == 0 then (t, Ok([]))
    else
      var (t1, r) := RewriteUpTo(s, t, msgs, k - 1);
      var m := msgs[k - 1];
      match r
      case Err(e) => (t1, Err(e))
      case Ok(outs) =>
        if m.content == "" then (t1, Ok(outs + [m]))
        else
          var (t2, text) := RewriteText(s, t1, k - 1, m.content);
          match text
          case Err(e) => (t2, Err(e))
          case Ok(x) => (t2, Ok(outs + [m.(content := x)]))
  }

  ghost function Rewrite(s: Setup, t: Option<Table>, msgs: seq<Message>): (Option<Table>, Result<seq<Message>>) {
    RewriteUpTo(s, t, msgs, |msgs|)
  }

  lemma NextMessage(s: Setup, t: Option<Table>, msgs: seq<Message>, i: nat)
    requires i < |msgs| && RewriteUpTo(s, t, msgs, i).1.Ok?
    ensures var (t1, r) := RewriteUpTo(s, t, msgs, i);
      var (t2, text) := RewriteText(s, t1, i, msgs[i].content);
      RewriteUpTo(s, t, msgs, i + 1) ==
        if msgs[i].content == "" then (t1, Ok(r.value + [msgs[i]]))
        else if text.Err? then (t2, Err(text.error))
        else (t2, Ok(r.value + [msgs[i].(content := text.value)]))
  {
  }

  lemma {:induction false} ErrorStays(s: Setup, t: Option<Table>, msgs: seq<Message>, j: nat, k: nat)
    requires j <= k <= |msgs| && RewriteUpTo(s, t, msgs, j).1.Err?
    ensures RewriteUpTo(s, t, msgs, k) == RewriteUpTo(s, t, msgs, j)
  {
    if j < k {
      ErrorStays(s, t, msgs, j, k - 1);
    }
  }

  lemma {:induction false} PrefixOk(s: Setup, t: Option<Table>, msgs: seq<Message>, j: nat, k: nat)
    requires j <= k <= |msgs| && RewriteUpTo(s, t, msgs, k).1.Ok?
    ensures RewriteUpTo(s, t, msgs, j).1.Ok?
    ensures |RewriteUpTo(s, t, msgs, k).1.value| == k
    ensures RewriteUpTo(s, t, msgs, k).1.value[..j] == RewriteUpTo(s, t, msgs, j).1.value
  {
    if j < k {
      PrefixOk(s, t, msgs, j, k - 1);
    } else if k > 0 {
      PrefixOk(s, t, msgs, k - 1, k - 1);
    }
  }

  /** What stops one message: a service that fails, or, in reversible mode, nowhere to record what was found. */
  ghost predicate FailsWith(s: Setup, noState: bool, i: nat, text: string, e: string) {
    if s.analyze(i, text).Err? then e == s.analyze(i, text).error
    else
      var results := s.analyze(i, text).value;
      && results != []
      && if s.reversible then noState && e == NO_STATE else s.anonymize(i, text, results) == Err(e)
  }

  lemma TextFailsIff(s: Setup, t: Option<Table>, i: nat, text: string)
    ensures forall e :: RewriteText(s, t, i, text).1 == Err(e) <==> FailsWith(s, t.None?, i, text, e)
    ensures RewriteText(s, t, i, text).0.None? <==> t.None?
  {
  }

  /**
    In either mode a call fails exactly when some non-empty message does, and then with the error
    of the first that does.
   */
  lemma {:induction false} FailsIff(s: Setup, t: Option<Table>, msgs: seq<Message>, k: nat)
    requires k <= |msgs|
    ensures var (t', r) := RewriteUpTo(s, t, msgs, k);
      && (t'.None? <==> t.None?)
      && (r.Ok? <==> forall i, e :: 0 <= i < k && msgs[i].content != "" ==>
            !FailsWith(s, t.None?, i, msgs[i].content, e))
      && (r.Err? ==>
            exists i ::
              && 0 <= i < k && msgs[i].content != "" && FailsWith(s, t.None?, i, msgs[i].content, r.error)
              && forall j, e :: 0 <= j < i && msgs[j].content != "" ==> !FailsWith(s, t.None?, j, msgs[j].content, e))
  {
    if k > 0 {
      FailsIff(s, t, msgs, k - 1);
      var t1, text := RewriteUpTo(s, t, msgs, k - 1).0, msgs[k - 1].content;
      TextFailsIff(s, t1, k - 1, text);
      var r := RewriteUpTo(s, t, msgs, k).1;
      if RewriteUpTo(s, t, msgs, k - 1).1.Ok? && r.Err? {
        assert FailsWith(s, t.None?, k - 1, text, r.error);
      }
    }
  }

  /** In redact mode each text becomes what the two services make of it, and the table is left alone. */
  lemma {:induction false} RedactedTexts(s: Setup, t: Option<Table>, msgs: seq<Message>, k: nat)
    requires !s.reversible && k <= |msgs|
    ensures var (t', r) := RewriteUpTo(s, t, msgs, k);
      && t' == t
      && (r.Ok? ==> |r.value| == k && forall i :: 0 <= i < k ==>
          var text, text' := msgs[i].content, r.value[i].content;
          && r.value[i] == msgs[i].(content := text')
          && (text == "" ==> text' == "")
          && (text != "" ==> s.analyze(i, text).Ok?)
          && (text != "" && s.analyze(i, text) == Ok([]) ==> text' == text)
          && (text != "" && s.analyze(i, text) != Ok([])
            ==> s.anonymize(i, text, s.analyze(i, text).value) == Ok(text')))
  {
    if k > 0 {
      RedactedTexts(s, t, msgs, k - 1);
    }
  }

  /** Without a state the reversible mode succeeds on messages with nothing to hide, and leaves them alone. */
  lemma {:induction false} NothingFound(s: Setup, t: Option<Table>, msgs: seq<Message>, k: nat)
    requires s.reversible && k <= |msgs|
    requires forall i :: 0 <= i < k && msgs[i].content != "" ==> s.analyze(i, msgs[i].content) == Ok([])
    ensures RewriteUpTo(s, t, msgs, k) == (t, Ok(msgs[..k]))
  {
    if k > 0 {
      NothingFound(s, t, msgs, k - 1);
      assert msgs[..k] == msgs[..k - 1] + [msgs[k - 1]];
      assert msgs[k - 1].(content := msgs[k - 1].content) == msgs[k - 1];
    }
  }

  ghost predicate TableKept(s: Setup, t: Option<Table>, t': Option<Table>) {
    && (t.None? <==> t'.None?)
    && (t.Some? ==> Consistent(t'.value) && Extends(t.value, t'.value))
    && (t.Some? && FreeTypes(s.analyze) && Bracketed(t.value) ==> Bracketed(t'.value))
  }

  lemma TextKeepsTable(s: Setup, t: Option<Table>, i: nat, text: string)
    requires Sorts(s.sort) && (t.Some? ==> Consistent(t.value))
    ensures TableKept(s, t, RewriteText(s, t, i, text).0)
  {
    if s.analyze(i, text).Ok? && t.Some? {
      var results := s.analyze(i, text).value;
      CutAllTable(t.value, text, s.sort(results));
      if BracketFreeTypes(results) {
        OrderTypes(s.sort(results), results);
      }
    }
  }

  lemma TableKeptTransitive(s: Setup, t: Option<Table>, t1: Option<Table>, t2: Option<Table>)
    requires TableKept(s, t, t1) && TableKept(s, t1, t2)
    ensures TableKept(s, t, t2)
  {
  }

  /** A call only adds to the table and keeps it consistent, even if it fails, and bracketed for bracket-free types. */
  lemma {:induction false} RewriteKeepsTable(s: Setup, t: Option<Table>, msgs: seq<Message>, k: nat)
    requires Sorts(s.sort) && (t.Some? ==> Consistent(t.value)) && k <= |msgs|
    ensures TableKept(s, t, RewriteUpTo(s, t, msgs, k).0)
  {
    if k > 0 {
      RewriteKeepsTable(s, t, msgs, k - 1);
      var (t1, r) := RewriteUpTo(s, t, msgs, k - 1);
      if r.Err? {
        ErrorStays(s, t, msgs, k - 1, k);
      } else {
        NextMessage(s, t, msgs, k - 1);
        TextKeepsTable(s, t1, k - 1, msgs[k - 1].content);
        TableKeptTransitive(s, t, t1, RewriteText(s, t1, k - 1, msgs[k - 1].content).0);
      }
    }
  }

  function AnswerTo(analyze: Analyzer, msgs: seq<Message>, i: nat): Result<seq<Span>>
    requires i < |msgs|
  {
    if msgs[i].content == "" then Ok([]) else analyze(i, msgs[i].content)
  }

  function AnswersTo(analyze: Analyzer, msgs: seq<Message>): seq<Result<seq<Span>>> {
    seq(|msgs|, i requires 0 <= i < |msgs| => AnswerTo(analyze, msgs, i))
  }

  /** The orders the spans are worked through in, and the tables in between. */
  function OrdersOf(s: Setup, msgs: seq<Message>): seq<seq<Span>> {
    seq(|msgs|, i requires 0 <= i < |msgs| =>
      match AnswerTo(s.analyze, msgs, i)
      case Ok(results) => if results == [] then [] else s.sort(results)
      case Err(_) => [])
  }

  ghost function TablesOf(s: Setup, t: Option<Table>, msgs: seq<Message>): seq<Table> {
    seq(|msgs| + 1, k requires 0 <= k <= |msgs| => RewriteUpTo(s, t, msgs, k).0.GetOr(EMPTY))
  }

  lemma OneStepOfRun(s: Setup, t: Option<Table>, msgs: seq<Message>, i: nat)
    requires s.reversible && t.Some? && Sorts(s.sort) && i < |msgs|
    requires RewriteUpTo(s, t, msgs, i).0.Some? && RewriteUpTo(s, t, msgs, i + 1).1.Ok?
    ensures RewriteUpTo(s, t, msgs, i + 1).0.Some? && |RewriteUpTo(s, t, msgs, i + 1).1.value| == i + 1
    ensures MessageStep(RewriteUpTo(s, t, msgs, i).0.value, msgs[i], AnswerTo(s.analyze, msgs, i), OrdersOf(s, msgs)[i],
                        RewriteUpTo(s, t, msgs, i + 1).0.value, RewriteUpTo(s, t, msgs, i + 1).1.value[i])
  {
    PrefixOk(s, t, msgs, i, i + 1);
    PrefixOk(s, t, msgs, i, i);
    var text := msgs[i].content;
    if text != "" && s.analyze(i, text).Ok? && s.analyze(i, text).value == [] {
      assert Sorted([], []);
    }
  }

  lemma RunStepAt(s: Setup, t: Table, msgs: seq<Message>, i: nat)
    requires s.reversible && Sorts(s.sort) && Consistent(t) && Rewrite(s, Some(t), msgs).1.Ok? && i < |msgs|
    ensures |Rewrite(s, Some(t), msgs).1.value| == |msgs|
    ensures MessageStep(TablesOf(s, Some(t), msgs)[i], msgs[i], AnswersTo(s.analyze, msgs)[i], OrdersOf(s, msgs)[i],
                        TablesOf(s, Some(t), msgs)[i + 1], Rewrite(s, Some(t), msgs).1.value[i])
  {
    RewriteKeepsTable(s, Some(t), msgs, i);
    PrefixOk(s, Some(t), msgs, i + 1, |msgs|);
    PrefixOk(s, Some(t), msgs, i + 1, i + 1);
    OneStepOfRun(s, Some(t), msgs, i);
    assert Rewrite(s, Some(t), msgs).1.value[i] == Rewrite(s, Some(t), msgs).1.value[..i + 1][i];
  }

  /** A reversible call that succeeds is a run as the conversation theorems speak of. */
  lemma RewriteIsRun(s: Setup, t: Table, msgs: seq<Message>)
    requires s.reversible && Sorts(s.sort) && Consistent(t) && Rewrite(s, Some(t), msgs).1.Ok?
    ensures var (t', r) := Rewrite(s, Some(t), msgs);
      && TransformRun(TablesOf(s, Some(t), msgs), msgs, AnswersTo(s.analyze, msgs), OrdersOf(s, msgs), r.value)
      && TablesOf(s, Some(t), msgs)[0] == t && Some(TablesOf(s, Some(t), msgs)[|msgs|]) == t'
  {
    var ts, answers, orders, outs :=
      TablesOf(s, Some(t), msgs), AnswersTo(s.analyze, msgs), OrdersOf(s, msgs), Rewrite(s, Some(t), msgs).1.value;
    PrefixOk(s, Some(t), msgs, |msgs|, |msgs|);
    RewriteKeepsTable(s, Some(t), msgs, |msgs|);
    forall i | 0 <= i < |msgs|
      ensures MessageStep(ts[i], msgs[i], answers[i], orders[i], ts[i + 1], outs[i])
    {
      RunStepAt(s, t, msgs, i);
    }
  }

  // ----- the transformers -----

  class PresidioTransformer {
    const reversible: bool
    const sort: Sorter

    constructor (reversible: bool, sort: Sorter)
      ensures this.reversible == reversible && this.sort == sort
    {
      this.reversible, this.sort := reversible, sort;
    }

    /** One message in redact mode: the anonymizer service rewrites it. */
    method Redact(analyze: Analyzer, anonymize: Anonymizer, i: nat, text: string) returns (r: Result<string>)
      ensures r == RewriteText(Setup(false, analyze, anonymize, sort), None, i, text).1
    {
      var results := analyze(i, text);
      if results.Err? {
        return Err(results.error);
      }
      if results.value == [] {
        return Ok(text);
      }
      r := anonymize(i, text, results.value);
    }

    /**
      Replaces the spans of one message back to front, in place, recording the originals. Without a
      state it fails as soon as there is something to replace.
     */
    method AnonymizeReversibly(analyze: Analyzer, ghost anonymize: Anonymizer, i: nat, text: string, state: State?)
      returns (r: Result<string>)
      requires state != null ==> state.Valid()
      modifies state
      ensures state != null ==> state.Valid()
      ensures (ViewOf(state), r) == RewriteText(Setup(true, analyze, anonymize, sort), old(ViewOf(state)), i, text)
    {
      var results := analyze(i, text);
      if results.Err? {
        return Err(results.error);
      }
      if results.value == [] {
        return Ok(text);
      }
      if state == null {
        return Err(NO_STATE);
      }
      var spans := sort(results.value);
      var out := CutSpans(text, spans, state);
      r := Ok(out);
    }

    /** The loop over the sorted spans: each is cut out of the text as rewritten so far. */
    method CutSpans(text: string, spans: seq<Span>, state: State) returns (out: string)
      requires state.Valid()
      modifies state
      ensures state.Valid() && (state.View(), out) == CutAll(old(state.View()), text, spans)
    {
      out := text;
      ghost var whole := CutAll(state.View(), text, spans);
      var k := 0;
      while k < |spans|
        invariant 0 <= k <= |spans|
        invariant state.Valid()
        invariant CutAll(state.View(), out, spans[k..]) == whole
      {
        var span := spans[k];
        CutNext(state.View(), out, spans, k);
        if !(span.start < 0 || span.end > |out| || span.start >= span.end) {
          out := CutOne(out, span, state);
        }
        k := k + 1;
      }
    }

    method CutOne(out: string, span: Span, state: State) returns (out': string)
      requires state.Valid() && !Skipped(out, span)
      modifies state
      ensures state.Valid() && (state.View(), out') == Cut(old(state.View()), out, span)
    {
      var p := state.AllocatePlaceholder(span.entity, out[span.start..span.end]);
      out' := out[..span.start] + p + out[span.end..];
    }

    /** Rewrites a copy of the messages one by one and gives up at the first error. */
    method Transform(analyze: Analyzer, anonymize: Anonymizer, state: State?, msgs: seq<Message>)
      returns (r: Result<seq<Message>>)
      requires state != null ==> state.Valid()
      modifies state
      ensures state != null ==> state.Valid()
      ensures (ViewOf(state), r) == Rewrite(Setup(reversible, analyze, anonymize, sort), old(ViewOf(state)), msgs)
    {
      ghost var s, t0 := Setup(reversible, analyze, anonymize, sort), ViewOf(state);
      var out := msgs;
      var i := 0;
      while i < |out|
        invariant 0 <= i <= |out| == |msgs|
        invariant state != null ==> state.Valid()
        invariant (ViewOf(state), Ok(out[..i])) == RewriteUpTo(s, t0, msgs, i)
        invariant out[i..] == msgs[i..]
      {
        assert out[i] == out[i..][0] == msgs[i..][0] == msgs[i];
        NextMessage(s, t0, msgs, i);
        var text := out[i].content;
        if text != "" {
          var redacted: Result<string>;
          if reversible {
            redacted := AnonymizeReversibly(analyze, anonymize, i, text, state);
          } else {
            redacted := Redact(analyze, anonymize, i, text);
          }
          if redacted.Err? {
            ErrorStays(s, t0, msgs, i + 1, |msgs|);
            return Err(redacted.error);
          }
          out := out[i := out[i].(content := redacted.value)];
        }
        assert out[..i + 1] == out[..i] + [out[i]];
        i := i + 1;
      }
      assert out[..i] == out;
      r := Ok(out);
    }
  }

  /** A listing with the pairs of todo still missing. */
  ghost predicate ListsAllBut(pairs: Pairs, m: map<string, string>, todo: set<string>) {
    && todo <= m.Keys
    && (forall i :: 0 <= i < |pairs| ==> pairs[i].0 in m && pairs[i].1 == m[pairs[i].0])
    && (forall p :: p in m && p !in todo ==> (p, m[p]) in pairs)
  }

  lemma ListOneMore(pairs: Pairs, m: map<string, string>, todo: set<string>, p: string)
    requires ListsAllBut(pairs, m, todo) && p in todo
    ensures ListsAllBut(pairs + [(p, m[p])], m, todo - {p})
  {
    var pairs' := pairs + [(p, m[p])];
    assert pairs'[|pairs|] == (p, m[p]);
    assert forall pair :: pair in pairs ==> pair in pairs';
  }

  class DeanonymizeTransformer {
    constructor () {}

    /** Restores originals from a listing of the table in arbitrary order; the input is not touched. */
    method Transform(state: State?, msgs: seq<Message>) returns (out: seq<Message>, ghost pairs: Pairs)
      requires state != null ==> state.Valid()
      ensures state == null ==> out == msgs
      ensures state != null ==> Lists(pairs, state.View().mappings) && NonEmptyOlds(pairs)
      ensures state != null ==> |out| == |msgs| && forall i :: 0 <= i < |msgs|
                                                     ==> out[i] == msgs[i].(content := Replace(pairs, msgs[i].content))
    {
      pairs := [];
      if state == null {
        return msgs, pairs;
      }
      var n := state.Len();
      if n == 0 {
        NothingToReplace(msgs);
        return msgs, pairs;
      }
      var mappings := state.Mappings();
      var ps: Pairs := [];
      var todo := mappings.Keys;
      while todo != {}
        invariant ListsAllBut(ps, mappings, todo)
        decreases todo
      {
        var p :| p in todo;
        ListOneMore(ps, mappings, todo, p);
        ps := ps + [(p, mappings[p])];
        todo := todo - {p};
      }
      pairs := ps;
      PlaceholdersNonEmpty(state.View());
      out := msgs;
      var i := 0;
      while i < |out|
        invariant 0 <= i <= |out| == |msgs|
        invariant forall j :: i <= j < |msgs| ==> out[j] == msgs[j]
        invariant forall j :: 0 <= j < i ==> out[j] == msgs[j].(content := Replace(ps, msgs[j].content))
      {
        out := out[i := out[i].(content := Replace(ps, out[i].content))];
        i := i + 1;
      }
    }
  }

  lemma PlaceholdersNonEmpty(t: Table)
    requires Consistent(t)
    ensures "" !in t.mappings
  {
    assert "" in t.mappings ==> Numbered(t.counters, "");
  }

  /** Some placeholder of the table starts another: its inside starts another's entity type. */
  ghost predicate InsideStartsType(t: Table, e: string, n: nat, e': string, n': nat) {
    && 1 <= n <= Count(t.counters, e) && 1 <= n' <= Count(t.counters, e')
    && Inside(e, n) <= e'
  }

  lemma InsideIff(t: Table, e: string, n: nat, e': string, n': nat)
    requires Consistent(t) && 1 <= n <= Count(t.counters, e) && 1 <= n' <= Count(t.counters, e')
    ensures var p, q := Placeholder(e, n), Placeholder(e', n');
      p in t.mappings && q in t.mappings && (p <= q && p != q <==> InsideStartsType(t, e, n, e', n'))
  {
    PlaceholderPrefixIff(e, n, e', n');
  }

  /** Any two listings of a table with these mappings give the same output on any text. */
  ghost predicate OrderHidden(m: map<string, string>) {
    forall a, b, s :: AlikeOn(m, a, b, s)
  }

  /** Tables of a request with the same placeholders differ in their originals only. */
  lemma SamePlaceholders(t: Table, m: map<string, string>)
    requires Consistent(t)
    ensures Consistent(Table(m, t.counters)) <==> m.Keys == t.mappings.Keys && Injective(m)
  {
    if Consistent(Table(m, t.counters)) {
      forall p
        ensures p in m <==> p in t.mappings
      {
        assert p in m ==> Numbered(t.counters, p);
        assert p in t.mappings ==> Numbered(t.counters, p);
      }
    }
  }

  /**
    For the placeholders of a request, the iteration order of the table is unobservable, whatever
    the originals, exactly when no recorded entity type starts with the inside of another recorded
    placeholder.
   */
  lemma TypesDecideOrder(t: Table)
    requires Consistent(t)
    ensures (forall m :: Consistent(Table(m, t.counters)) ==> OrderHidden(m))
      <==> !exists e, n, e', n' :: InsideStartsType(t, e, n, e', n')
  {
    if e, n, e', n' :| InsideStartsType(t, e, n, e', n') {
      ShowingOriginals(t, e, n, e', n');
    } else {
      PrefixFreePlaceholders(t);
      PlaceholdersNonEmpty(t);
      OrderUnobservableIff(t.mappings.Keys);
      forall m | Consistent(Table(m, t.counters))
        ensures OrderHidden(m)
      {
        SamePlaceholders(t, m);
      }
    }
  }

  lemma PrefixFreePlaceholders(t: Table)
    requires Consistent(t) && !exists e, n, e', n' :: InsideStartsType(t, e, n, e', n')
    ensures PrefixFreeKeys(t.mappings.Keys)
  {
    forall p, q | p in t.mappings.Keys && q in t.mappings.Keys && p <= q
      ensures p == q
    {
      assert Numbered(t.counters, p) && Numbered(t.counters, q);
      var e, n :| 1 <= n <= Count(t.counters, e) && p == Placeholder(e, n);
      var e', n' :| 1 <= n' <= Count(t.counters, e') && q == Placeholder(e', n');
      InsideIff(t, e, n, e', n');
    }
  }

  /** Originals a request could have, all different, for which the order shows. */
  lemma ShowingOriginals(t: Table, e: string, n: nat, e': string, n': nat)
    requires Consistent(t) && InsideStartsType(t, e, n, e', n')
    ensures exists m :: Consistent(Table(m, t.counters)) && !OrderHidden(m)
  {
    PlaceholdersNonEmpty(t);
    InsideIff(t, e, n, e', n');
    var p, q := Placeholder(e, n), Placeholder(e', n');
    var m := Telling(t.mappings.Keys, p);
    forall a, b | a in m && b in m && m[a] == m[b]
      ensures a == b
    {
      TellingIsInjective(t.mappings.Keys, p, a, b);
    }
    SamePlaceholders(t, m);
    var a, b := PrefixShows(t.mappings.Keys, p, q);
    assert !AlikeOn(m, a, b, q);
  }

  /** In particular when no entity type contains a '>'; a '<' in a type does no harm here. */
  lemma NoClosingBracketIsEnough(t: Table)
    requires Consistent(t) && forall e :: Count(t.counters, e) > 0 ==> '>' !in e
    ensures OrderHidden(t.mappings)
  {
    forall e, n, e', n'
      ensures !InsideStartsType(t, e, n, e', n')
    {
      PrefixHas(Inside(e, n), e');
    }
    TypesDecideOrder(t);
    assert Table(t.mappings, t.counters) == t;
  }

  /** A table after two allocations for two types. */
  lemma TwoTypes(e: string, e': string, x: string, y: string)
    requires e != e' && x != y
    ensures Consistent(Table(map[Placeholder(e, 1) := x, Placeholder(e', 1) := y], map[e := 1, e' := 1]))
  {
    var p, q := Placeholder(e, 1), Placeholder(e', 1);
    if p == q {
      PlaceholderInjective(e, 1, e', 1);
    }
    var t := Table(map[p := x, q := y], map[e := 1, e' := 1]);
    assert Count(t.counters, e) == 1 && Count(t.counters, e') == 1;
    assert Numbered(t.counters, p) && Numbered(t.counters, q);
  }

  /** The table of Replacer.OrderMattersWithBrackets is one a request can have. */
  lemma OrderMattersTableIsConsistent(x: string, y: string)
    requires x != y
    ensures Consistent(Table(map["<A>_1>" := x, "<A>_1>B_1>" := y], map["A>" := 1, "A>_1>B" := 1]))
  {
    TwoTypes("A>", "A>_1>B", x, y);
    assert Placeholder("A>", 1) == "<A>_1>";
    assert Placeholder("A>_1>B", 1) == "<A>_1>B_1>";
  }

  lemma PrefixHas(inside: string, e: string)
    requires inside != "" && inside[|inside| - 1] == '>'
    ensures inside <= e ==> '>' in e
  {
  }

  lemma {:induction false} ReplaceNothing(s: string)
    ensures Replace([], s) == s
    decreases |s|
  {
    if s != "" {
      ReplaceNothing(s[1..]);
      assert s == s[..1] + s[1..];
    }
  }

  lemma NothingToReplace(msgs: seq<Message>)
    ensures forall i :: 0 <= i < |msgs| ==> msgs[i] == msgs[i].(content := Replace([], msgs[i].content))
  {
    forall i | 0 <= i < |msgs|
      ensures msgs[i] == msgs[i].(content := Replace([], msgs[i].content))
    {
      ReplaceNothing(msgs[i].content);
    }
  }
}
