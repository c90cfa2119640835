/** Anonymize, then deanonymize: when the codec gives back what it was given. */
module RoundTrip {
  import opened Llm
  import opened Placeholders
  import opened Presidio
  import opened Replacer
  import opened TransformState
  import opened Wrappers

  // ----- decoding a simultaneous substitution -----

  ghost predicate Covered(spans: seq<Span>, i: int) {
    exists r :: r in spans && r.start <= i < r.end
  }

  /** Every placeholder that text happens to contain is at least partly covered by a span. */
  ghost predicate NoStray(m: map<string, string>, text: string, spans: seq<Span>) {
    forall p, i :: p in m && Occurs(p, text, i) ==> exists j :: i <= j < i + |p| && Covered(spans, j)
  }

  /** In particular when '<' does not occur outside the spans. */
  lemma NoStrayIfNoBracketOutside(m: map<string, string>, text: string, spans: seq<Span>)
    requires AllDelimited(m)
    requires forall i :: 0 <= i < |text| && text[i] == '<' ==> Covered(spans, i)
    ensures NoStray(m, text, spans)
  {
    forall p, i | p in m && Occurs(p, text, i)
      ensures exists j :: i <= j < i + |p| && Covered(spans, j)
    {
      assert Delimited(p) && text[i] == text[i..i + |p|][0] == '<';
    }
  }

  lemma SliceOfSlice(s: string, lo: nat, hi: nat, i: nat, j: nat)
    requires lo <= hi <= |s| && i <= j <= hi - lo
    ensures s[lo..hi][i..j] == s[lo + i..lo + j]
  {
    var a, b := s[lo..hi][i..j], s[lo + i..lo + j];
    assert forall k :: 0 <= k < j - i ==> a[k] == s[lo..hi][i + k] == s[lo + i + k] == b[k];
  }

  lemma GapIsInert(m: map<string, string>, text: string, all: seq<Span>, lo: nat, hi: nat)
    requires NoStray(m, text, all) && lo <= hi <= |text|
    requires forall r :: r in all ==> r.end <= lo || hi <= r.start
    ensures Inert(m, text[lo..hi])
  {
    forall p, i | p in m
      ensures !Occurs(p, text[lo..hi], i)
    {
      if 0 <= i && i + |p| <= hi - lo {
        SliceOfSlice(text, lo, hi, i, i + |p|);
        assert !Occurs(p, text, lo + i) by {
          assert forall j :: lo <= j < hi ==> !Covered(all, j);
        }
      }
    }
  }

  lemma {:induction false} FitsBounds(m: map<string, string>, text: string, lo: nat, spans: seq<Span>)
    requires lo <= |text| && Fits(m, text, lo, spans)
    ensures lo <= First(text, spans) <= |text|
    ensures forall r :: r in spans ==> First(text, spans) <= r.start < r.end <= |text|
    decreases |spans|
  {
    if spans != [] {
      FitsBounds(m, text, spans[0].end, spans[1..]);
      assert spans == [spans[0]] + spans[1..];
    }
  }

  /** The spans not yet passed at lo are exactly the remaining ones. */
  ghost predicate Pending(all: seq<Span>, lo: nat, spans: seq<Span>) {
    forall r :: r in all ==> r.end <= lo || r in spans
  }

  lemma NextGap(m: map<string, string>, text: string, lo: nat, spans: seq<Span>, all: seq<Span>)
    requires lo <= |text| && Fits(m, text, lo, spans)
    requires NoStray(m, text, all) && Pending(all, lo, spans)
    ensures lo <= First(text, spans) <= |text| && Inert(m, text[lo..First(text, spans)])
    ensures spans != [] ==> Pending(all, spans[0].end, spans[1..])
  {
    FitsBounds(m, text, lo, spans);
    GapIsInert(m, text, all, lo, First(text, spans));
    assert spans != [] ==> spans == [spans[0]] + spans[1..];
  }

  lemma DecodeOneSpan(pairs: Pairs, m: map<string, string>, gap: string, p: string, rest: string)
    requires Lists(pairs, m) && AllDelimited(m) && NonEmptyOlds(pairs) && Inert(m, gap) && p in m
    ensures Replace(pairs, gap + p + rest) == gap + m[p] + Replace(pairs, rest)
  {
    assert Delimited(p) && (p + rest)[0] == '<';
    ReplaceLiteral(pairs, m, gap, p + rest);
    assert gap + p + rest == gap + (p + rest);
    ReplacePlaceholder(pairs, m, p, rest);
  }

  /** The replacer undoes a substitution, in whatever order the table lists its pairs. */
  lemma {:induction false} DecodeSubstitution(pairs: Pairs, m: map<string, string>, text: string, lo: nat,
                                              spans: seq<Span>, all: seq<Span>)
    requires Lists(pairs, m) && AllDelimited(m) && NonEmptyOlds(pairs)
    requires lo <= |text| && Fits(m, text, lo, spans) && NoStray(m, text, all) && Pending(all, lo, spans)
    ensures Replace(pairs, Substitute(m, text, lo, spans)) == text[lo..]
    decreases |spans|
  {
    NextGap(m, text, lo, spans, all);
    if spans == [] {
      assert text[lo..|text|] == text[lo..];
      DecodeLiteral(pairs, m, text[lo..]);
    } else {
      var r := spans[0];
      var p := PlaceholderOf(m, text[r.start..r.end]);
      DecodeOneSpan(pairs, m, text[lo..r.start], p, Substitute(m, text, r.end, spans[1..]));
      DecodeSubstitution(pairs, m, text, r.end, spans[1..], all);
      ThreeParts(text, lo, r.start, r.end);
    }
  }

  lemma {:induction false} DecodeLiteral(pairs: Pairs, m: map<string, string>, lit: string)
    requires Lists(pairs, m) && AllDelimited(m) && NonEmptyOlds(pairs) && Inert(m, lit)
    ensures Replace(pairs, lit) == lit
  {
    ReplaceLiteral(pairs, m, lit, "");
    assert lit + "" == lit;
  }

  lemma ThreeParts(s: string, lo: nat, i: nat, j: nat)
    requires lo <= i <= j <= |s|
    ensures s[lo..] == s[lo..i] + s[i..j] + s[j..]
  {
  }

  // ----- responses: literals interleaved with placeholders -----

  /** A placeholder followed by the literal text up to the next one. */
  datatype Piece = Piece(placeholder: string, gap: string)

  function Rendered(ps: seq<Piece>): string {
    if ps == [] then "" else ps[0].placeholder + ps[0].gap + Rendered(ps[1..])
  }

  ghost predicate Known(m: map<string, string>, ps: seq<Piece>) {
    ps == [] || (ps[0].placeholder in m && Inert(m, ps[0].gap) && Known(m, ps[1..]))
  }

  ghost function Restored(m: map<string, string>, ps: seq<Piece>): string
    requires Known(m, ps)
  {
    if ps == [] then "" else m[ps[0].placeholder] + ps[0].gap + Restored(m, ps[1..])
  }

  lemma {:induction false} DecodePieces(pairs: Pairs, m: map<string, string>, ps: seq<Piece>)
    requires Lists(pairs, m) && AllDelimited(m) && NonEmptyOlds(pairs) && Known(m, ps)
    ensures Replace(pairs, Rendered(ps)) == Restored(m, ps)
    ensures Rendered(ps) == "" || Rendered(ps)[0] == '<'
  {
    if ps != [] {
      var p, gap, rest := ps[0].placeholder, ps[0].gap, Rendered(ps[1..]);
      DecodePieces(pairs, m, ps[1..]);
      assert Delimited(p);
      assert p + gap + rest == p + (gap + rest);
      ReplacePlaceholder(pairs, m, p, gap + rest);
      ReplaceLiteral(pairs, m, gap, rest);
    }
  }

  /**
    Any response that interleaves literals with placeholders of the table comes back as the same
    interleaving of literals and originals. The originals may contain anything: inserted text is
    not read again. The table may hold mappings the response never uses.
   */
  lemma DecodeInterleaving(pairs: Pairs, m: map<string, string>, head: string, ps: seq<Piece>)
    requires Lists(pairs, m) && AllDelimited(m) && NonEmptyOlds(pairs)
    requires Inert(m, head) && Known(m, ps)
    ensures Replace(pairs, head + Rendered(ps)) == head + Restored(m, ps)
  {
    DecodePieces(pairs, m, ps);
    ReplaceLiteral(pairs, m, head, Rendered(ps));
  }

  // ----- one message -----

  ghost predicate BracketFreeTypes(spans: seq<Span>) {
    forall r :: r in spans ==> BracketFree(r.entity)
  }

  /** A table an output phase may hold after this message was anonymized. */
  ghost predicate Later(t: Table, spans: seq<Span>, text: string, final: Table, pairs: Pairs) {
    && Consistent(t) && Consistent(final) && Bracketed(final)
    && Extends(CutAll(t, text, spans).0, final)
    && Lists(pairs, final.mappings) && NonEmptyOlds(pairs)
  }

  /** A clean run round-trips under every later table, '<' being allowed inside the spans. */
  lemma CleanRoundTrip(t: Table, text: string, spans: seq<Span>, final: Table, pairs: Pairs)
    requires Later(t, spans, text, final, pairs)
    requires Clean(t, text, |text|, spans)
    requires NoStray(final.mappings, text, Applied(t, text, spans))
    ensures Replace(pairs, CutAll(t, text, spans).1) == text
  {
    assert text[0..] == text;
    CleanIsSubstitution(t, text, text, [], spans);
    var vs := Applied(t, text, spans);
    assert vs + [] == vs;
    var (t', out) := CutAll(t, text, spans);
    SubstituteStable(t', final, text, 0, vs);
    DecodeSubstitution(pairs, final.mappings, text, 0, vs, vs);
  }

  /** Disjoint spans in any order round-trip; only the text outside them is restricted. */
  lemma DisjointRoundTrip(t: Table, text: string, results: seq<Span>, spans: seq<Span>, final: Table, pairs: Pairs)
    requires Sorted(spans, results) && Disjoint(|text|, multiset(results))
    requires Later(t, spans, text, final, pairs)
    requires NoStray(final.mappings, text, InRangeOnly(|text|, results))
    ensures Replace(pairs, CutAll(t, text, spans).1) == text
  {
    assert text[0..] == text;
    DisjointIsClean(t, text, text, [], spans);
    var vs, rs := Applied(t, text, spans), InRangeOnly(|text|, results);
    forall r
      ensures r in vs <==> r in rs
    {
      SameMembers(spans, results, r);
      SameMembers(vs, InRangeOnly(|text|, spans), r);
    }
    CoveredAlike(final.mappings, text, rs, vs);
    CleanRoundTrip(t, text, spans, final, pairs);
  }

  lemma SameMembers(a: seq<Span>, b: seq<Span>, r: Span)
    requires multiset(a) == multiset(b)
    ensures r in a <==> r in b
  {
    assert r in a <==> r in multiset(a);
    assert r in b <==> r in multiset(b);
  }

  lemma CoveredAlike(m: map<string, string>, text: string, a: seq<Span>, b: seq<Span>)
    requires NoStray(m, text, a) && forall r :: r in a <==> r in b
    ensures NoStray(m, text, b)
  {
    forall p, i | p in m && Occurs(p, text, i)
      ensures exists j :: i <= j < i + |p| && Covered(b, j)
    {
      var j :| i <= j < i + |p| && Covered(a, j);
      assert Covered(b, j);
    }
  }

  // ----- overlapping spans -----

  lemma DropFromPieces(m: map<string, string>, ps: seq<Piece>, k: nat) returns (lit: string, ps': seq<Piece>)
    requires AllDelimited(m) && Known(m, ps) && Plain(ps) && 0 < k <= |Rendered(ps)|
    ensures Rendered(ps)[k..] == lit + Rendered(ps') && '<' !in lit && Known(m, ps') && Plain(ps')
  {
    var p, gap, rest := ps[0].placeholder, ps[0].gap, Rendered(ps[1..]);
    var first := p + gap;
    assert Rendered(ps) == first + rest;
    if k <= |first| {
      // the rest of a placeholder without its '<' is plain text
      lit, ps' := first[k..], ps[1..];
      assert Delimited(p);
      assert forall i :: 0 < i < |p| - 1 ==> p[i] == p[1..|p| - 1][i - 1];
    } else {
      lit, ps' := DropFromPieces(m, ps[1..], k - |first|);
      assert Rendered(ps)[k..] == rest[k - |first|..];
    }
  }

  ghost predicate Plain(ps: seq<Piece>) {
    ps == [] || ('<' !in ps[0].gap && Plain(ps[1..]))
  }

  lemma {:induction false} PiecesLater(m: map<string, string>, m': map<string, string>, ps: seq<Piece>)
    requires Known(m, ps) && Plain(ps) && AllDelimited(m')
    requires forall p :: p in m ==> p in m' && m'[p] == m[p]
    ensures Known(m', ps) && Restored(m', ps) == Restored(m, ps)
  {
    if ps != [] {
      BracketFreeIsInert(m', ps[0].gap);
      PiecesLater(m, m', ps[1..]);
    }
  }

  /**
    What the loop has produced from a '<'-free text: plain text up to lo, then pieces. Once an
    overlapping span has been applied (dirty), the originals on record bring a '<' back.
   */
  ghost predicate LoopShape(m: map<string, string>, text: string, out: string, lo: nat, ps: seq<Piece>, dirty: bool) {
    && AllDelimited(m) && '<' !in text
    && lo <= |text| && (ps == [] ==> lo == |text|)
    && Known(m, ps) && Plain(ps)
    && out == text[..lo] + Rendered(ps)
    && (dirty ==> '<' in Restored(m, ps))
  }

  /** What is left of the output behind a cut: plain text and whole pieces. */
  lemma RestAfterCut(m: map<string, string>, text: string, out: string, lo: nat, ps: seq<Piece>, r: Span)
    returns (lit: string, qs: seq<Piece>)
    requires LoopShape(m, text, out, lo, ps, false)
    requires !Skipped(out, r) && r.start <= lo
    ensures out[r.end..] == lit + Rendered(qs) && '<' !in lit && Known(m, qs) && Plain(qs)
    ensures r.end <= lo ==> qs == ps
    ensures r.end > lo ==> '<' in out[r.start..r.end]
  {
    if r.end <= lo {
      lit, qs := text[r.end..lo], ps;
    } else {
      assert out[r.end..] == Rendered(ps)[r.end - lo..];
      lit, qs := DropFromPieces(m, ps, r.end - lo);
      // the cut-out original starts before the leftmost placeholder and takes its '<' along
      assert Delimited(ps[0].placeholder) && Rendered(ps)[0] == '<' && out[lo] == '<';
      assert out[r.start..r.end][lo - r.start] == '<';
    }
  }

  lemma CutShape(m: map<string, string>, text: string, out: string, lo: nat, ps: seq<Piece>, dirty: bool, r: Span,
                 m': map<string, string>, p: string)
    returns (ps': seq<Piece>)
    requires LoopShape(m, text, out, lo, ps, dirty)
    requires !Skipped(out, r) && r.start <= lo
    requires AllDelimited(m') && forall q :: q in m ==> q in m' && m'[q] == m[q]
    requires p in m' && m'[p] == out[r.start..r.end]
    ensures ps' != []
    ensures LoopShape(m', text, out[..r.start] + p + out[r.end..], r.start, ps', dirty || r.end > lo)
  {
    var lit, qs := RestAfterCut(m, text, out, lo, ps, r);
    PiecesLater(m, m', qs);
    BracketFreeIsInert(m', lit);
    ps' := [Piece(p, lit)] + qs;
    assert ps'[1..] == qs;
    assert Restored(m', ps') == m'[p] + lit + Restored(m', qs);
    assert out[..r.start] + p + out[r.end..] == text[..r.start] + Rendered(ps');
  }

  lemma ShapeAfterRound(t: Table, text: string, out: string, lo: nat, ps: seq<Piece>, dirty: bool, r: Span)
    returns (qs: seq<Piece>)
    requires Consistent(t) && LoopShape(t.mappings, text, out, lo, ps, dirty)
    requires !Skipped(out, r) && BracketFree(r.entity) && (ps != [] ==> r.start <= lo)
    ensures var (t', out') := Cut(t, out, r);
      Consistent(t') && qs != [] && LoopShape(t'.mappings, text, out', r.start, qs, dirty || r.end > lo)
  {
    var (t', p) := Allocate(t, r.entity, out[r.start..r.end]);
    AllocateStep(t, r.entity, out[r.start..r.end]);
    AllocateBracketed(t, r.entity, out[r.start..r.end]);
    qs := CutShape(t.mappings, text, out, lo, ps, dirty, r, t'.mappings, p);
  }

  ghost predicate AtOrBefore(spans: seq<Span>, lo: nat) {
    forall r :: r in spans ==> r.start <= lo
  }

  lemma RestOfDescending(spans: seq<Span>)
    requires spans != [] && Descending(spans) && BracketFreeTypes(spans)
    ensures Descending(spans[1..]) && BracketFreeTypes(spans[1..]) && BracketFree(spans[0].entity)
    ensures spans[0].start >= 0 ==> AtOrBefore(spans[1..], spans[0].start)
  {
    RestIsDescending(spans);
    assert spans[0] in spans && forall q :: q in spans[1..] ==> q in spans;
    forall q | q in spans[1..]
      ensures q.start <= spans[0].start
    {
      var i :| 0 <= i < |spans[1..]| && spans[1..][i] == q;
      assert spans[i + 1] == q;
    }
  }

  /** Overlaps are never repaired: some '<' that the text did not have is restored. */
  lemma {:induction false} OverlapShows(t: Table, text: string, out: string, lo: nat, ps: seq<Piece>, dirty: bool,
                                        spans: seq<Span>)
    returns (lo': nat, ps': seq<Piece>)
    requires Consistent(t) && LoopShape(t.mappings, text, out, lo, ps, dirty)
    requires Descending(spans) && BracketFreeTypes(spans)
    requires ps != [] ==> AtOrBefore(spans, lo)
    ensures var (t', out') := CutAll(t, out, spans);
      LoopShape(t'.mappings, text, out', lo', ps', dirty || !Clean(t, out, lo, spans))
    decreases |spans|
  {
    if spans == [] {
      lo', ps' := lo, ps;
    } else {
      var r, rest := spans[0], spans[1..];
      RestOfDescending(spans);
      if Skipped(out, r) {
        SkippedRound(t, out, lo, spans);
        lo', ps' := OverlapShows(t, text, out, lo, ps, dirty, rest);
      } else {
        assert ps != [] ==> r.start <= lo by { assert r in spans; }
        AppliedRound(t, out, lo, spans, []);
        var qs := ShapeAfterRound(t, text, out, lo, ps, dirty, r);
        var (t', out') := Cut(t, out, r);
        lo', ps' := OverlapShows(t', text, out', r.start, qs, dirty || r.end > lo, rest);
      }
    }
  }

  /**
    On text without '<' the codec gives back its input exactly when no applied span reaches past
    the start of the one applied before it; malformed and skipped spans do no harm.
   */
  lemma {:induction false} RoundTripIffClean(t: Table, text: string, spans: seq<Span>, final: Table, pairs: Pairs)
    requires Later(t, spans, text, final, pairs) && Bracketed(t)
    requires '<' !in text && Descending(spans) && BracketFreeTypes(spans)
    ensures Replace(pairs, CutAll(t, text, spans).1) == text <==> Clean(t, text, |text|, spans)
  {
    if Clean(t, text, |text|, spans) {
      NoStrayIfNoBracketOutside(final.mappings, text, Applied(t, text, spans));
      CleanRoundTrip(t, text, spans, final, pairs);
    } else {
      assert text == text[..|text|] + Rendered([]);
      var lo, ps := OverlapShows(t, text, text, |text|, [], false, spans);
      var (t', out) := CutAll(t, text, spans);
      PiecesLater(t'.mappings, final.mappings, ps);
      BracketFreeIsInert(final.mappings, text[..lo]);
      DecodeInterleaving(pairs, final.mappings, text[..lo], ps);
    }
  }

  const OVERLAPPING := [Span("T", 2, 4), Span("T", 0, 3)]

  lemma OverlapIsNotClean()
    ensures !Clean(EMPTY, "abcdef", 6, OVERLAPPING)
  {
    var (t', out) := Cut(EMPTY, "abcdef", OVERLAPPING[0]);
    assert |out| >= 6;
    assert OVERLAPPING[1..] == [Span("T", 0, 3)];
    assert !Skipped(out, OVERLAPPING[1..][0]);
    assert !Clean(t', out, 2, OVERLAPPING[1..]);
  }

  lemma {:induction false} NotCleanShows(t: Table, text: string, spans: seq<Span>, pairs: Pairs)
    requires Consistent(t) && Bracketed(t) && '<' !in text && Descending(spans) && BracketFreeTypes(spans)
    requires !Clean(t, text, |text|, spans)
    requires Lists(pairs, CutAll(t, text, spans).0.mappings) && NonEmptyOlds(pairs)
    ensures Replace(pairs, CutAll(t, text, spans).1) != text
  {
    CutAllTable(t, text, spans);
    RoundTripIffClean(t, text, spans, CutAll(t, text, spans).0, pairs);
  }

  /** Two overlapping spans on "abcdef": the second swallows half a placeholder, and it shows. */
  lemma OverlapBreaksRoundTrip(pairs: Pairs)
    requires Lists(pairs, CutAll(EMPTY, "abcdef", OVERLAPPING).0.mappings) && NonEmptyOlds(pairs)
    ensures Replace(pairs, CutAll(EMPTY, "abcdef", OVERLAPPING).1) != "abcdef"
  {
    OverlapIsNotClean();
    NotCleanShows(EMPTY, "abcdef", OVERLAPPING, pairs);
  }

  // ----- whole conversations -----

  /** One message of a reversible Transform; order is the sorted span list it worked through. */
  ghost predicate MessageStep(t: Table, m: Message, answer: Result<seq<Span>>, order: seq<Span>, t': Table,
                              m': Message) {
    && (if m.content == "" then order == [] else answer.Ok? && Sorted(order, answer.value))
    && CutAll(t, m.content, order) == (t', m'.content)
    && m' == m.(content := m'.content)
  }

  /** A Transform call that succeeded, with the table before each message. */
  ghost predicate TransformRun(ts: seq<Table>, msgs: seq<Message>, answers: seq<Result<seq<Span>>>,
                               orders: seq<seq<Span>>, outs: seq<Message>) {
    && |ts| == |msgs| + 1 && |answers| == |orders| == |outs| == |msgs|
    && forall i {:trigger msgs[i]} :: 0 <= i < |msgs|
         ==> MessageStep(ts[i], msgs[i], answers[i], orders[i], ts[i + 1], outs[i])
  }

  ghost predicate TypesOk(answers: seq<Result<seq<Span>>>) {
    forall i :: 0 <= i < |answers| && answers[i].Ok? ==> BracketFreeTypes(answers[i].value)
  }

  lemma OrderTypes(order: seq<Span>, answer: seq<Span>)
    requires multiset(order) == multiset(answer) && BracketFreeTypes(answer)
    ensures BracketFreeTypes(order)
  {
    forall r | r in order
      ensures BracketFree(r.entity)
    {
      SameMembers(order, answer, r);
    }
  }

  lemma StepTables(t: Table, m: Message, answer: Result<seq<Span>>, order: seq<Span>, t': Table, m': Message)
    requires MessageStep(t, m, answer, order, t', m') && (answer.Ok? ==> BracketFreeTypes(answer.value))
    requires Consistent(t) && Bracketed(t)
    ensures Consistent(t') && Bracketed(t') && Extends(t, t')
  {
    if m.content != "" {
      OrderTypes(order, answer.value);
    }
    CutAllTable(t, m.content, order);
  }

  /** Tables along a run are consistent and bracketed and only grow. */
  lemma {:induction false} RunTables(ts: seq<Table>, msgs: seq<Message>, answers: seq<Result<seq<Span>>>,
                                     orders: seq<seq<Span>>, outs: seq<Message>, i: nat, n: nat)
    requires TransformRun(ts, msgs, answers, orders, outs) && TypesOk(answers)
    requires i <= n <= |msgs| && Consistent(ts[i]) && Bracketed(ts[i])
    ensures Consistent(ts[n]) && Bracketed(ts[n]) && Extends(ts[i], ts[n])
    decreases n - i
  {
    if i < n {
      var k := n - 1;
      RunTables(ts, msgs, answers, orders, outs, i, k);
      assert MessageStep(ts[k], msgs[k], answers[k], orders[k], ts[n], outs[k]);
      StepTables(ts[k], msgs[k], answers[k], orders[k], ts[n], outs[k]);
      ExtendsTransitive(ts[i], ts[k], ts[n]);
    }
  }

  lemma ExtendsTransitive(a: Table, b: Table, c: Table)
    requires Extends(a, b) && Extends(b, c)
    ensures Extends(a, c)
  {
  }

  /** The output phase of the same request: a table that extends the run's last one. */
  ghost predicate OutputPhase(last: Table, final: Table, pairs: Pairs) {
    && Extends(last, final) && Consistent(final) && Bracketed(final)
    && Lists(pairs, final.mappings) && NonEmptyOlds(pairs)
  }

  lemma MessageIsLater(ts: seq<Table>, msgs: seq<Message>, answers: seq<Result<seq<Span>>>, orders: seq<seq<Span>>,
                       outs: seq<Message>, final: Table, pairs: Pairs, i: nat)
    requires TransformRun(ts, msgs, answers, orders, outs) && TypesOk(answers)
    requires Consistent(ts[0]) && Bracketed(ts[0])
    requires OutputPhase(ts[|msgs|], final, pairs) && i < |msgs|
    ensures Later(ts[i], orders[i], msgs[i].content, final, pairs) && Bracketed(ts[i])
    ensures CutAll(ts[i], msgs[i].content, orders[i]).1 == outs[i].content
  {
    RunTables(ts, msgs, answers, orders, outs, 0, i);
    RunTables(ts, msgs, answers, orders, outs, 0, i + 1);
    RunTables(ts, msgs, answers, orders, outs, i + 1, |msgs|);
    ExtendsTransitive(ts[i + 1], ts[|msgs|], final);
    assert MessageStep(ts[i], msgs[i], answers[i], orders[i], ts[i + 1], outs[i]);
  }

  /** The spans of an answer do not meet and leave no placeholder of the final table outside them. */
  ghost predicate WellCovered(m: Message, answer: Result<seq<Span>>, final: Table) {
    m.content != "" && answer.Ok? ==>
      && Disjoint(|m.content|, multiset(answer.value))
      && NoStray(final.mappings, m.content, InRangeOnly(|m.content|, answer.value))
  }

  /**
    Every message of the request comes back unchanged under the table the request ends with, also
    the messages that were encoded before later placeholders existed.
   */
  lemma ConversationRoundTrip(ts: seq<Table>, msgs: seq<Message>, answers: seq<Result<seq<Span>>>,
                              orders: seq<seq<Span>>, outs: seq<Message>, final: Table, pairs: Pairs)
    requires TransformRun(ts, msgs, answers, orders, outs) && TypesOk(answers)
    requires Consistent(ts[0]) && Bracketed(ts[0])
    requires OutputPhase(ts[|msgs|], final, pairs)
    requires forall i :: 0 <= i < |msgs| ==> WellCovered(msgs[i], answers[i], final)
    ensures forall i :: 0 <= i < |msgs| ==> outs[i].(content := Replace(pairs, outs[i].content)) == msgs[i]
  {
    forall i | 0 <= i < |msgs|
      ensures outs[i].(content := Replace(pairs, outs[i].content)) == msgs[i]
    {
      MessageIsLater(ts, msgs, answers, orders, outs, final, pairs, i);
      assert MessageStep(ts[i], msgs[i], answers[i], orders[i], ts[i + 1], outs[i]);
      assert WellCovered(msgs[i], answers[i], final);
      if msgs[i].content != "" {
        DisjointRoundTrip(ts[i], msgs[i].content, answers[i].value, orders[i], final, pairs);
      }
    }
  }

  /** The exact condition for conversations without '<': every message's run was clean. */
  lemma {:induction false} ConversationRoundTripIffClean(ts: seq<Table>, msgs: seq<Message>,
    answers: seq<Result<seq<Span>>>, orders: seq<seq<Span>>, outs: seq<Message>, final: Table, pairs: Pairs)
    requires TransformRun(ts, msgs, answers, orders, outs) && TypesOk(answers)
    requires Consistent(ts[0]) && Bracketed(ts[0])
    requires OutputPhase(ts[|msgs|], final, pairs)
    requires forall i :: 0 <= i < |msgs| ==> '<' !in msgs[i].content
    ensures (forall i :: 0 <= i < |msgs| ==> Replace(pairs, outs[i].content) == msgs[i].content)
      <==> (forall i :: 0 <= i < |msgs| ==> Clean(ts[i], msgs[i].content, |msgs[i].content|, orders[i]))
  {
    forall i | 0 <= i < |msgs|
      ensures Replace(pairs, outs[i].content) == msgs[i].content
        <==> Clean(ts[i], msgs[i].content, |msgs[i].content|, orders[i])
    {
      MessageIsLater(ts, msgs, answers, orders, outs, final, pairs, i);
      assert MessageStep(ts[i], msgs[i], answers[i], orders[i], ts[i + 1], outs[i]);
      if msgs[i].content != "" {
        OrderTypes(orders[i], answers[i].value);
        RoundTripIffClean(ts[i], msgs[i].content, orders[i], final, pairs);
      }
    }
  }
}
