/**
  The exact condition of the anonymization round trip on the analyzer's answer alone: which spans
  come back whatever the request's table holds and however ties are sorted.
 */
module SpanCondition {
  import opened Placeholders
  import opened Presidio
  import opened Replacer
  import opened RoundTrip
  import opened TransformState
  import opened Transformers

  /** From a replaced span starting at lo on: every well-shaped span ends before the one replaced last. */
  predicate NoneReachesPast(lo: int, spans: seq<Span>) {
    if spans == [] then true
    else if !WellShaped(spans[0]) then NoneReachesPast(lo, spans[1..])
    else spans[0].end <= lo && NoneReachesPast(spans[0].start, spans[1..])
  }

  /** Up to the first span that fits the text of length n nothing is replaced. */
  predicate Chained(n: nat, spans: seq<Span>) {
    if spans == [] then true
    else if InRange(n, spans[0]) then NoneReachesPast(spans[0].start, spans[1..])
    else Chained(n, spans[1..])
  }

  // ----- chained spans run cleanly from every table -----

  lemma {:induction false} RestIsClean(t: Table, out: string, lo: nat, spans: seq<Span>)
    requires lo <= |out| && NoneReachesPast(lo, spans)
    ensures Clean(t, out, lo, spans)
    decreases |spans|
  {
    if spans != [] {
      if WellShaped(spans[0]) {
        var (t', out') := Cut(t, out, spans[0]);
        RestIsClean(t', out', spans[0].start, spans[1..]);
      } else {
        RestIsClean(t, out, lo, spans[1..]);
      }
    }
  }

  lemma {:induction false} ChainedIsClean(t: Table, text: string, spans: seq<Span>)
    requires Chained(|text|, spans)
    ensures Clean(t, text, |text|, spans)
    decreases |spans|
  {
    if spans != [] {
      if InRange(|text|, spans[0]) {
        var (t', out') := Cut(t, text, spans[0]);
        RestIsClean(t', out', spans[0].start, spans[1..]);
      } else {
        ChainedIsClean(t, text, spans[1..]);
      }
    }
  }

  // ----- others do not, from a table with a long placeholder -----

  function Reach(spans: seq<Span>): (n: nat)
    ensures forall r :: r in spans ==> r.end <= n
  {
    if spans == [] then 0
    else
      var rest := Reach(spans[1..]);
      assert spans == [spans[0]] + spans[1..];
      if spans[0].end > rest then spans[0].end else rest
  }

  /** What lies behind lo only grows, so a span that reaches past lo stays within the text and is applied. */
  lemma {:induction false} RestIsNotClean(t: Table, out: string, lo: nat, spans: seq<Span>, n: nat)
    requires lo + n <= |out| && !NoneReachesPast(lo, spans) && forall r :: r in spans ==> r.end <= n
    ensures !Clean(t, out, lo, spans)
    decreases |spans|
  {
    assert spans[0] in spans;
    if !WellShaped(spans[0]) {
      RestIsNotClean(t, out, lo, spans[1..], n);
    } else if spans[0].end <= lo {
      var (t', out') := Cut(t, out, spans[0]);
      RestIsNotClean(t', out', spans[0].start, spans[1..], n);
    }
  }

  function LongType(n: nat): (s: string)
    ensures |s| == n && BracketFree(s)
  {
    seq(n, i => 'A')
  }

  /** A table that has met one original, under a placeholder of more than n characters. */
  function LongTable(n: nat, original: string): Table {
    Table(map[Placeholder(LongType(n), 1) := original], map[LongType(n) := 1])
  }

  lemma LongTableIsGood(n: nat, original: string)
    ensures var t := LongTable(n, original);
      && Consistent(t) && Bracketed(t)
      && original in t.mappings.Values && PlaceholderOf(t.mappings, original) == Placeholder(LongType(n), 1)
  {
    var t, p := LongTable(n, original), Placeholder(LongType(n), 1);
    assert Count(t.counters, LongType(n)) == 1 && Numbered(t.counters, p);
    PlaceholderDelimited(LongType(n), 1);
    assert t.mappings[p] in t.mappings.Values;
  }

  lemma {:induction false} SomeTableIsNotClean(text: string, spans: seq<Span>) returns (t: Table)
    requires !Chained(|text|, spans)
    ensures Consistent(t) && Bracketed(t) && !Clean(t, text, |text|, spans)
    decreases |spans|
  {
    var r, rest := spans[0], spans[1..];
    if InRange(|text|, r) {
      var n := Reach(rest);
      t := LongTable(n, text[r.start..r.end]);
      LongTableIsGood(n, text[r.start..r.end]);
      var (t', out') := Cut(t, text, r);
      assert |Placeholder(LongType(n), 1)| >= n;
      RestIsNotClean(t', out', r.start, rest, n);
    } else {
      t := SomeTableIsNotClean(text, rest);
    }
  }

  ghost predicate ComesBack(text: string, spans: seq<Span>) {
    forall t, final, pairs :: Bracketed(t) && Later(t, spans, text, final, pairs) ==>
      Replace(pairs, CutAll(t, text, spans).1) == text
  }

  /** For one sorted list of spans: text without '<' comes back from every table exactly if the list is chained. */
  lemma {:induction false} ComesBackIffChained(text: string, spans: seq<Span>)
    requires '<' !in text && Descending(spans) && BracketFreeTypes(spans)
    ensures ComesBack(text, spans) <==> Chained(|text|, spans)
  {
    if Chained(|text|, spans) {
      forall t, final, pairs | Bracketed(t) && Later(t, spans, text, final, pairs)
        ensures Replace(pairs, CutAll(t, text, spans).1) == text
      {
        ChainedIsClean(t, text, spans);
        RoundTripIffClean(t, text, spans, final, pairs);
      }
    } else {
      var t := SomeTableIsNotClean(text, spans);
      var final := CutAll(t, text, spans).0;
      CutAllTable(t, text, spans);
      var pairs := SomeListing(final.mappings);
      assert NonEmptyOlds(pairs) by { assert forall i :: 0 <= i < |pairs| ==> Delimited(pairs[i].0); }
      assert Later(t, spans, text, final, pairs);
      RoundTripIffClean(t, text, spans, final, pairs);
    }
  }

  // ----- whatever the order among equal starts -----

  predicate Meet(b: Span, c: Span) {
    !(b.end <= c.start || c.end <= b.start)
  }

  /** No two well-shaped spans meet that start at or before some span that fits the text. */
  ghost predicate Apart(n: nat, spans: multiset<Span>) {
    forall a, b, c ::
      (a in spans && b in spans && c in spans && InRange(n, a) && WellShaped(b) && WellShaped(c)
       && b.start <= a.start && c.start <= a.start && (b != c || spans[b] > 1)) ==> !Meet(b, c)
  }

  lemma FewerApart(n: nat, fewer: multiset<Span>, spans: multiset<Span>)
    requires fewer <= spans && Apart(n, spans)
    ensures Apart(n, fewer)
  {
    assert forall r :: r in fewer ==> r in spans && fewer[r] <= spans[r];
  }

  lemma TwiceInMultiset(s: seq<Span>, i: nat, j: nat)
    requires i < j < |s| && s[i] == s[j]
    ensures multiset(s)[s[i]] > 1
  {
    assert s == s[..j] + s[j..];
    assert multiset(s) == multiset(s[..j]) + multiset(s[j..]);
    assert s[..j][i] in multiset(s[..j]) && s[j..][0] in multiset(s[j..]);
  }

  /** In a descending list the later of two spans that do not meet ends before the earlier. */
  lemma LaterEndsBefore(n: nat, spans: seq<Span>, i: nat, j: nat)
    requires spans != [] && InRange(n, spans[0]) && Descending(spans) && Apart(n, multiset(spans))
    requires i < j < |spans| && WellShaped(spans[i]) && WellShaped(spans[j])
    ensures spans[j].end <= spans[i].start
  {
    var ms := multiset(spans);
    assert spans[0] in ms && spans[i] in ms && spans[j] in ms;
    assert spans[i].start <= spans[0].start && spans[j].start <= spans[i].start;
    if spans[i] == spans[j] {
      TwiceInMultiset(spans, i, j);
    }
    assert !Meet(spans[i], spans[j]);
  }

  ghost predicate LaterFirst(spans: seq<Span>) {
    forall i, j :: 0 <= i < j < |spans| && WellShaped(spans[i]) && WellShaped(spans[j])
      ==> spans[j].end <= spans[i].start
  }

  lemma {:induction false} LaterFirstReaches(lo: int, spans: seq<Span>)
    requires LaterFirst(spans) && forall i :: 0 <= i < |spans| && WellShaped(spans[i]) ==> spans[i].end <= lo
    ensures NoneReachesPast(lo, spans)
    decreases |spans|
  {
    if spans != [] {
      var rest := spans[1..];
      assert forall i :: 0 <= i < |rest| ==> rest[i] == spans[i + 1];
      LaterFirstReaches(if WellShaped(spans[0]) then spans[0].start else lo, rest);
    }
  }

  lemma {:induction false} ApartIsChained(n: nat, spans: seq<Span>)
    requires Descending(spans) && Apart(n, multiset(spans))
    ensures Chained(n, spans)
    decreases |spans|
  {
    if spans != [] {
      var rest := spans[1..];
      if InRange(n, spans[0]) {
        forall i, j | 0 <= i < j < |spans| && WellShaped(spans[i]) && WellShaped(spans[j])
          ensures spans[j].end <= spans[i].start
        {
          LaterEndsBefore(n, spans, i, j);
        }
        assert forall i :: 0 <= i < |rest| ==> rest[i] == spans[i + 1];
        LaterFirstReaches(spans[0].start, rest);
      } else {
        assert multiset(spans) == multiset{spans[0]} + multiset(rest) by { assert spans == [spans[0]] + rest; }
        FewerApart(n, multiset(rest), multiset(spans));
        RestIsDescending(spans);
        ApartIsChained(n, rest);
      }
    }
  }

  lemma {:induction false} NoneReachesApart(lo: int, spans: seq<Span>, i: nat, j: nat)
    requires NoneReachesPast(lo, spans) && i < j < |spans| && WellShaped(spans[i]) && WellShaped(spans[j])
    ensures spans[j].end <= spans[i].start <= lo
    decreases |spans|
  {
    var rest := spans[1..];
    if i > 0 {
      NoneReachesApart(if WellShaped(spans[0]) then spans[0].start else lo, rest, i - 1, j - 1);
    } else {
      NoneReachesBelow(spans[0].start, rest, j - 1);
    }
  }

  lemma {:induction false} NoneReachesBelow(lo: int, spans: seq<Span>, j: nat)
    requires NoneReachesPast(lo, spans) && j < |spans| && WellShaped(spans[j])
    ensures spans[j].end <= lo
    decreases |spans|
  {
    if j > 0 {
      NoneReachesBelow(if WellShaped(spans[0]) then spans[0].start else lo, spans[1..], j - 1);
    }
  }

  lemma {:induction false} ChainedApart(n: nat, spans: seq<Span>, k: nat, i: nat, j: nat)
    requires Chained(n, spans) && k <= i < j < |spans| && InRange(n, spans[k])
    requires WellShaped(spans[i]) && WellShaped(spans[j])
    ensures spans[j].end <= spans[i].start
    decreases |spans|
  {
    if !InRange(n, spans[0]) {
      ChainedApart(n, spans[1..], k - 1, i - 1, j - 1);
    } else if i > 0 {
      NoneReachesApart(spans[0].start, spans[1..], i - 1, j - 1);
    } else {
      NoneReachesBelow(spans[0].start, spans[1..], j - 1);
    }
  }

  /** A sorted order in which a comes first among the spans that start where it does. */
  lemma SortedWithFirst(results: seq<Span>, a: Span) returns (order: seq<Span>, k: nat)
    requires a in results
    ensures Sorted(order, results)
    ensures k < |order| && order[k] == a && forall h :: 0 <= h < k ==> order[h].start > a.start
  {
    var i :| 0 <= i < |results| && results[i] == a;
    var rest := results[..i] + results[i + 1..];
    assert results == results[..i] + [a] + results[i + 1..];
    assert multiset(results) == multiset(rest) + multiset{a};
    InsertSorts(a, SortByStart(rest));
    order := Insert(a, SortByStart(rest));
    k := InsertedFirst(a, SortByStart(rest));
  }

  lemma {:induction false} InsertedFirst(a: Span, spans: seq<Span>) returns (k: nat)
    requires Descending(spans)
    ensures k < |Insert(a, spans)| && Insert(a, spans)[k] == a
    ensures forall h :: 0 <= h < k ==> Insert(a, spans)[h].start > a.start
    decreases |spans|
  {
    if spans == [] || a.start >= spans[0].start {
      k := 0;
    } else {
      RestIsDescending(spans);
      var k' := InsertedFirst(a, spans[1..]);
      k := k' + 1;
    }
  }

  lemma TwoPlacesOfOne(s: seq<Span>, b: Span) returns (i: nat, j: nat)
    requires multiset(s)[b] > 1
    ensures i < j < |s| && s[i] == b && s[j] == b
  {
    assert s == [s[0]] + s[1..];
    assert multiset(s) == multiset{s[0]} + multiset(s[1..]);
    if s[0] == b {
      assert b in multiset(s[1..]);
      var k :| 0 <= k < |s[1..]| && s[1..][k] == b;
      i, j := 0, k + 1;
    } else {
      var i', j' := TwoPlacesOfOne(s[1..], b);
      i, j := i' + 1, j' + 1;
    }
  }

  /** Two places of two spans, or of one that occurs twice. */
  lemma TwoPlaces(s: seq<Span>, b: Span, c: Span) returns (i: nat, j: nat)
    requires b in s && c in s && (b != c || multiset(s)[b] > 1)
    ensures i < j < |s| && ((s[i] == b && s[j] == c) || (s[i] == c && s[j] == b))
  {
    if b != c {
      var p :| 0 <= p < |s| && s[p] == b;
      var q :| 0 <= q < |s| && s[q] == c;
      i, j := if p < q then p else q, if p < q then q else p;
    } else {
      i, j := TwoPlacesOfOne(s, b);
    }
  }

  lemma MeetingIsNotChained(n: nat, results: seq<Span>, a: Span, b: Span, c: Span) returns (order: seq<Span>)
    requires a in results && b in results && c in results && InRange(n, a) && WellShaped(b) && WellShaped(c)
    requires b.start <= a.start && c.start <= a.start && (b != c || multiset(results)[b] > 1) && Meet(b, c)
    ensures Sorted(order, results) && !Chained(n, order)
  {
    var k;
    order, k := SortedWithFirst(results, a);
    assert b in multiset(order) && c in multiset(order);
    var i, j := TwoPlaces(order, b, c);
    assert k <= i;
    if Chained(n, order) {
      ChainedApart(n, order, k, i, j);
    }
  }

  ghost predicate EveryOrderComesBack(text: string, results: seq<Span>) {
    forall order :: Sorted(order, results) ==> ComesBack(text, order)
  }

  /**
    The exact condition on an analyzer's answer: text without '<' comes back from every table and
    under every order of equal starts if and only if no two of the well-shaped spans meet that
    start at or before some span within the text. Malformed spans, and spans too long for the text
    that start behind all others, do no harm.
   */
  lemma AnswerComesBackIff(text: string, results: seq<Span>)
    requires '<' !in text && BracketFreeTypes(results)
    ensures EveryOrderComesBack(text, results) <==> Apart(|text|, multiset(results))
  {
    var n := |text|;
    if Apart(n, multiset(results)) {
      forall order | Sorted(order, results)
        ensures ComesBack(text, order)
      {
        OrderTypes(order, results);
        ApartIsChained(n, order);
        ComesBackIffChained(text, order);
      }
    } else {
      var ms := multiset(results);
      var a, b, c :| a in ms && b in ms && c in ms && InRange(n, a) && WellShaped(b) && WellShaped(c)
        && b.start <= a.start && c.start <= a.start && (b != c || ms[b] > 1) && Meet(b, c);
      var order := MeetingIsNotChained(n, results, a, b, c);
      OrderTypes(order, results);
      ComesBackIffChained(text, order);
      assert Sorted(order, results) && !ComesBack(text, order);
    }
  }

  /** Disjoint spans are apart. */
  lemma DisjointIsApart(n: nat, spans: multiset<Span>)
    requires Disjoint(n, spans)
    ensures Apart(n, spans)
  {
  }

  /** Apart is less: a span too long for the text may meet one that fits, if it starts behind it. */
  lemma ApartIsNotDisjoint()
    ensures var spans := multiset{Span("T", 3, 10), Span("T", 2, 5)}; Apart(6, spans) && !Disjoint(6, spans)
  {
    assert Span("T", 2, 5) in multiset{Span("T", 3, 10), Span("T", 2, 5)};
  }
}
