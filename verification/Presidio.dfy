/** Reversible anonymization: analyzer spans are cut out of a text back to front. */
module Presidio {
  import opened Placeholders
  import opened TransformState

  /** One detection of the analyzer: text[start..end] is an entity of the given type. */
  datatype Span = Span(entity: string, start: int, end: int)

  predicate WellShaped(r: Span) {
    0 <= r.start < r.end
  }

  predicate InRange(n: nat, r: Span) {
    WellShaped(r) && r.end <= n
  }

  /** The loop's bounds check, made against the text as rewritten so far. */
  predicate Skipped(out: string, r: Span) {
    r.start < 0 || r.end > |out| || r.start >= r.end
  }

  ghost predicate Descending(spans: seq<Span>) {
    forall i, j :: 0 <= i < j < |spans| ==> spans[i].start >= spans[j].start
  }

  /** What sort.Slice may return: ties come in any order. */
  ghost predicate Sorted(spans: seq<Span>, results: seq<Span>) {
    multiset(spans) == multiset(results) && Descending(spans)
  }

  /** One round of the loop on a span that passed the check. */
  ghost function Cut(t: Table, out: string, r: Span): (Table, string)
    requires !Skipped(out, r)
  {
    var (t', p) := Allocate(t, r.entity, out[r.start..r.end]);
    (t', out[..r.start] + p + out[r.end..])
  }

  /** The whole loop over the sorted spans. */
  ghost function CutAll(t: Table, out: string, spans: seq<Span>): (Table, string)
    decreases |spans|
  {
    if spans == [] then (t, out)
    else if Skipped(out, spans[0]) then CutAll(t, out, spans[1..])
    else
      var (t', out') := Cut(t, out, spans[0]);
      CutAll(t', out', spans[1..])
  }

  /** The spans the loop applied, in text order. */
  ghost function Applied(t: Table, out: string, spans: seq<Span>): seq<Span>
    decreases |spans|
  {
    if spans == [] then []
    else if Skipped(out, spans[0]) then Applied(t, out, spans[1..])
    else
      var (t', out') := Cut(t, out, spans[0]);
      Applied(t', out', spans[1..]) + [spans[0]]
  }

  /**
    No applied span reaches past the start of the one applied before it. lo is that start, at
    first the length of the text.
   */
  ghost predicate Clean(t: Table, out: string, lo: nat, spans: seq<Span>)
    decreases |spans|
  {
    if spans == [] then true
    else if Skipped(out, spans[0]) then Clean(t, out, lo, spans[1..])
    else
      var (t', out') := Cut(t, out, spans[0]);
      spans[0].end <= lo && Clean(t', out', spans[0].start, spans[1..])
  }

  /** In-range spans meet no other well-shaped span; malformed ones may be anything. */
  ghost predicate Disjoint(n: nat, spans: multiset<Span>) {
    forall a, b :: a in spans && b in spans && InRange(n, a) && WellShaped(b) ==>
      (a == b && spans[a] == 1) || a.end <= b.start || b.end <= a.start
  }

  ghost function InRangeOnly(n: nat, spans: seq<Span>): (r: seq<Span>)
    ensures forall s :: s in r <==> s in spans && InRange(n, s)
  {
    if spans == [] then []
    else (if InRange(n, spans[0]) then [spans[0]] else []) + InRangeOnly(n, spans[1..])
  }

  /** From lo on: spans in text order, apart from each other, each covering a recorded original. */
  ghost predicate Fits(m: map<string, string>, text: string, lo: nat, spans: seq<Span>)
    decreases |spans|
  {
    spans == [] ||
    (var r := spans[0];
     && lo <= r.start < r.end <= |text|
     && text[r.start..r.end] in m.Values
     && Fits(m, text, r.end, spans[1..]))
  }

  /**
    Simultaneous substitution at the original coordinates: from position lo on, every span of the
    text is replaced by the placeholder recorded for what it covers.
   */
  ghost function Substitute(m: map<string, string>, text: string, lo: nat, spans: seq<Span>): string
    requires lo <= |text| && Fits(m, text, lo, spans)
    decreases |spans|
  {
    if spans == [] then text[lo..]
    else
      var r := spans[0];
      text[lo..r.start] + PlaceholderOf(m, text[r.start..r.end]) + Substitute(m, text, r.end, spans[1..])
  }

  /** Later allocations do not disturb a substitution already made. */
  lemma {:induction false} SubstituteStable(t: Table, t': Table, text: string, lo: nat, spans: seq<Span>)
    requires lo <= |text| && Fits(t.mappings, text, lo, spans)
    requires Consistent(t') && Extends(t, t')
    ensures Fits(t'.mappings, text, lo, spans)
    ensures Substitute(t'.mappings, text, lo, spans) == Substitute(t.mappings, text, lo, spans)
    decreases |spans|
  {
    if spans != [] {
      var r := spans[0];
      PlaceholderOfStable(t, t', PlaceholderOf(t.mappings, text[r.start..r.end]));
      SubstituteStable(t, t', text, r.end, spans[1..]);
    }
  }

  /** Up to the first span a substitution is the text itself. */
  lemma FitsLater(m: map<string, string>, text: string, lo: nat, lo': nat, spans: seq<Span>)
    requires lo <= lo' <= First(text, spans) <= |text| && Fits(m, text, lo, spans)
    ensures Fits(m, text, lo', spans)
    ensures Substitute(m, text, lo, spans) == text[lo..lo'] + Substitute(m, text, lo', spans)
  {
    if spans != [] {
      assert text[lo..spans[0].start] == text[lo..lo'] + text[lo'..spans[0].start];
    }
  }

  /** Where the first span starts; everything before it is untouched. */
  function First(text: string, spans: seq<Span>): int {
    if spans == [] then |text| else spans[0].start
  }

  /** The table part of the loop: consistent, only growing, and bracketed if the types are bracket-free. */
  lemma {:induction false} CutAllTable(t: Table, out: string, spans: seq<Span>)
    requires Consistent(t)
    ensures Consistent(CutAll(t, out, spans).0) && Extends(t, CutAll(t, out, spans).0)
    ensures Bracketed(t) && (forall r :: r in spans ==> BracketFree(r.entity)) ==> Bracketed(CutAll(t, out, spans).0)
    decreases |spans|
  {
    if spans != [] {
      if Skipped(out, spans[0]) {
        CutAllTable(t, out, spans[1..]);
      } else {
        var r := spans[0];
        var (t', out') := Cut(t, out, r);
        AllocateStep(t, r.entity, out[r.start..r.end]);
        if Bracketed(t) && BracketFree(r.entity) {
          AllocateBracketed(t, r.entity, out[r.start..r.end]);
        }
        CutAllTable(t', out', spans[1..]);
      }
    }
  }

  lemma {:induction false} OneCut(t: Table, text: string, out: string, done: seq<Span>, r: Span)
    requires Consistent(t)
    requires Fits(t.mappings, text, 0, done) && out == Substitute(t.mappings, text, 0, done)
    requires WellShaped(r) && r.end <= First(text, done)
    ensures !Skipped(out, r)
    ensures var (t', out') := Cut(t, out, r);
      && Consistent(t')
      && Fits(t'.mappings, text, 0, [r] + done)
      && out' == Substitute(t'.mappings, text, 0, [r] + done)
  {
    FitsLater(t.mappings, text, 0, r.end, done);
    // out agrees with text up to r.end, and from there on it is a substitution of its own
    var tail := Substitute(t.mappings, text, r.end, done);
    assert out == text[..r.end] + tail;
    CutParts(out, text, tail, r);
    var original := text[r.start..r.end];
    var (t', p) := Allocate(t, r.entity, original);
    AllocateStep(t, r.entity, original);
    SubstituteStable(t, t', text, r.end, done);
    assert PlaceholderOf(t'.mappings, original) == p by { PlaceholderOfStable(t', t', p); }
    assert ([r] + done)[1..] == done;
    assert text[0..r.start] == text[..r.start];
  }

  lemma CutParts(out: string, text: string, tail: string, r: Span)
    requires WellShaped(r) && r.end <= |text| && out == text[..r.end] + tail
    ensures out[r.start..r.end] == text[r.start..r.end]
    ensures out[..r.start] == text[..r.start]
    ensures out[r.end..] == tail
  {
  }

  /** One round on a span that is skipped. */
  lemma SkippedRound(t: Table, out: string, lo: nat, spans: seq<Span>)
    requires spans != [] && Skipped(out, spans[0])
    ensures CutAll(t, out, spans) == CutAll(t, out, spans[1..]) && Applied(t, out, spans) == Applied(t, out, spans[1..])
    ensures Clean(t, out, lo, spans) <==> Clean(t, out, lo, spans[1..])
  {
  }

  /** One round on a span that is applied. */
  lemma AppliedRound(t: Table, out: string, lo: nat, spans: seq<Span>, done: seq<Span>)
    requires spans != [] && !Skipped(out, spans[0])
    ensures var (t', out') := Cut(t, out, spans[0]);
      && CutAll(t, out, spans) == CutAll(t', out', spans[1..])
      && Applied(t, out, spans) + done == Applied(t', out', spans[1..]) + ([spans[0]] + done)
      && (Clean(t, out, lo, spans) <==> spans[0].end <= lo && Clean(t', out', spans[0].start, spans[1..]))
  {
  }

  /**
    The back-to-front loop on a clean run is one simultaneous substitution at the original
    coordinates: no replacement disturbs the bounds check or the slices of a later one.
   */
  lemma {:induction false} CleanIsSubstitution(t: Table, text: string, out: string, done: seq<Span>, spans: seq<Span>)
    requires Consistent(t)
    requires Fits(t.mappings, text, 0, done) && out == Substitute(t.mappings, text, 0, done)
    requires 0 <= First(text, done) <= |text| && Clean(t, out, First(text, done), spans)
    ensures var vs := Applied(t, out, spans) + done;
      var (t', out') := CutAll(t, out, spans);
      Fits(t'.mappings, text, 0, vs) && out' == Substitute(t'.mappings, text, 0, vs)
    decreases |spans|
  {
    if spans == [] {
      assert Applied(t, out, spans) + done == done;
    } else if Skipped(out, spans[0]) {
      SkippedRound(t, out, First(text, done), spans);
      CleanIsSubstitution(t, text, out, done, spans[1..]);
    } else {
      var r := spans[0];
      OneCut(t, text, out, done, r);
      AppliedRound(t, out, First(text, done), spans, done);
      var (t', out') := Cut(t, out, r);
      CleanIsSubstitution(t', text, out', [r] + done, spans[1..]);
    }
  }

  /** The remaining spans end before what was already replaced; at first only in-range ones need to. */
  ghost predicate Before(text: string, done: seq<Span>, spans: seq<Span>) {
    forall r :: r in spans && WellShaped(r) && (InRange(|text|, r) || done != []) ==> r.end <= First(text, done)
  }

  lemma RestIsBefore(text: string, spans: seq<Span>, done: seq<Span>)
    requires spans != [] && InRange(|text|, spans[0])
    requires Descending(spans) && Disjoint(|text|, multiset(spans))
    ensures Before(text, [spans[0]] + done, spans[1..])
  {
    var r, rest := spans[0], spans[1..];
    assert multiset(spans) == multiset{r} + multiset(rest) by { assert spans == [r] + rest; }
    forall b | b in rest && WellShaped(b)
      ensures b.end <= r.start
    {
      var i :| 0 <= i < |rest| && rest[i] == b;
      assert spans[0].start >= spans[i + 1].start;
      assert r in multiset(spans) && b in multiset(rest) && b in multiset(spans);
    }
  }

  lemma FewerIsDisjoint(n: nat, fewer: multiset<Span>, spans: multiset<Span>)
    requires fewer <= spans && Disjoint(n, spans)
    ensures Disjoint(n, fewer)
  {
    forall a, b | a in fewer && b in fewer && InRange(n, a) && WellShaped(b)
      ensures (a == b && fewer[a] == 1) || a.end <= b.start || b.end <= a.start
    {
      assert a in spans && b in spans && fewer[a] <= spans[a];
    }
  }

  lemma RestIsDescending(spans: seq<Span>)
    requires spans != [] && Descending(spans)
    ensures Descending(spans[1..])
  {
    assert forall i :: 0 <= i < |spans[1..]| ==> spans[1..][i] == spans[i + 1];
  }

  lemma RestIsDisjoint(n: nat, spans: seq<Span>)
    requires spans != [] && Descending(spans) && Disjoint(n, multiset(spans))
    ensures Descending(spans[1..]) && Disjoint(n, multiset(spans[1..]))
  {
    assert multiset(spans) == multiset{spans[0]} + multiset(spans[1..]) by { assert spans == [spans[0]] + spans[1..]; }
    FewerIsDisjoint(n, multiset(spans[1..]), multiset(spans));
    RestIsDescending(spans);
  }

  /** One round more: a span that ends before what was replaced so far is applied, cleanly. */
  lemma OneMoreRound(t: Table, n: nat, out: string, lo: nat, spans: seq<Span>)
    requires spans != [] && InRange(n, spans[0]) && !Skipped(out, spans[0]) && spans[0].end <= lo
    requires var (t', out') := Cut(t, out, spans[0]);
      && Clean(t', out', spans[0].start, spans[1..])
      && multiset(Applied(t', out', spans[1..])) == multiset(InRangeOnly(n, spans[1..]))
    ensures Clean(t, out, lo, spans)
    ensures multiset(Applied(t, out, spans)) == multiset(InRangeOnly(n, spans))
  {
  }

  lemma OutOfRangeIsSkipped(m: map<string, string>, text: string, out: string, done: seq<Span>, spans: seq<Span>)
    requires Fits(m, text, 0, done) && out == Substitute(m, text, 0, done)
    requires 0 <= First(text, done) <= |text| && spans != [] && Before(text, done, spans) && !InRange(|text|, spans[0])
    ensures Skipped(out, spans[0])
    ensures Before(text, done, spans[1..])
  {
    var r := spans[0];
    assert r in spans;
    assert done == [] ==> out == text;
    assert WellShaped(r) && done != [] ==> r.end <= First(text, done);
  }

  /** Disjoint spans, in any input order, make every run clean and exactly the in-range ones apply. */
  lemma {:induction false} DisjointIsClean(t: Table, text: string, out: string, done: seq<Span>, spans: seq<Span>)
    requires Consistent(t)
    requires Fits(t.mappings, text, 0, done) && out == Substitute(t.mappings, text, 0, done)
    requires 0 <= First(text, done) <= |text|
    requires Descending(spans) && Disjoint(|text|, multiset(spans)) && Before(text, done, spans)
    ensures Clean(t, out, First(text, done), spans)
    ensures multiset(Applied(t, out, spans)) == multiset(InRangeOnly(|text|, spans))
    decreases |spans|
  {
    if spans != [] {
      var r, rest := spans[0], spans[1..];
      RestIsDisjoint(|text|, spans);
      if InRange(|text|, r) {
        assert r.end <= First(text, done) by { assert r in spans; }
        OneCut(t, text, out, done, r);
        RestIsBefore(text, spans, done);
        var (t', out') := Cut(t, out, r);
        DisjointIsClean(t', text, out', [r] + done, rest);
        OneMoreRound(t, |text|, out, First(text, done), spans);
      } else {
        OutOfRangeIsSkipped(t.mappings, text, out, done, spans);
        DisjointIsClean(t, text, out, done, rest);
      }
    }
  }
}
