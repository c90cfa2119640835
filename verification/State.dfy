/** The per-request table of placeholders and originals, and what every run of allocations keeps. */
module TransformState {
  import opened Placeholders

  /** The value of a State object: placeholder -> original, entity type -> last number used. */
  datatype Table = Table(mappings: map<string, string>, counters: map<string, nat>)

  const EMPTY := Table(map[], map[])

  function Count(counters: map<string, nat>, entity: string): nat {
    if entity in counters then counters[entity] else 0
  }

  ghost predicate Injective(m: map<string, string>) {
    forall p, q :: p in m && q in m && m[p] == m[q] ==> p == q
  }

  /** Keys are exactly the placeholders numbered 1..counter, and no original has two of them. */
  ghost predicate Consistent(t: Table) {
    && Injective(t.mappings)
    && (forall e, n :: 1 <= n <= Count(t.counters, e) ==> Placeholder(e, n) in t.mappings)
    && (forall p :: p in t.mappings ==> Numbered(t.counters, p))
  }

  ghost predicate Numbered(counters: map<string, nat>, p: string) {
    exists e, n :: 1 <= n <= Count(counters, e) && p == Placeholder(e, n)
  }

  /** Every placeholder has brackets only at its ends: what bracket-free entity types give. */
  ghost predicate Bracketed(t: Table) {
    forall p :: p in t.mappings ==> Delimited(p)
  }

  ghost predicate Extends(t: Table, t': Table) {
    forall p :: p in t.mappings ==> p in t'.mappings && t'.mappings[p] == t.mappings[p]
  }

  /** The placeholder recorded for an original; unique when the table is injective. */
  ghost function PlaceholderOf(m: map<string, string>, original: string): (p: string)
    requires original in m.Values
    ensures p in m && m[p] == original
  {
    var p :| p in m && m[p] == original;
    p
  }

  ghost function Allocate(t: Table, entity: string, original: string): (Table, string) {
    if original in t.mappings.Values then
      (t, PlaceholderOf(t.mappings, original))
    else
      var n := Count(t.counters, entity) + 1;
      var p := Placeholder(entity, n);
      (Table(t.mappings[p := original], t.counters[entity := n]), p)
  }

  lemma FoundAgain(m: map<string, string>, p: string)
    requires Injective(m) && p in m
    ensures m[p] in m.Values && PlaceholderOf(m, m[p]) == p
  {
  }

  lemma NextIsNew(t: Table, entity: string)
    requires Consistent(t)
    ensures Placeholder(entity, Count(t.counters, entity) + 1) !in t.mappings
  {
    var n := Count(t.counters, entity) + 1;
    var p := Placeholder(entity, n);
    if p in t.mappings {
      assert Numbered(t.counters, p);
      var e, k :| 1 <= k <= Count(t.counters, e) && p == Placeholder(e, k);
      PlaceholderInjective(entity, n, e, k);
    }
  }

  lemma StillNumbered(counters: map<string, nat>, entity: string, p: string)
    requires Numbered(counters, p)
    ensures Numbered(counters[entity := Count(counters, entity) + 1], p)
  {
    var e, k :| 1 <= k <= Count(counters, e) && p == Placeholder(e, k);
    assert k <= Count(counters[entity := Count(counters, entity) + 1], e);
  }

  lemma AllocateStep(t: Table, entity: string, original: string)
    requires Consistent(t)
    ensures var (t', p) := Allocate(t, entity, original);
      && Consistent(t')
      && Extends(t, t')
      && p in t'.mappings
      && t'.mappings[p] == original
      && (original !in t.mappings.Values ==> p !in t.mappings)
  {
    if original !in t.mappings.Values {
      var (t', p) := Allocate(t, entity, original);
      var n := Count(t.counters, entity) + 1;
      NextIsNew(t, entity);
      assert n == Count(t'.counters, entity) && Numbered(t'.counters, p);
      forall q | q in t'.mappings
        ensures Numbered(t'.counters, q)
      {
        if q != p {
          StillNumbered(t.counters, entity, q);
        }
      }
      assert Injective(t'.mappings) by {
        forall q | q in t.mappings
          ensures t.mappings[q] in t.mappings.Values
        {
        }
      }
      forall e, k | 1 <= k <= Count(t'.counters, e)
        ensures Placeholder(e, k) in t'.mappings
      {
        assert e != entity ==> Count(t'.counters, e) == Count(t.counters, e);
        assert k < n || e != entity ==> 1 <= k <= Count(t.counters, e);
      }
    }
  }

  lemma AllocateBracketed(t: Table, entity: string, original: string)
    requires Bracketed(t) && BracketFree(entity)
    ensures Bracketed(Allocate(t, entity, original).0)
  {
    PlaceholderDelimited(entity, Count(t.counters, entity) + 1);
  }

  /** A recorded original keeps its placeholder in every later table. */
  lemma PlaceholderOfStable(t: Table, t': Table, p: string)
    requires Consistent(t') && Extends(t, t') && p in t.mappings
    ensures t.mappings[p] in t'.mappings.Values
    ensures PlaceholderOf(t'.mappings, t.mappings[p]) == p
  {
    assert t'.mappings[p] == t.mappings[p];
  }

  // ----- runs of allocations -----

  datatype Call = Call(entity: string, original: string)

  ghost function AllocateAll(t: Table, calls: seq<Call>): (Table, seq<string>) {
    if calls == [] then (t, [])
    else
      var n := |calls| - 1;
      var (t1, ps) := AllocateAll(t, calls[..n]);
      var (t2, p) := Allocate(t1, calls[n].entity, calls[n].original);
      (t2, ps + [p])
  }

  /** The i-th answer is bound to the i-th original. */
  ghost predicate Names(t: Table, calls: seq<Call>, ps: seq<string>) {
    |ps| == |calls| && forall i :: 0 <= i < |calls| ==> ps[i] in t.mappings && t.mappings[ps[i]] == calls[i].original
  }

  /** What a run has kept, kept by one more call. */
  ghost predicate RunKept(t: Table, t': Table, calls: seq<Call>, ps: seq<string>) {
    Consistent(t') && Extends(t, t') && Names(t', calls, ps)
  }

  lemma OneCallMore(t: Table, t1: Table, calls: seq<Call>, ps: seq<string>, call: Call)
    requires RunKept(t, t1, calls, ps)
    ensures var (t2, p) := Allocate(t1, call.entity, call.original); RunKept(t, t2, calls + [call], ps + [p])
  {
    AllocateStep(t1, call.entity, call.original);
  }

  /** Over any run: nothing is rebound, and the i-th answer names the i-th original for good. */
  lemma {:induction false} AllocationRun(t: Table, calls: seq<Call>)
    requires Consistent(t)
    ensures var (t', ps) := AllocateAll(t, calls); RunKept(t, t', calls, ps)
  {
    if calls != [] {
      var front, call := calls[..|calls| - 1], calls[|calls| - 1];
      AllocationRun(t, front);
      var (t1, ps) := AllocateAll(t, front);
      OneCallMore(t, t1, front, ps, call);
      assert front + [call] == calls;
    }
  }

  /** Two calls of a run get the same placeholder exactly when they carry the same original. */
  lemma {:induction false} SamePlaceholderIffSameOriginal(t: Table, calls: seq<Call>, i: nat, j: nat)
    requires Consistent(t) && i < |calls| && j < |calls|
    ensures |AllocateAll(t, calls).1| == |calls|
    ensures AllocateAll(t, calls).1[i] == AllocateAll(t, calls).1[j] <==> calls[i].original == calls[j].original
  {
    AllocationRun(t, calls);
    var (t', ps) := AllocateAll(t, calls);
    assert t'.mappings[ps[i]] == calls[i].original && t'.mappings[ps[j]] == calls[j].original;
  }

  /** The i-th call is the first of the run to carry its original. */
  ghost predicate FirstOfOriginal(calls: seq<Call>, i: int)
    requires 0 <= i < |calls|
  {
    forall k :: 0 <= k < i ==> calls[k].original != calls[i].original
  }

  /** Calls of one type that carry a new original. */
  ghost function NewOfType(calls: seq<Call>, entity: string): nat {
    if calls == [] then 0
    else
      var n := |calls| - 1;
      NewOfType(calls[..n], entity) + (if FirstOfOriginal(calls, n) && calls[n].entity == entity then 1 else 0)
  }

  /** What one call adds to the recorded originals and to the counter of its type. */
  lemma AllocateAdds(t: Table, entity: string, original: string)
    requires Consistent(t)
    ensures var t' := Allocate(t, entity, original).0;
      && (forall x :: x in t'.mappings.Values <==> x in t.mappings.Values || x == original)
      && forall e ::
        Count(t'.counters, e) == Count(t.counters, e) + (if original !in t.mappings.Values && e == entity then 1 else 0)
  {
    var (t', p) := Allocate(t, entity, original);
    AllocateStep(t, entity, original);
    forall x | x in t.mappings.Values
      ensures x in t'.mappings.Values
    {
      var q :| q in t.mappings && t.mappings[q] == x;
      assert t'.mappings[q] == x;
    }
  }

  ghost predicate Carried(calls: seq<Call>, x: string) {
    exists k :: 0 <= k < |calls| && calls[k].original == x
  }

  lemma CarriedOneMore(calls: seq<Call>, x: string)
    requires calls != []
    ensures var n := |calls| - 1;
      && (Carried(calls, x) <==> Carried(calls[..n], x) || x == calls[n].original)
      && (FirstOfOriginal(calls, n) <==> !Carried(calls[..n], calls[n].original))
  {
    var n := |calls| - 1;
    assert forall k :: 0 <= k < n ==> calls[..n][k] == calls[k];
    if k :| 0 <= k < n && calls[k].original == x {
      assert calls[..n][k].original == x;
    }
  }

  ghost predicate CountsNew(t: Table, calls: seq<Call>) {
    && (forall x :: x in t.mappings.Values <==> Carried(calls, x))
    && forall e :: Count(t.counters, e) == NewOfType(calls, e)
  }

  lemma CountsNewNext(t: Table, calls: seq<Call>)
    requires calls != [] && Consistent(t) && CountsNew(t, calls[..|calls| - 1])
    ensures CountsNew(Allocate(t, calls[|calls| - 1].entity, calls[|calls| - 1].original).0, calls)
  {
    var call := calls[|calls| - 1];
    AllocateAdds(t, call.entity, call.original);
    forall x { CarriedOneMore(calls, x); }
  }

  /** In a fresh state the recorded originals are those of the calls, and the counters count the new ones by type. */
  lemma {:induction false} CountersCountNew(calls: seq<Call>)
    ensures Consistent(AllocateAll(EMPTY, calls).0) && CountsNew(AllocateAll(EMPTY, calls).0, calls)
  {
    AllocationRun(EMPTY, calls);
    if calls != [] {
      var front := calls[..|calls| - 1];
      CountersCountNew(front);
      CountsNewNext(AllocateAll(EMPTY, front).0, calls);
    }
  }

  lemma {:induction false} OneAnswerEach(t: Table, calls: seq<Call>)
    ensures |AllocateAll(t, calls).1| == |calls|
  {
    if calls != [] {
      OneAnswerEach(t, calls[..|calls| - 1]);
    }
  }

  lemma NextNumber(t: Table, calls: seq<Call>)
    requires calls != [] && FirstOfOriginal(calls, |calls| - 1) && CountsNew(t, calls[..|calls| - 1])
    ensures var call := calls[|calls| - 1];
      Allocate(t, call.entity, call.original).1
        == Placeholder(call.entity, NewOfType(calls[..|calls| - 1], call.entity) + 1)
  {
    CarriedOneMore(calls, calls[|calls| - 1].original);
  }

  ghost predicate NumberedAt(calls: seq<Call>, ps: seq<string>, i: nat)
    requires i < |calls|
  {
    i < |ps| && ps[i] == Placeholder(calls[i].entity, NewOfType(calls[..i], calls[i].entity) + 1)
  }

  /** In a fresh state the placeholder of a new original carries its type and the next number of that type. */
  lemma {:induction false} NumberedInOrder(calls: seq<Call>, i: nat)
    requires i < |calls| && FirstOfOriginal(calls, i)
    ensures NumberedAt(calls, AllocateAll(EMPTY, calls).1, i)
    decreases |calls|
  {
    var n := |calls| - 1;
    var front := calls[..n];
    OneAnswerEach(EMPTY, front);
    if i < n {
      NumberedInOrder(front, i);
      assert front[..i] == calls[..i];
    } else {
      CountersCountNew(front);
      NextNumber(AllocateAll(EMPTY, front).0, calls);
    }
  }

  // ----- counters and mappings agree in number -----

  ghost function Total(counters: map<string, nat>): nat {
    if counters == map[] then 0
    else
      var e :| e in counters;
      counters[e] + Total(counters - {e})
  }

  lemma {:induction false} TotalSplit(counters: map<string, nat>, e: string)
    requires e in counters
    ensures Total(counters) == counters[e] + Total(counters - {e})
    decreases |counters|
  {
    var k :| k in counters && Total(counters) == counters[k] + Total(counters - {k});
    if k != e {
      assert |counters - {k}| < |counters| by { SmallerDomain(counters, k); }
      assert |counters - {e}| < |counters| by { SmallerDomain(counters, e); }
      TotalSplit(counters - {k}, e);
      TotalSplit(counters - {e}, k);
      assert counters - {k} - {e} == counters - {e} - {k};
    }
  }

  lemma SmallerDomain(counters: map<string, nat>, e: string)
    requires e in counters
    ensures |counters - {e}| < |counters|
  {
    assert (counters - {e}).Keys == counters.Keys - {e};
    assert |(counters - {e}).Keys| < |counters.Keys|;
  }

  lemma TotalUpdate(counters: map<string, nat>, e: string, n: nat)
    ensures Total(counters[e := n]) + Count(counters, e) == Total(counters) + n
  {
    TotalSplit(counters[e := n], e);
    assert counters[e := n] - {e} == counters - {e};
    if e in counters {
      TotalSplit(counters, e);
    } else {
      assert counters - {e} == counters;
    }
  }

  lemma AllocateCounts(t: Table, entity: string, original: string)
    requires Consistent(t) && Total(t.counters) == |t.mappings|
    ensures var t' := Allocate(t, entity, original).0; Total(t'.counters) == |t'.mappings|
  {
    if original !in t.mappings.Values {
      var n := Count(t.counters, entity) + 1;
      assert Placeholder(entity, n) !in t.mappings by { AllocateStep(t, entity, original); }
      TotalUpdate(t.counters, entity, n);
      OneMore(t.mappings, Placeholder(entity, n), original);
    }
  }

  lemma OneMore(m: map<string, string>, p: string, original: string)
    requires p !in m
    ensures |m[p := original]| == |m| + 1
  {
    assert m[p := original].Keys == m.Keys + {p};
  }

  /** In every table reached from the empty one the counters sum to the number of mappings. */
  lemma {:induction false} CountersSumToMappings(t: Table, calls: seq<Call>)
    requires Consistent(t) && Total(t.counters) == |t.mappings|
    ensures var t' := AllocateAll(t, calls).0; Total(t'.counters) == |t'.mappings|
  {
    if calls != [] {
      var n := |calls| - 1;
      CountersSumToMappings(t, calls[..n]);
      AllocationRun(t, calls[..n]);
      AllocateCounts(AllocateAll(t, calls[..n]).0, calls[n].entity, calls[n].original);
    }
  }

  // ----- the object -----

  class State {
    var mappings: map<string, string>
    var counters: map<string, nat>

    ghost function View(): Table
      reads this
    {
      Table(mappings, counters)
    }

    ghost predicate Valid()
      reads this
    {
      Consistent(View())
    }

    constructor ()
      ensures Valid() && View() == EMPTY
    {
      mappings, counters := map[], map[];
    }

    /** Scans the mappings in an arbitrary order before allocating a new number. */
    method AllocatePlaceholder(entity: string, original: string) returns (p: string)
      requires Valid()
      modifies this
      ensures Valid()
      ensures (View(), p) == Allocate(old(View()), entity, original)
      ensures Extends(old(View()), View()) && p in mappings && mappings[p] == original
    {
      ghost var t := View();
      AllocateStep(t, entity, original);
      var todo := mappings.Keys;
      while todo != {}
        invariant todo <= mappings.Keys && View() == t
        invariant forall q :: q in mappings && mappings[q] == original ==> q in todo
        decreases todo
      {
        var q :| q in todo;
        if mappings[q] == original {
          FoundAgain(t.mappings, q);
          return q;
        }
        todo := todo - {q};
      }
      var n := (if entity in counters then counters[entity] else 0) + 1;
      counters := counters[entity := n];
      p := Placeholder(entity, n);
      mappings := mappings[p := original];
    }

    method Mappings() returns (out: map<string, string>)
      ensures out == View().mappings
    {
      out := mappings;
    }

    method Len() returns (n: nat)
      ensures n == |View().mappings|
    {
      n := |mappings|;
    }
  }
}
