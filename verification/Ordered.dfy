/** Listing a finite set in a strict order: the meaning of ORDER BY over distinct keys. */
module Ordered {

  ghost predicate StrictOrder<T(!new)>(less: (T, T) -> bool, s: set<T>) {
    && (forall x :: x in s ==> !less(x, x))
    && (forall x, y :: x in s && y in s && x != y ==> less(x, y) || less(y, x))
    && (forall x, y, z :: x in s && y in s && z in s && less(x, y) && less(y, z) ==> less(x, z))
  }

  ghost predicate Ascending<T>(less: (T, T) -> bool, q: seq<T>) {
    forall i, j :: 0 <= i < j < |q| ==> less(q[i], q[j])
  }

  ghost predicate IsFirst<T(!new)>(less: (T, T) -> bool, s: set<T>, x: T) {
    x in s && forall y :: y in s && y != x ==> less(x, y)
  }

  lemma {:induction false} FirstExists<T(!new)>(less: (T, T) -> bool, s: set<T>)
    requires s != {} && StrictOrder(less, s)
    ensures exists x :: IsFirst(less, s, x)
    decreases s
  {
    var x :| x in s;
    var rest := s - {x};
    assert forall y :: y in s ==> y == x || y in rest;
    if rest == {} {
      assert IsFirst(less, s, x);
    } else {
      FirstExists(less, rest);
      var y :| IsFirst(less, rest, y);
      if less(x, y) {
        assert IsFirst(less, s, x);
      } else {
        assert IsFirst(less, s, y);
      }
    }
  }

  ghost function First<T(!new)>(less: (T, T) -> bool, s: set<T>): (x: T)
    requires s != {} && StrictOrder(less, s)
    ensures IsFirst(less, s, x)
  {
    FirstExists(less, s);
    var x :| IsFirst(less, s, x);
    x
  }

  /** The first limit elements in order. */
  ghost function Take<T(!new)>(less: (T, T) -> bool, s: set<T>, limit: nat): (q: seq<T>)
    requires StrictOrder(less, s)
    ensures forall x :: x in q ==> x in s
    decreases limit
  {
    if limit == 0 || s == {} then []
    else [First(less, s)] + Take(less, s - {First(less, s)}, limit - 1)
  }

  ghost predicate IsTop<T(!new)>(less: (T, T) -> bool, s: set<T>, limit: nat, q: seq<T>) {
    && Ascending(less, q)
    && |q| == (if limit <= |s| then limit else |s|)
    && (forall x :: x in q ==> x in s)
    && (forall x, y :: x in s && x !in q && y in q ==> less(y, x))
    && (|q| < limit ==> forall x :: x in s ==> x in q)
  }

  lemma PutFirst<T(!new)>(less: (T, T) -> bool, s: set<T>, limit: nat, x: T, q: seq<T>)
    requires IsFirst(less, s, x) && limit > 0 && IsTop(less, s - {x}, limit - 1, q)
    ensures IsTop(less, s, limit, [x] + q)
  {
    var r := [x] + q;
    assert forall y :: y in r <==> y == x || y in q;
    assert forall y :: y in s ==> y == x || y in s - {x};
    assert forall i :: 0 < i < |r| ==> r[i] == q[i - 1] && r[i] in q;
  }

  /** Exactly: an ascending list, cut off at the limit, that skips nothing before its end. */
  lemma {:induction false} TakeIsTop<T(!new)>(less: (T, T) -> bool, s: set<T>, limit: nat)
    requires StrictOrder(less, s)
    ensures IsTop(less, s, limit, Take(less, s, limit))
    decreases limit
  {
    if limit > 0 && s != {} {
      var x := First(less, s);
      TakeIsTop(less, s - {x}, limit - 1);
      PutFirst(less, s, limit, x, Take(less, s - {x}, limit - 1));
    }
  }

  ghost predicate ListsAll<T(!new)>(less: (T, T) -> bool, s: set<T>, q: seq<T>) {
    Ascending(less, q) && forall x :: x in q <==> x in s
  }

  lemma RestListsRest<T(!new)>(less: (T, T) -> bool, s: set<T>, q: seq<T>)
    requires StrictOrder(less, s) && ListsAll(less, s, q) && q != []
    ensures IsFirst(less, s, q[0])
    ensures ListsAll(less, s - {q[0]}, q[1..])
  {
    assert forall i :: 0 < i < |q| ==> q[i] == q[1..][i - 1] && less(q[0], q[i]) && q[i] in s;
    assert q == [q[0]] + q[1..];
  }

  /** There is only one ascending list of a set. */
  lemma {:induction false} OneListing<T(!new)>(less: (T, T) -> bool, s: set<T>, p: seq<T>, q: seq<T>)
    requires StrictOrder(less, s) && ListsAll(less, s, p) && ListsAll(less, s, q)
    ensures p == q
    decreases |p|
  {
    assert (p != [] ==> p[0] in s) && (q != [] ==> q[0] in s);
    if p != [] && q != [] {
      RestListsRest(less, s, p);
      RestListsRest(less, s, q);
      assert p[0] == q[0];
      OneListing(less, s - {p[0]}, p[1..], q[1..]);
      assert p == [p[0]] + p[1..] && q == [q[0]] + q[1..];
    }
  }
}
