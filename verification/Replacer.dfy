/**
  strings.NewReplacer(pairs...).Replace as the Go library documents it: the text is read left to
  right, at each position the old strings are tried in argument order, matches do not overlap and
  inserted text is not read again. Old strings are non-empty here, as every placeholder is.
 */
module Replacer {
  import opened Placeholders
  import opened Wrappers

  type Pairs = seq<(string, string)>

  predicate NonEmptyOlds(pairs: Pairs) {
    forall i :: 0 <= i < |pairs| ==> pairs[i].0 != ""
  }

  /** The first pair in argument order whose old string starts s. */
  function FirstMatch(pairs: Pairs, s: string): (r: Option<(string, string)>)
    ensures r.Some? ==> r.value in pairs && r.value.0 <= s
    ensures r.None? ==> forall i :: 0 <= i < |pairs| ==> !(pairs[i].0 <= s)
  {
    if pairs == [] then None
    else if pairs[0].0 <= s then Some(pairs[0])
    else FirstMatch(pairs[1..], s)
  }

  function Replace(pairs: Pairs, s: string): string
    requires NonEmptyOlds(pairs)
    decreases |s|
  {
    if s == "" then ""
    else match FirstMatch(pairs, s)
      case Some(pair) => pair.1 + Replace(pairs, s[|pair.0|..])
      case None => s[..1] + Replace(pairs, s[1..])
  }

  /** pairs lists the entries of m, each at least once, in some order. */
  ghost predicate Lists(pairs: Pairs, m: map<string, string>) {
    && (forall i :: 0 <= i < |pairs| ==> pairs[i].0 in m && pairs[i].1 == m[pairs[i].0])
    && (forall p :: p in m ==> (p, m[p]) in pairs)
  }

  ghost predicate AllDelimited(m: map<string, string>) {
    forall p :: p in m ==> Delimited(p)
  }

  /** No key is a proper prefix of another. */
  ghost predicate PrefixFreeKeys(keys: set<string>) {
    forall p, q :: p in keys && q in keys && p <= q ==> p == q
  }

  lemma DelimitedKeys(m: map<string, string>)
    requires AllDelimited(m)
    ensures PrefixFreeKeys(m.Keys)
  {
    forall p, q | p in m.Keys && q in m.Keys && p <= q
      ensures p == q
    {
      DelimitedIsClosed(p);
      DelimitedIsClosed(q);
      PrefixFree(p, q);
    }
  }

  ghost predicate Occurs(p: string, s: string, i: int) {
    0 <= i && i + |p| <= |s| && s[i..i + |p|] == p
  }

  /** No placeholder of m occurs anywhere in s. */
  ghost predicate Inert(m: map<string, string>, s: string) {
    forall p, i :: p in m ==> !Occurs(p, s, i)
  }

  lemma BracketFreeIsInert(m: map<string, string>, s: string)
    requires AllDelimited(m) && '<' !in s
    ensures Inert(m, s)
  {
    forall p, i | p in m
      ensures !Occurs(p, s, i)
    {
      assert Delimited(p);
      if 0 <= i && i + |p| <= |s| {
        assert s[i..i + |p|][0] == s[i];
      }
    }
  }

  lemma InertTail(m: map<string, string>, s: string)
    requires Inert(m, s) && s != ""
    ensures Inert(m, s[1..])
  {
    forall p, i | p in m
      ensures !Occurs(p, s[1..], i)
    {
      assert !Occurs(p, s, i + 1);
      if 0 <= i && i + |p| <= |s| - 1 {
        assert s[1..][i..i + |p|] == s[i + 1..i + 1 + |p|];
      }
    }
  }

  /** With prefix-free keys at most one key starts a text, so listing order cannot matter there. */
  lemma MatchAtPlaceholder(pairs: Pairs, m: map<string, string>, p: string, rest: string)
    requires Lists(pairs, m) && PrefixFreeKeys(m.Keys) && p in m
    ensures FirstMatch(pairs, p + rest) == Some((p, m[p]))
  {
    var s := p + rest;
    assert p <= s;
    var k :| 0 <= k < |pairs| && pairs[k] == (p, m[p]);
    assert pairs[k].0 <= s;
    var q := FirstMatch(pairs, s).value.0;
    assert p == s[..|p|] && q == s[..|q|];
    assert p <= q || q <= p;
  }

  lemma NotAtLiteral(p: string, lit: string, rest: string)
    requires Delimited(p) && lit != "" && !Occurs(p, lit, 0)
    requires rest == "" || rest[0] == '<'
    ensures !(p <= lit + rest)
  {
    var s := lit + rest;
    // a key running past the literal would contain the '<' of rest, and keys have none inside
    assert forall i :: 0 < i < |p| - 1 ==> p[i] == p[1..|p| - 1][i - 1];
    if |p| <= |lit| {
      assert s[..|p|] == lit[0..|p|];
    } else if rest != "" {
      assert s[|lit|] == '<';
    }
  }

  lemma {:induction false} NoMatchInLiteral(pairs: Pairs, m: map<string, string>, lit: string, rest: string)
    requires Lists(pairs, m) && AllDelimited(m) && Inert(m, lit) && lit != ""
    requires rest == "" || rest[0] == '<'
    ensures FirstMatch(pairs, lit + rest).None?
  {
    forall i | 0 <= i < |pairs|
      ensures !(pairs[i].0 <= lit + rest)
    {
      assert !Occurs(pairs[i].0, lit, 0);
      NotAtLiteral(pairs[i].0, lit, rest);
    }
  }

  lemma FirstThenRest(a: string, b: string)
    requires a != ""
    ensures (a + b)[..1] == a[..1] && (a + b)[1..] == a[1..] + b && a[..1] + (a[1..] + b) == a + b
  {
  }

  /** Literal text is copied through, up to the next '<'. */
  lemma {:induction false} ReplaceLiteral(pairs: Pairs, m: map<string, string>, lit: string, rest: string)
    requires Lists(pairs, m) && AllDelimited(m) && Inert(m, lit) && NonEmptyOlds(pairs)
    requires rest == "" || rest[0] == '<'
    ensures Replace(pairs, lit + rest) == lit + Replace(pairs, rest)
    decreases |lit|
  {
    if lit == "" {
      assert lit + rest == rest;
    } else {
      NoMatchInLiteral(pairs, m, lit, rest);
      InertTail(m, lit);
      FirstThenRest(lit, rest);
      ReplaceLiteral(pairs, m, lit[1..], rest);
      assert Replace(pairs, lit + rest) == lit[..1] + (lit[1..] + Replace(pairs, rest));
      FirstThenRest(lit, Replace(pairs, rest));
    }
  }

  /** A placeholder is replaced by its original and the rest is treated on its own. */
  lemma ReplacePlaceholder(pairs: Pairs, m: map<string, string>, p: string, rest: string)
    requires Lists(pairs, m) && AllDelimited(m) && p in m && NonEmptyOlds(pairs)
    ensures Replace(pairs, p + rest) == m[p] + Replace(pairs, rest)
  {
    DelimitedKeys(m);
    MatchAtPlaceholder(pairs, m, p, rest);
    assert (p + rest)[|p|..] == rest;
  }

  lemma FirstMatchAnyOrder(pairs: Pairs, pairs': Pairs, m: map<string, string>, s: string)
    requires Lists(pairs, m) && Lists(pairs', m) && PrefixFreeKeys(m.Keys)
    ensures FirstMatch(pairs, s) == FirstMatch(pairs', s)
  {
    var r, r' := FirstMatch(pairs, s), FirstMatch(pairs', s);
    if r.Some? {
      var p := r.value.0;
      assert s == p + s[|p|..];
      MatchAtPlaceholder(pairs', m, p, s[|p|..]);
    }
    if r'.Some? {
      var p := r'.value.0;
      assert s == p + s[|p|..];
      MatchAtPlaceholder(pairs, m, p, s[|p|..]);
    }
  }

  /** With prefix-free keys the map's iteration order is unobservable on every text, whatever it contains. */
  lemma {:induction false} ReplaceAnyOrder(pairs: Pairs, pairs': Pairs, m: map<string, string>, s: string)
    requires Lists(pairs, m) && Lists(pairs', m) && PrefixFreeKeys(m.Keys)
    requires NonEmptyOlds(pairs) && NonEmptyOlds(pairs')
    ensures Replace(pairs, s) == Replace(pairs', s)
    decreases |s|
  {
    if s != "" {
      FirstMatchAnyOrder(pairs, pairs', m, s);
      match FirstMatch(pairs, s)
      case Some(pair) => ReplaceAnyOrder(pairs, pairs', m, s[|pair.0|..]);
      case None => ReplaceAnyOrder(pairs, pairs', m, s[1..]);
    }
  }

  // ----- when the order can be seen -----

  /** Every map can be listed, and any of its entries may come first. */
  lemma {:induction false} SomeListing(m: map<string, string>) returns (pairs: Pairs)
    ensures Lists(pairs, m)
    decreases |m|
  {
    if m == map[] {
      pairs := [];
    } else {
      var p :| p in m;
      assert (m - {p}).Keys == m.Keys - {p};
      assert |(m - {p}).Keys| < |m.Keys|;
      var rest := SomeListing(m - {p});
      pairs := rest + [(p, m[p])];
      assert pairs[|rest|] == (p, m[p]);
      assert forall pair :: pair in rest ==> pair in pairs;
      assert forall q :: q in m && q != p ==> q in m - {p} && (q, m[q]) in rest;
    }
  }

  lemma ListingWith(m: map<string, string>, p: string) returns (pairs: Pairs)
    requires p in m
    ensures Lists(pairs, m) && pairs != [] && pairs[0] == (p, m[p])
  {
    var rest := SomeListing(m);
    pairs := [(p, m[p])] + rest;
    assert forall pair :: pair in rest ==> pair in pairs;
  }

  /** Different originals that tell a key from every longer key it starts. */
  function Telling(keys: set<string>, p: string): map<string, string> {
    map k | k in keys :: if k == p then "x" else "y" + k
  }

  lemma TellingIsInjective(keys: set<string>, p: string, a: string, b: string)
    requires a in keys && b in keys && Telling(keys, p)[a] == Telling(keys, p)[b]
    ensures a == b
  {
    assert ("y" + a)[0] == 'y' && ("y" + b)[0] == 'y';
    assert ("y" + a)[1..] == a && ("y" + b)[1..] == b;
  }

  /** Read as the longer key the text starts with "y", read as the shorter one with "x". */
  lemma PrefixShows(keys: set<string>, p: string, q: string) returns (a: Pairs, b: Pairs)
    requires "" !in keys && p in keys && q in keys && p <= q && p != q
    ensures Lists(a, Telling(keys, p)) && Lists(b, Telling(keys, p)) && NonEmptyOlds(a) && NonEmptyOlds(b)
    ensures Replace(a, q) != Replace(b, q)
  {
    var m := Telling(keys, p);
    a := ListingWith(m, p);
    b := ListingWith(m, q);
    assert a[0].0 <= q && b[0].0 <= q;
    assert FirstMatch(a, q) == Some(a[0]) && FirstMatch(b, q) == Some(b[0]);
    assert Replace(b, q) == ("y" + q) + Replace(b, q[|q|..]);
    assert Replace(a, q) == "x" + Replace(a, q[|p|..]);
    assert Replace(a, q)[0] == 'x' && Replace(b, q)[0] == 'y';
  }

  ghost predicate AlikeOn(m: map<string, string>, a: Pairs, b: Pairs, s: string) {
    Lists(a, m) && Lists(b, m) && NonEmptyOlds(a) && NonEmptyOlds(b) ==> Replace(a, s) == Replace(b, s)
  }

  /**
    Exactly: for tables with the given keys no listing order can be told from another, on any text,
    if and only if no key is a proper prefix of another.
   */
  lemma OrderUnobservableIff(keys: set<string>)
    requires "" !in keys
    ensures (forall m: map<string, string>, a, b, s :: m.Keys == keys ==> AlikeOn(m, a, b, s)) <==> PrefixFreeKeys(keys)
  {
    if PrefixFreeKeys(keys) {
      forall m: map<string, string>, a, b, s | m.Keys == keys && Lists(a, m) && Lists(b, m) && NonEmptyOlds(a)
        && NonEmptyOlds(b)
        ensures Replace(a, s) == Replace(b, s)
      {
        ReplaceAnyOrder(a, b, m, s);
      }
    } else {
      var p, q :| p in keys && q in keys && p <= q && p != q;
      var a, b := PrefixShows(keys, p, q);
      assert Telling(keys, p).Keys == keys;
      assert !AlikeOn(Telling(keys, p), a, b, q);
    }
  }

  /** Placeholders whose order shows: with the types "A>" and "A>_1>B" one starts the other. */
  lemma OrderMattersWithBrackets()
    ensures var m := map["<A>_1>" := "x", "<A>_1>B_1>" := "y"];
      var p, q := [("<A>_1>", "x"), ("<A>_1>B_1>", "y")], [("<A>_1>B_1>", "y"), ("<A>_1>", "x")];
      && Lists(p, m) && Lists(q, m) && NonEmptyOlds(p) && NonEmptyOlds(q)
      && "<A>_1>" == Placeholder("A>", 1) && "<A>_1>B_1>" == Placeholder("A>_1>B", 1)
      && Replace(p, "<A>_1>B_1>") != Replace(q, "<A>_1>B_1>")
  {
    var m := map["<A>_1>" := "x", "<A>_1>B_1>" := "y"];
    var p, q := [("<A>_1>", "x"), ("<A>_1>B_1>", "y")], [("<A>_1>B_1>", "y"), ("<A>_1>", "x")];
    assert p[0] in p && p[1] in p && q[0] in q && q[1] in q;
    var s := "<A>_1>B_1>";
    assert p[0].0 <= s && q[0].0 <= s;
    assert FirstMatch(p, s) == Some(p[0]) && FirstMatch(q, s) == Some(q[0]);
    assert s[6..] == "B_1>" && s[10..] == "";
    assert Replace(q, s) == "y" + Replace(q, s[10..]) == "y";
    assert Replace(p, s) == "x" + Replace(p, s[6..]);
    assert Replace(p, s)[0] == 'x';
  }
}
