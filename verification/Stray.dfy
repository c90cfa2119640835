/** User text that happens to contain a placeholder: when the round trip notices. */
module StrayCondition {
  import opened Llm
  import opened Placeholders
  import opened Presidio
  import opened Replacer
  import opened RoundTrip
  import opened TransformState
  import opened Wrappers

  // ----- counting opening brackets -----

  function Opens(s: string): nat {
    if s == "" then 0 else (if s[0] == '<' then 1 else 0) + Opens(s[1..])
  }

  lemma {:induction false} OpensConcat(a: string, b: string)
    ensures Opens(a + b) == Opens(a) + Opens(b)
  {
    if a == "" {
      assert a + b == b;
    } else {
      assert (a + b)[1..] == a[1..] + b;
      OpensConcat(a[1..], b);
    }
  }

  lemma {:induction false} NoOpens(s: string)
    requires '<' !in s
    ensures Opens(s) == 0
  {
    if s != "" {
      NoOpens(s[1..]);
    }
  }

  /** Replacing puts in no opening brackets. */
  ghost predicate PlainOriginals(m: map<string, string>) {
    forall p :: p in m ==> '<' !in m[p]
  }

  // ----- one literal -----

  lemma OpenAtStartOnly(p: string)
    requires Delimited(p)
    ensures forall i :: 0 < i < |p| ==> p[i] != '<'
  {
    forall i | 0 < i < |p|
      ensures p[i] != '<'
    {
      assert i < |p| - 1 ==> p[i] == p[1..|p| - 1][i - 1];
    }
  }

  /** A key does not run over the start of a following placeholder. */
  lemma SameStart(p: string, g: string, rest: string)
    requires Delimited(p) && g != "" && (rest == "" || rest[0] == '<')
    ensures p <= g + rest <==> p <= g
  {
    OpenAtStartOnly(p);
    assert rest != "" ==> (g + rest)[|g|] == '<';
    if p <= g + rest && |p| <= |g| {
      assert p == (g + rest)[..|p|] == g[..|p|];
    }
  }

  lemma {:induction false} SameMatch(pairs: Pairs, g: string, rest: string)
    requires forall i :: 0 <= i < |pairs| ==> Delimited(pairs[i].0)
    requires g != "" && (rest == "" || rest[0] == '<')
    ensures FirstMatch(pairs, g + rest) == FirstMatch(pairs, g)
  {
    if pairs != [] {
      SameStart(pairs[0].0, g, rest);
      SameMatch(pairs[1..], g, rest);
    }
  }

  lemma Behind(g: string, rest: string, n: nat)
    requires n <= |g|
    ensures (g + rest)[..n] == g[..n] && (g + rest)[n..] == g[n..] + rest
  {
  }

  lemma Together(a: string, b: string, c: string)
    ensures a + (b + c) == (a + b) + c
  {
  }

  /** Up to the next '<' a literal is decoded on its own. */
  lemma {:induction false} DecodeApart(pairs: Pairs, m: map<string, string>, g: string, rest: string)
    requires Lists(pairs, m) && AllDelimited(m) && NonEmptyOlds(pairs) && (rest == "" || rest[0] == '<')
    ensures Replace(pairs, g + rest) == Replace(pairs, g) + Replace(pairs, rest)
    decreases |g|
  {
    if g == "" {
      assert g + rest == rest;
    } else {
      SameMatch(pairs, g, rest);
      match FirstMatch(pairs, g)
      case Some(pair) =>
        Behind(g, rest, |pair.0|);
        DecodeApart(pairs, m, g[|pair.0|..], rest);
        Together(pair.1, Replace(pairs, g[|pair.0|..]), Replace(pairs, rest));
      case None =>
        Behind(g, rest, 1);
        DecodeApart(pairs, m, g[1..], rest);
        Together(g[..1], Replace(pairs, g[1..]), Replace(pairs, rest));
    }
  }

  ghost predicate HasKey(m: map<string, string>, s: string) {
    exists p, i :: p in m && Occurs(p, s, i)
  }

  lemma KeyInTail(m: map<string, string>, s: string)
    requires HasKey(m, s) && s != "" && forall p :: p in m ==> !(p <= s)
    ensures HasKey(m, s[1..])
  {
    var p, i :| p in m && Occurs(p, s, i);
    assert p <= s <==> Occurs(p, s, 0);
    assert s[1..][i - 1..i - 1 + |p|] == s[i..i + |p|];
    assert Occurs(p, s[1..], i - 1);
  }

  lemma NoKeyInEmpty(m: map<string, string>)
    requires AllDelimited(m)
    ensures !HasKey(m, "")
  {
    forall p, i | p in m
      ensures !Occurs(p, "", i)
    {
      assert Delimited(p);
    }
  }

  lemma MatchTakesOpen(p: string, s: string)
    requires Delimited(p) && p <= s
    ensures Opens(s) == 1 + Opens(s[|p|..])
  {
    assert s == p + s[|p|..];
    OpensConcat(p, s[|p|..]);
    var inner := p[1..];
    assert forall i :: 0 <= i < |inner| ==> inner[i] == p[i + 1];
    OpenAtStartOnly(p);
    NoOpens(inner);
  }

  /** Decoding a text adds no '<', and takes one away where a placeholder stands. */
  lemma {:induction false} DecodedOpens(pairs: Pairs, m: map<string, string>, s: string)
    requires Lists(pairs, m) && AllDelimited(m) && NonEmptyOlds(pairs) && PlainOriginals(m)
    ensures Opens(Replace(pairs, s)) <= Opens(s)
    ensures HasKey(m, s) ==> Opens(Replace(pairs, s)) < Opens(s)
    decreases |s|
  {
    if s != "" {
      match FirstMatch(pairs, s)
      case Some(pair) =>
        var i :| 0 <= i < |pairs| && pairs[i] == pair;
        assert Delimited(pair.0) && pair.1 == m[pair.0];
        DecodedOpens(pairs, m, s[|pair.0|..]);
        MatchTakesOpen(pair.0, s);
        NoOpens(pair.1);
        OpensConcat(pair.1, Replace(pairs, s[|pair.0|..]));
      case None =>
        DecodedOpens(pairs, m, s[1..]);
        assert s == s[..1] + s[1..];
        OpensConcat(s[..1], s[1..]);
        OpensConcat(s[..1], Replace(pairs, s[1..]));
        forall p | p in m
          ensures !(p <= s)
        {
          assert (p, m[p]) in pairs;
        }
        if HasKey(m, s) {
          KeyInTail(m, s);
        }
    } else {
      NoKeyInEmpty(m);
    }
  }

  // ----- a substituted text -----

  /** A placeholder stands in the text from lo on, clear of the spans. */
  ghost predicate StrayAt(m: map<string, string>, text: string, lo: nat, spans: seq<Span>, p: string, i: int) {
    p in m && lo <= i && Occurs(p, text, i) && forall j :: i <= j < i + |p| ==> !Covered(spans, j)
  }

  lemma StrayInGapOrLater(m: map<string, string>, text: string, lo: nat, spans: seq<Span>, p: string, i: int)
    requires spans != [] && lo <= spans[0].start < spans[0].end <= |text| && AllDelimited(m)
    requires StrayAt(m, text, lo, spans, p, i)
    ensures HasKey(m, text[lo..spans[0].start]) || StrayAt(m, text, spans[0].end, spans[1..], p, i)
  {
    var r, gap := spans[0], text[lo..spans[0].start];
    assert forall j :: r.start <= j < r.end ==> Covered(spans, j) by { assert r in spans; }
    assert Delimited(p);
    if i + |p| <= r.start {
      assert gap[i - lo..i - lo + |p|] == text[i..i + |p|];
      assert Occurs(p, gap, i - lo);
    } else {
      assert Covered(spans, r.start) && (r.start <= i < r.end ==> Covered(spans, i));
      assert i >= r.end;
      assert forall j :: Covered(spans[1..], j) ==> Covered(spans, j);
    }
  }

  lemma SubstituteStarts(m: map<string, string>, text: string, lo: nat, spans: seq<Span>)
    requires spans != [] && lo <= |text| && Fits(m, text, lo, spans) && AllDelimited(m)
    ensures var r := spans[0];
      var p, rest := PlaceholderOf(m, text[r.start..r.end]), Substitute(m, text, r.end, spans[1..]);
      && Substitute(m, text, lo, spans) == text[lo..r.start] + (p + rest) && (p + rest)[0] == '<'
  {
    var r := spans[0];
    assert Delimited(PlaceholderOf(m, text[r.start..r.end]));
  }

  /** Decoding a substitution loses an opening bracket wherever a placeholder stood clear of the spans. */
  lemma {:induction false} SubstitutionOpens(pairs: Pairs, m: map<string, string>, text: string, lo: nat,
                                             spans: seq<Span>)
    requires Lists(pairs, m) && AllDelimited(m) && NonEmptyOlds(pairs) && PlainOriginals(m)
    requires lo <= |text| && Fits(m, text, lo, spans)
    ensures Opens(Replace(pairs, Substitute(m, text, lo, spans))) <= Opens(text[lo..])
    ensures (exists p, i :: StrayAt(m, text, lo, spans, p, i)) ==>
      Opens(Replace(pairs, Substitute(m, text, lo, spans))) < Opens(text[lo..])
    decreases |spans|
  {
    if spans == [] {
      DecodedOpens(pairs, m, text[lo..]);
      if p, i :| StrayAt(m, text, lo, spans, p, i) {
        assert text[lo..][i - lo..i - lo + |p|] == text[i..i + |p|];
        assert Occurs(p, text[lo..], i - lo);
      }
    } else {
      var r := spans[0];
      var gap, original := text[lo..r.start], text[r.start..r.end];
      var p, rest := PlaceholderOf(m, original), Substitute(m, text, r.end, spans[1..]);
      SubstituteStarts(m, text, lo, spans);
      DecodeApart(pairs, m, gap, p + rest);
      ReplacePlaceholder(pairs, m, p, rest);
      DecodedOpens(pairs, m, gap);
      SubstitutionOpens(pairs, m, text, r.end, spans[1..]);
      CountParts(text, lo, r, Replace(pairs, gap), Replace(pairs, rest));
      if q, i :| StrayAt(m, text, lo, spans, q, i) {
        StrayInGapOrLater(m, text, lo, spans, q, i);
      }
    }
  }

  lemma {:induction false} CountParts(text: string, lo: nat, r: Span, a: string, b: string)
    requires lo <= r.start < r.end <= |text|
    ensures Opens(text[lo..]) == Opens(text[lo..r.start]) + Opens(text[r.start..r.end]) + Opens(text[r.end..])
    ensures Opens(a + (text[r.start..r.end] + b)) == Opens(a) + Opens(text[r.start..r.end]) + Opens(b)
  {
    ThreeParts(text, lo, r.start, r.end);
    OpensConcat(text[lo..r.start] + text[r.start..r.end], text[r.end..]);
    OpensConcat(text[lo..r.start], text[r.start..r.end]);
    OpensConcat(a, text[r.start..r.end] + b);
    OpensConcat(text[r.start..r.end], b);
  }

  // ----- the exact condition -----

  lemma StrayIff(m: map<string, string>, text: string, spans: seq<Span>)
    ensures NoStray(m, text, spans) <==> !exists p, i :: StrayAt(m, text, 0, spans, p, i)
  {
    if !NoStray(m, text, spans) {
      var p, i :| p in m && Occurs(p, text, i) && !exists j :: i <= j < i + |p| && Covered(spans, j);
      assert StrayAt(m, text, 0, spans, p, i);
    }
  }

  /**
    After a clean run, with originals free of '<', the text comes back if and only if no placeholder
    of the final table stands in it clear of the applied spans.
   */
  lemma CleanComesBackIffNoStray(t: Table, text: string, spans: seq<Span>, final: Table, pairs: Pairs)
    requires Later(t, spans, text, final, pairs) && Clean(t, text, |text|, spans) && PlainOriginals(final.mappings)
    ensures Replace(pairs, CutAll(t, text, spans).1) == text <==> NoStray(final.mappings, text, Applied(t, text, spans))
  {
    var vs := Applied(t, text, spans);
    if NoStray(final.mappings, text, vs) {
      CleanRoundTrip(t, text, spans, final, pairs);
    } else {
      assert text[0..] == text;
      CleanIsSubstitution(t, text, text, [], spans);
      assert vs + [] == vs;
      var (t', out) := CutAll(t, text, spans);
      SubstituteStable(t', final, text, 0, vs);
      StrayIff(final.mappings, text, vs);
      SubstitutionOpens(pairs, final.mappings, text, 0, vs);
    }
  }

  /** The same for disjoint spans, read off the analyzer's answer. */
  lemma DisjointComesBackIffNoStray(t: Table, text: string, results: seq<Span>, spans: seq<Span>, final: Table,
                                    pairs: Pairs)
    requires Sorted(spans, results) && Disjoint(|text|, multiset(results))
    requires Later(t, spans, text, final, pairs) && PlainOriginals(final.mappings)
    ensures Replace(pairs, CutAll(t, text, spans).1) == text
      <==> NoStray(final.mappings, text, InRangeOnly(|text|, results))
  {
    assert text[0..] == text;
    DisjointIsClean(t, text, text, [], spans);
    var vs, rs := Applied(t, text, spans), InRangeOnly(|text|, results);
    forall r
      ensures r in vs <==> r in rs
    {
      SameMembers(spans, results, r);
      SameMembers(vs, InRangeOnly(|text|, spans), r);
    }
    if NoStray(final.mappings, text, rs) {
      CoveredAlike(final.mappings, text, rs, vs);
    }
    if NoStray(final.mappings, text, vs) {
      CoveredAlike(final.mappings, text, vs, rs);
    }
    CleanComesBackIffNoStray(t, text, spans, final, pairs);
  }

  /** Conversations with disjoint spans: all messages come back exactly if none holds a stray placeholder. */
  lemma ConversationComesBackIffNoStray(ts: seq<Table>, msgs: seq<Message>, answers: seq<Result<seq<Span>>>,
                                        orders: seq<seq<Span>>, outs: seq<Message>, final: Table, pairs: Pairs)
    requires TransformRun(ts, msgs, answers, orders, outs) && TypesOk(answers)
    requires Consistent(ts[0]) && Bracketed(ts[0])
    requires OutputPhase(ts[|msgs|], final, pairs) && PlainOriginals(final.mappings)
    requires forall i :: 0 <= i < |msgs| && msgs[i].content != "" ==>
      Disjoint(|msgs[i].content|, multiset(answers[i].value))
    ensures (forall i :: 0 <= i < |msgs| ==> Replace(pairs, outs[i].content) == msgs[i].content)
      <==> (forall i :: 0 <= i < |msgs| ==> WellCovered(msgs[i], answers[i], final))
  {
    forall i | 0 <= i < |msgs|
      ensures Replace(pairs, outs[i].content) == msgs[i].content <==> WellCovered(msgs[i], answers[i], final)
    {
      MessageIsLater(ts, msgs, answers, orders, outs, final, pairs, i);
      assert MessageStep(ts[i], msgs[i], answers[i], orders[i], ts[i + 1], outs[i]);
      if msgs[i].content != "" {
        DisjointComesBackIffNoStray(ts[i], msgs[i].content, answers[i].value, orders[i], final, pairs);
      }
    }
  }
}
