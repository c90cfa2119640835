/** The decimal form of a natural number, as fmt's `%d` verb prints it. */
module Decimal {

  predicate IsDigit(c: char) {
    '0' <= c <= '9'
  }

  function Digit(d: nat): (c: char)
    requires d < 10
  {
    '0' + d as char
  }

  function Render(n: nat): (s: string)
    ensures |s| > 0
    ensures forall c | c in s :: IsDigit(c)
  {
    if n < 10 then [Digit(n)] else Render(n / 10) + [Digit(n % 10)]
  }

  /** The number that digits, most significant first, stand for. */
  function Value(s: string): nat
    requires forall c | c in s :: IsDigit(c)
  {
    if s == "" then 0
    else
      assert IsDigit(s[|s| - 1]);
      10 * Value(s[..|s| - 1]) + (s[|s| - 1] as int - '0' as int)
  }

  /** The digits of the number itself, with no zero in front unless it is zero. */
  lemma {:induction false} RenderValue(n: nat)
    ensures Value(Render(n)) == n && (n > 0 ==> Render(n)[0] != '0')
  {
    var s := Render(n);
    if n >= 10 {
      RenderValue(n / 10);
      assert s[..|s| - 1] == Render(n / 10);
    } else {
      assert s[..0] == "";
    }
  }
}

/** The numbered placeholders `<TYPE_n>` that stand for redacted values. */
module Placeholders {
  import Decimal

  function Placeholder(entity: string, n: nat): string {
    "<" + entity + "_" + Decimal.Render(n) + ">"
  }

  ghost predicate BracketFree(s: string) {
    '<' !in s && '>' !in s
  }

  /** Brackets occur only at the two ends. */
  ghost predicate Delimited(p: string) {
    && |p| >= 2
    && p[0] == '<'
    && p[|p| - 1] == '>'
    && BracketFree(p[1..|p| - 1])
  }

  lemma {:induction false} SameDigits(e: string, n: nat, e': string, n': nat)
    requires Placeholder(e, n) == Placeholder(e', n')
    ensures |Decimal.Render(n)| <= |Decimal.Render(n')|
  {
    var p, d, d' := Placeholder(e, n), Decimal.Render(n), Decimal.Render(n');
    // read from the right: first d's digits, and the underscore of the second form
    assert p[|p| - 1 - |d|..|p| - 1] == d;
    assert forall k :: 0 <= k < |d| ==> p[|p| - 1 - |d| + k] == d[k] && Decimal.IsDigit(d[k]);
    assert p[|p| - 2 - |d'|] == '_';
  }

  /** Two placeholders collide only if type and number agree, whatever the types contain. */
  lemma PlaceholderInjective(e: string, n: nat, e': string, n': nat)
    requires Placeholder(e, n) == Placeholder(e', n')
    ensures e == e' && n == n'
  {
    SameDigits(e, n, e', n');
    SameDigits(e', n', e, n);
    var p, d, d' := Placeholder(e, n), Decimal.Render(n), Decimal.Render(n');
    var i := |p| - 1 - |d|;
    assert p[i..|p| - 1] == d == d';
    assert p[1..i - 1] == e == e';
    Decimal.RenderValue(n);
    Decimal.RenderValue(n');
  }

  lemma PlaceholderDelimited(e: string, n: nat)
    requires BracketFree(e)
    ensures Delimited(Placeholder(e, n))
  {
    var p := Placeholder(e, n);
    assert p[1..|p| - 1] == e + "_" + Decimal.Render(n);
  }

  /** A '>' at the end and nowhere else. */
  ghost predicate Closed(p: string) {
    p != "" && p[|p| - 1] == '>' && '>' !in p[..|p| - 1]
  }

  lemma ClosedAt(q: string, i: nat)
    requires Closed(q) && i < |q| && q[i] == '>'
    ensures i == |q| - 1
  {
    forall k | 0 <= k < |q| - 1
      ensures q[k] != '>'
    {
      assert q[..|q| - 1][k] == q[k];
    }
  }

  /** No closed string is a proper prefix of another. */
  lemma PrefixFree(p: string, q: string)
    requires Closed(p) && Closed(q) && p <= q
    ensures p == q
  {
    ClosedAt(q, |p| - 1);
  }

  lemma DelimitedIsClosed(p: string)
    requires Delimited(p)
    ensures Closed(p)
  {
    assert p[..|p| - 1] == ['<'] + p[1..|p| - 1];
  }

  /** What ends with a '>' does not end inside a tail that has none before its last character. */
  lemma EndsBefore(inside: string, e: string, tail: string)
    requires inside <= e + tail && inside != "" && inside[|inside| - 1] == '>'
    requires |inside| < |e| + |tail| && forall k :: 0 <= k < |tail| - 1 ==> tail[k] != '>'
    ensures inside <= e
  {
    forall i | |e| <= i < |e| + |tail| - 1
      ensures (e + tail)[i] != '>'
    {
      assert (e + tail)[i] == tail[i - |e|];
    }
    assert (e + tail)[|inside| - 1] == '>';
    assert inside == (e + tail)[..|inside|] == e[..|inside|];
  }

  function Inside(e: string, n: nat): string {
    e + "_" + Decimal.Render(n) + ">"
  }

  /** One placeholder starts another, different one exactly when its inside, '>' included, starts the other's type. */
  lemma PlaceholderPrefixIff(e: string, n: nat, e': string, n': nat)
    ensures Placeholder(e, n) <= Placeholder(e', n') && Placeholder(e, n) != Placeholder(e', n')
      <==> Inside(e, n) <= e'
  {
    var p, q, tail := Placeholder(e, n), Placeholder(e', n'), "_" + Decimal.Render(n') + ">";
    assert p[1..] == Inside(e, n) && q[1..] == e' + tail;
    assert p <= q <==> Inside(e, n) <= e' + tail by {
      assert p == "<" + p[1..] && q == "<" + q[1..];
    }
    assert forall k :: 0 <= k < |tail| - 1 ==> tail[k] != '>' by {
      assert forall k :: 0 < k < |tail| - 1 ==> tail[k] == Decimal.Render(n')[k - 1] && Decimal.IsDigit(tail[k]);
    }
    if p <= q && p != q {
      EndsBefore(Inside(e, n), e', tail);
    }
  }
}
