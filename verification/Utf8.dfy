/** Well-formed UTF-8 (sections 3 and 4 of RFC 3629) and where it may be cut. */
module Utf8 {

  newtype byte = x: int | 0 <= x < 256

  type Text = seq<byte>

  predicate Continuation(b: byte) {
    0x80 <= b < 0xC0
  }

  /** utf8.RuneStart: not a continuation byte. */
  predicate RuneStart(b: byte) {
    !Continuation(b)
  }

  /** The length of the encoded character s starts with, 0 if there is none. */
  function RuneLength(s: Text): (n: nat)
    ensures n <= 4 && n <= |s|
  {
    if s == [] then 0
    else if s[0] < 0x80 then 1
    else if |s| >= 2 && 0xC2 <= s[0] <= 0xDF && Continuation(s[1]) then 2
    else if |s| >= 3 && Continuation(s[1]) && Continuation(s[2]) &&
            ((s[0] == 0xE0 && s[1] >= 0xA0) || (0xE1 <= s[0] <= 0xEF && s[0] != 0xED)
              || (s[0] == 0xED && s[1] < 0xA0)) then 3
    else if |s| >= 4 && Continuation(s[1]) && Continuation(s[2]) && Continuation(s[3]) &&
            ((s[0] == 0xF0 && s[1] >= 0x90) || 0xF1 <= s[0] <= 0xF3 || (s[0] == 0xF4 && s[1] < 0x90)) then 4
    else 0
  }

  predicate Valid(s: Text) {
    s == [] || (RuneLength(s) > 0 && Valid(s[RuneLength(s)..]))
  }

  lemma RuneLengthPrefix(s: Text, p: nat)
    requires RuneLength(s) <= p <= |s|
    ensures RuneLength(s) > 0 ==> RuneLength(s[..p]) == RuneLength(s)
  {
  }

  /** Valid text may be cut at its end and before any rune start, and nowhere else. */
  lemma {:induction false} CutAtRuneStart(s: Text, p: nat)
    requires Valid(s) && p <= |s|
    ensures (p == |s| || RuneStart(s[p])) <==> Valid(s[..p])
    ensures (p == |s| || RuneStart(s[p])) ==> Valid(s[p..])
    decreases |s|
  {
    if p == 0 {
      assert s[..p] == [] && s[p..] == s;
      assert s != [] ==> RuneStart(s[0]);
    } else {
      var n := RuneLength(s);
      if p < n {
        assert Continuation(s[p]);
        assert RuneLength(s[..p]) == 0;
      } else {
        CutAtRuneStart(s[n..], p - n);
        RuneLengthPrefix(s, p);
        assert s[..p][n..] == s[n..][..p - n];
        assert s[n..][p - n..] == s[p..];
        assert p < |s| ==> s[n..][p - n] == s[p];
      }
    }
  }

  /** In valid text every position has a rune start at most three bytes before it. */
  lemma {:induction false} RuneStartNearby(s: Text, q: nat) returns (p: nat)
    requires Valid(s) && q < |s|
    ensures p <= q <= p + 3 && RuneStart(s[p])
    decreases |s|
  {
    var n := RuneLength(s);
    if q < n {
      p := 0;
    } else {
      var p' := RuneStartNearby(s[n..], q - n);
      p := n + p';
      assert s[n..][p'] == s[p];
    }
  }
}
