/** Replaying a buffered completion as server-sent events, content split into small pieces. */
module Stream {
  import opened Utf8

  const SPACE: byte := 0x20

  // ----- where a piece ends -----

  /** The last position up to cut that does not split a rune, 0 if there is none. */
  function BackUp(text: Text, cut: nat): (c: nat)
    requires cut < |text|
    ensures c <= cut
  {
    if cut > 0 && !RuneStart(text[cut]) then BackUp(text, cut - 1) else cut
  }

  lemma {:induction false} BackUpFinds(text: Text, cut: nat)
    requires cut < |text|
    ensures BackUp(text, cut) == 0 || RuneStart(text[BackUp(text, cut)])
    ensures forall i :: BackUp(text, cut) < i <= cut ==> !RuneStart(text[i])
  {
    if cut > 0 && !RuneStart(text[cut]) {
      BackUpFinds(text, cut - 1);
    }
  }

  /** strings.LastIndexByte(text[:n], ' '). */
  function LastSpace(text: Text, n: nat): (i: int)
    requires n <= |text|
    ensures -1 <= i < n
  {
    if n == 0 then -1 else if text[n - 1] == SPACE then n - 1 else LastSpace(text, n - 1)
  }

  lemma {:induction false} LastSpaceFinds(text: Text, n: nat)
    requires n <= |text|
    ensures LastSpace(text, n) >= 0 ==> text[LastSpace(text, n)] == SPACE
    ensures forall k :: LastSpace(text, n) < k < n ==> text[k] != SPACE
  {
    if n > 0 && text[n - 1] != SPACE {
      LastSpaceFinds(text, n - 1);
    }
  }

  function CutPoint(text: Text, size: nat): (cut: nat)
    requires 1 <= size < |text|
    ensures 1 <= cut <= size
  {
    var c := BackUp(text, size);
    var i := LastSpace(text, c);
    var c' := if i > 0 then i + 1 else c;
    if c' == 0 then size else c'
  }

  /** The last place up to size where a character starts. */
  ghost predicate LastStart(text: Text, size: nat, c: int) {
    0 < c <= size < |text| && RuneStart(text[c]) && forall i :: c < i <= size ==> !RuneStart(text[i])
  }

  /**
    Where a piece ends: behind the last space before the last character start of the window, a space
    at the very front aside, else at that character start, else, with no start in the window, at its end.
   */
  lemma CutIsWhere(text: Text, size: nat)
    requires 1 <= size < |text|
    ensures var cut := CutPoint(text, size);
      && ((forall c :: !LastStart(text, size, c)) ==> cut == size)
      && forall c :: LastStart(text, size, c) ==>
        if exists i :: 0 < i < c && text[i] == SPACE
        then 1 < cut <= c && text[cut - 1] == SPACE && forall i :: cut <= i < c ==> text[i] != SPACE
        else cut == c
  {
    BackUpFinds(text, size);
    var c := BackUp(text, size);
    LastSpaceFinds(text, c);
    if c > 0 {
      assert LastStart(text, size, c);
    }
    assert forall c' :: LastStart(text, size, c') ==> c' == c;
  }

  function Split(text: Text, size: nat): seq<Text>
    requires size >= 1
    decreases |text|
  {
    if text == [] then []
    else if |text| <= size then [text]
    else
      var cut := CutPoint(text, size);
      [text[..cut]] + Split(text[cut..], size)
  }

  /** Backs up to a rune start, then prefers the last space inside the window. */
  method FindCut(text: Text, size: nat) returns (cut: nat)
    requires 1 <= size < |text|
    ensures cut == CutPoint(text, size)
  {
    cut := size;
    while cut > 0 && !RuneStart(text[cut])
      invariant 0 <= cut <= size
      invariant BackUp(text, cut) == BackUp(text, size)
    {
      cut := cut - 1;
    }
    var i := LastSpace(text, cut);
    if i > 0 {
      cut := i + 1;
    }
    if cut == 0 {
      cut := size;
    }
  }

  /** Shrinks the text from the front, piece by piece. */
  method SplitContent(text0: Text, size: nat) returns (pieces: seq<Text>)
    requires size >= 1
    ensures pieces == Split(text0, size)
  {
    if text0 == [] {
      return [];
    }
    var text := text0;
    pieces := [];
    while |text| > size
      invariant text != []
      invariant pieces + Split(text, size) == Split(text0, size)
      decreases |text|
    {
      var cut := FindCut(text, size);
      SplitStep(text, size);
      assert pieces + Split(text, size) == pieces + [text[..cut]] + Split(text[cut..], size);
      pieces := pieces + [text[..cut]];
      text := text[cut..];
    }
    pieces := pieces + [text];
  }

  lemma SplitStep(text: Text, size: nat)
    requires 1 <= size < |text|
    ensures Split(text, size) == [text[..CutPoint(text, size)]] + Split(text[CutPoint(text, size)..], size)
  {
  }

  // ----- the pieces -----

  function Concat(pieces: seq<Text>): Text {
    if pieces == [] then [] else pieces[0] + Concat(pieces[1..])
  }

  ghost predicate Bounded(pieces: seq<Text>, size: nat) {
    forall k :: 0 <= k < |pieces| ==> 1 <= |pieces[k]| <= size
  }

  lemma OnePieceMore(p: Text, pieces: seq<Text>, size: nat)
    ensures Concat([p] + pieces) == p + Concat(pieces)
    ensures 1 <= |p| <= size && Bounded(pieces, size) ==> Bounded([p] + pieces, size)
  {
    assert ([p] + pieces)[1..] == pieces;
  }

  lemma RestAddsUp(text: Text, size: nat)
    requires 1 <= size < |text|
    requires var rest := text[CutPoint(text, size)..];
      Concat(Split(rest, size)) == rest && Bounded(Split(rest, size), size)
    ensures Concat(Split(text, size)) == text && Bounded(Split(text, size), size)
  {
    var cut := CutPoint(text, size);
    SplitStep(text, size);
    OnePieceMore(text[..cut], Split(text[cut..], size), size);
    assert text == text[..cut] + text[cut..];
  }

  /** For all bytes and sizes: non-empty pieces of at most size bytes that add up to the input. */
  lemma {:induction false} PiecesAddUp(text: Text, size: nat)
    requires size >= 1
    ensures Concat(Split(text, size)) == text && Bounded(Split(text, size), size)
    decreases |text|
  {
    if |text| > size {
      PiecesAddUp(text[CutPoint(text, size)..], size);
      RestAddsUp(text, size);
    } else if text != [] {
      OnePieceMore(text, [], size);
      assert [text] + [] == [text];
    }
  }

  lemma {:induction false} CutIsBoundary(text: Text, size: nat)
    requires Valid(text) && 4 <= size < |text|
    ensures size - 3 <= BackUp(text, size)
    ensures Valid(text[..CutPoint(text, size)]) && Valid(text[CutPoint(text, size)..])
  {
    var p := RuneStartNearby(text, size);
    var c := BackUp(text, size);
    BackUpFinds(text, size);
    assert c >= p;
    var i := LastSpace(text, c);
    LastSpaceFinds(text, c);
    if i > 0 {
      SpaceIsRune(text, i);
    } else {
      CutAtRuneStart(text, c);
    }
  }

  /** A space is a character of its own, so text may be cut behind it. */
  lemma {:induction false} SpaceIsRune(text: Text, i: nat)
    requires Valid(text) && i < |text| && text[i] == SPACE
    ensures Valid(text[..i + 1]) && Valid(text[i + 1..])
  {
    CutAtRuneStart(text, i);
    assert RuneLength(text[i..]) == 1;
    assert text[i..][1..] == text[i + 1..];
    if i + 1 < |text| {
      assert RuneLength(text[i + 1..]) > 0 && text[i + 1..][0] == text[i + 1];
    }
    CutAtRuneStart(text, i + 1);
  }

  /** From size 4 on, pieces of valid UTF-8 are valid UTF-8. */
  lemma {:induction false} PiecesStayValid(text: Text, size: nat)
    requires Valid(text) && size >= 4
    ensures forall p :: p in Split(text, size) ==> Valid(p)
    decreases |text|
  {
    if |text| > size {
      CutIsBoundary(text, size);
      PiecesStayValid(text[CutPoint(text, size)..], size);
    }
  }

  /** One character of four bytes: no shorter piece of it is valid, and it has no place to cut. */
  const GRINNING: Text := [0xF0, 0x9F, 0x98, 0x80]

  lemma {:induction false} SmallSizesTearRunes(size: nat)
    requires 1 <= size <= 3
    ensures Valid(GRINNING) && |Split(GRINNING, size)| > 0 && !Valid(Split(GRINNING, size)[0])
  {
    assert RuneLength(GRINNING) == 4 && GRINNING[4..] == [];
    assert BackUp(GRINNING, 3) == BackUp(GRINNING, 2) == BackUp(GRINNING, 1) == 0;
    assert LastSpace(GRINNING, 0) == -1;
    assert CutPoint(GRINNING, size) == size;
    assert GRINNING[..size][0] == 0xF0 && RuneLength(GRINNING[..size]) == 0;
  }

  ghost predicate AllValid(pieces: seq<Text>) {
    forall k :: 0 <= k < |pieces| ==> Valid(pieces[k])
  }

  /** Four is the exact bound: that is the size from which on no valid text is torn. */
  lemma ValidPiecesIff(size: nat)
    requires size >= 1
    ensures (forall text | Valid(text) :: AllValid(Split(text, size))) <==> size >= 4
  {
    if size >= 4 {
      forall text | Valid(text)
        ensures AllValid(Split(text, size))
      {
        PiecesStayValid(text, size);
      }
    } else {
      SmallSizesTearRunes(size);
      assert !AllValid(Split(GRINNING, size));
    }
  }

  /** Two consecutive cuts cover nearly a whole window, even when the first stops at an early space. */
  lemma {:induction false} TwoCuts(text: Text, size: nat)
    requires Valid(text) && 4 <= size < |text|
    requires var rest := text[CutPoint(text, size)..]; size < |rest|
    ensures CutPoint(text, size) + CutPoint(text[CutPoint(text, size)..], size) >= size - 2
  {
    var cut := CutPoint(text, size);
    var rest := text[cut..];
    CutIsBoundary(text, size);
    CutIsBoundary(rest, size);
    var c, c' := BackUp(text, size), BackUp(rest, size);
    var i, i' := LastSpace(text, c), LastSpace(rest, c');
    LastSpaceFinds(text, c);
    LastSpaceFinds(rest, c');
    if i > 0 && i' > 0 {
      // no space is left between the first cut and c, so the second space lies behind c
      assert text[cut + i'] == SPACE;
    }
  }

  lemma PiecesBehindFirst(text: Text, size: nat)
    requires 1 <= size < |text|
    ensures var cut := CutPoint(text, size);
      |Split(text, size)| == |Split(text[cut..], size)| + 1 && |Split(text, size)[0]| == cut
  {
    SplitStep(text, size);
  }

  /** The first two pieces, when a third follows. */
  lemma {:induction false} FirstTwoAreLong(text: Text, size: nat)
    requires Valid(text) && size >= 4 && |Split(text, size)| > 2
    ensures |Split(text, size)[0]| + |Split(text, size)[1]| >= size - 2
  {
    var rest := text[CutPoint(text, size)..];
    PiecesBehindFirst(text, size);
    assert |rest| > size;
    PiecesBehindFirst(rest, size);
    SplitStep(text, size);
    TwoCuts(text, size);
  }

  ghost predicate LongNeighbours(pieces: seq<Text>, d: nat) {
    forall k :: 0 <= k && k + 2 < |pieces| ==> |pieces[k]| + |pieces[k + 1]| >= d
  }

  lemma OneInFront(p: Text, rest: seq<Text>, d: nat)
    requires LongNeighbours(rest, d) && (|rest| >= 2 ==> |p| + |rest[0]| >= d)
    ensures LongNeighbours([p] + rest, d)
  {
  }

  /** Any two consecutive pieces before the last hold at least size - 2 bytes. */
  lemma {:induction false} NeighboursAreLong(text: Text, size: nat)
    requires Valid(text) && size >= 4
    ensures LongNeighbours(Split(text, size), size - 2)
    decreases |text|
  {
    if |text| > size {
      var cut := CutPoint(text, size);
      CutIsBoundary(text, size);
      NeighboursAreLong(text[cut..], size);
      SplitStep(text, size);
      if |Split(text, size)| > 2 {
        FirstTwoAreLong(text, size);
      }
      OneInFront(text[..cut], Split(text[cut..], size), size - 2);
    }
  }

  /** n pieces: pairs of neighbours, of at least d bytes each, fit into len bytes. */
  predicate FitWindows(n: nat, d: nat, len: nat) {
    n <= 2 || (d <= len && FitWindows(n - 2, d, len - d))
  }

  lemma {:induction false} FitMore(n: nat, d: nat, len: nat, len': nat)
    requires FitWindows(n, d, len) && len <= len'
    ensures FitWindows(n, d, len')
  {
    if n > 2 {
      FitMore(n - 2, d, len - d, len' - d);
    }
  }

  lemma {:induction false} FitProduct(n: nat, d: nat, len: nat)
    requires FitWindows(n, d, len) && n >= 1
    ensures ((n - 1) / 2) * d <= len
  {
    if n > 2 {
      FitProduct(n - 2, d, len - d);
      var k := (n - 3) / 2;
      assert (n - 1) / 2 == k + 1;
      assert (k + 1) * d == k * d + d;
    } else {
      assert (n - 1) / 2 == 0;
    }
  }

  lemma {:induction false} FewPieces(pieces: seq<Text>, d: nat)
    requires LongNeighbours(pieces, d)
    ensures FitWindows(|pieces|, d, |Concat(pieces)|)
    decreases |pieces|
  {
    if |pieces| > 2 {
      var rest := pieces[2..];
      assert forall k :: 0 <= k < |rest| ==> rest[k] == pieces[k + 2];
      FewPieces(rest, d);
      assert pieces[1..][1..] == rest;
      assert |Concat(pieces)| == |pieces[0]| + |pieces[1]| + |Concat(rest)|;
      FitMore(|rest|, d, |Concat(rest)|, |Concat(pieces)| - d);
    }
  }

  lemma {:induction false} WindowsBound(n: nat, d: nat, len: nat)
    requires FitWindows(n, d, len) && d > 0
    ensures n <= 2 * (len / d) + 2
  {
    if n > 0 {
      FitProduct(n, d, len);
      Quotient((n - 1) / 2, d, len);
    }
  }

  lemma {:induction false} CountBound(pieces: seq<Text>, d: nat, len: nat)
    requires LongNeighbours(pieces, d) && |Concat(pieces)| == len && d > 0
    ensures |pieces| <= 2 * (len / d) + 2
  {
    FewPieces(pieces, d);
    WindowsBound(|pieces|, d, len);
  }

  /** The number of pieces is at most twice the number of windows of size - 2 bytes, plus two. */
  lemma NumberOfPieces(text: Text, size: nat)
    requires Valid(text) && size >= 4
    ensures |Split(text, size)| <= 2 * (|text| / (size - 2)) + 2
  {
    NeighboursAreLong(text, size);
    FewIfLong(text, size);
  }

  lemma {:induction false} FewIfLong(text: Text, size: nat)
    requires size >= 4 && LongNeighbours(Split(text, size), size - 2)
    ensures |Split(text, size)| <= 2 * (|text| / (size - 2)) + 2
  {
    PiecesAddUp(text, size);
    CountBound(Split(text, size), size - 2, |text|);
  }

  lemma Quotient(k: int, d: int, a: int)
    requires d > 0 && k * d <= a
    ensures k <= a / d
  {
    var q := a / d;
    assert a < q * d + d;
    var more := k - (q + 1);
    assert k * d == more * d + q * d + d;
    assert more >= 0 ==> more * d >= 0;
  }
}
