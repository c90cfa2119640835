/** A source's transformer chain: rows with a position column against an abstract sequence. */
module TransformerChain {
  import opened Ordered

  type Uuid = nat

  /** A row of source_transformers, whose primary key is (source, transformer). */
  datatype Link = Link(source: Uuid, transformer: Uuid, position: int)

  /** ORDER BY position, transformer_id. */
  predicate Before(a: Link, b: Link) {
    a.position < b.position || (a.position == b.position && a.transformer < b.transformer)
  }

  function LinksOf(links: set<Link>, source: Uuid): set<Link> {
    set l | l in links && l.source == source
  }

  /** The primary key, and no two rows of a source at one position. */
  ghost predicate WellPlaced(links: set<Link>) {
    forall a, b :: a in links && b in links && a.source == b.source && a != b ==>
      a.transformer != b.transformer && a.position != b.position
  }

  lemma BeforeIsOrder(links: set<Link>, source: Uuid)
    requires WellPlaced(links)
    ensures StrictOrder(Before, LinksOf(links, source))
  {
  }

  ghost function Listing(links: set<Link>, source: Uuid): seq<Link>
    requires WellPlaced(links)
  {
    BeforeIsOrder(links, source);
    Take(Before, LinksOf(links, source), |LinksOf(links, source)|)
  }

  function Transformers(q: seq<Link>): (s: seq<Uuid>)
    ensures |s| == |q| && forall i :: 0 <= i < |q| ==> s[i] == q[i].transformer
  {
    if q == [] then [] else [q[0].transformer] + Transformers(q[1..])
  }

  /** What ListTransformersBySource returns: the abstract chain. */
  ghost function ChainOf(links: set<Link>, source: Uuid): seq<Uuid>
    requires WellPlaced(links)
  {
    Transformers(Listing(links, source))
  }

  /** A list in position order with exactly the rows of a source is its listing. */
  lemma ListingIs(links: set<Link>, source: Uuid, q: seq<Link>)
    requires WellPlaced(links) && Ascending(Before, q)
    requires forall l :: l in q <==> l in LinksOf(links, source)
    ensures Listing(links, source) == q
  {
    BeforeIsOrder(links, source);
    var s := LinksOf(links, source);
    TakeIsTop(Before, s, |s|);
    ListingHasAll(links, source);
    OneListing(Before, s, Listing(links, source), q);
  }

  lemma ListingHasAll(links: set<Link>, source: Uuid)
    requires WellPlaced(links)
    ensures Ascending(Before, Listing(links, source))
    ensures forall l :: l in Listing(links, source) <==> l in LinksOf(links, source)
  {
    BeforeIsOrder(links, source);
    var s := LinksOf(links, source);
    // one more than there are rows: the list is short, so nothing is left out
    TakeIsTop(Before, s, |s| + 1);
    TakeIsTop(Before, s, |s|);
    TakeMore(Before, s, |s|);
  }

  lemma {:induction false} TakeMore<T(!new)>(less: (T, T) -> bool, s: set<T>, limit: nat)
    requires StrictOrder(less, s) && |s| <= limit
    ensures Take(less, s, limit) == Take(less, s, limit + 1)
    decreases limit
  {
    if s != {} {
      TakeMore(less, s - {First(less, s)}, limit - 1);
    }
  }

  // ----- what the statements do to the chain -----

  ghost predicate Linked(links: set<Link>, source: Uuid, transformer: Uuid) {
    exists l :: l in links && l.source == source && l.transformer == transformer
  }

  lemma ChainMembers(links: set<Link>, source: Uuid, transformer: Uuid)
    requires WellPlaced(links)
    ensures transformer in ChainOf(links, source) <==> Linked(links, source, transformer)
  {
    ListingHasAll(links, source);
    var q, s := Listing(links, source), ChainOf(links, source);
    if transformer in s {
      var i :| 0 <= i < |s| && s[i] == transformer;
      assert q[i] in LinksOf(links, source);
    }
    if Linked(links, source, transformer) {
      var l :| l in links && l.source == source && l.transformer == transformer;
      assert l in LinksOf(links, source) && l in q;
      var i :| 0 <= i < |q| && q[i] == l;
      assert s[i] == transformer;
    }
  }

  /** A chain never lists a transformer twice. */
  lemma ChainIsDistinct(links: set<Link>, source: Uuid)
    requires WellPlaced(links)
    ensures NoDuplicates(ChainOf(links, source))
  {
    ListingHasAll(links, source);
    var q, s := Listing(links, source), ChainOf(links, source);
    forall i, j | 0 <= i < j < |s|
      ensures s[i] != s[j]
    {
      assert q[i] in LinksOf(links, source) && q[j] in LinksOf(links, source) && Before(q[i], q[j]);
    }
  }

  ghost predicate NoDuplicates(ids: seq<Uuid>) {
    forall i, j :: 0 <= i < j < |ids| ==> ids[i] != ids[j]
  }

  lemma {:induction false} TransformersConcat(p: seq<Link>, q: seq<Link>)
    ensures Transformers(p + q) == Transformers(p) + Transformers(q)
  {
    if p == [] {
      assert p + q == q;
    } else {
      assert (p + q)[1..] == p[1..] + q;
      TransformersConcat(p[1..], q);
    }
  }

  lemma OthersUntouched(links: set<Link>, links': set<Link>, source: Uuid)
    requires WellPlaced(links) && WellPlaced(links')
    requires forall l: Link :: l.source != source ==> (l in links <==> l in links')
    ensures forall other :: other != source ==> ChainOf(links', other) == ChainOf(links, other)
  {
    forall other | other != source
      ensures ChainOf(links', other) == ChainOf(links, other)
    {
      assert LinksOf(links', other) == LinksOf(links, other);
    }
  }

  lemma AppendAscends(q: seq<Link>, l: Link)
    requires Ascending(Before, q) && forall k :: k in q ==> Before(k, l)
    ensures Ascending(Before, q + [l])
  {
    assert forall i :: 0 <= i < |q| ==> q[i] in q;
  }

  lemma StillWellPlaced(links: set<Link>, l: Link)
    requires WellPlaced(links) && !Linked(links, l.source, l.transformer)
    requires forall k :: k in LinksOf(links, l.source) ==> k.position < l.position
    ensures WellPlaced(links + {l})
  {
    assert forall a :: a in links && a.source == l.source ==> a in LinksOf(links, l.source);
  }

  /** A row behind all others of its source appends to that chain and leaves the others alone. */
  lemma AttachAppends(links: set<Link>, source: Uuid, transformer: Uuid, position: int)
    requires WellPlaced(links) && !Linked(links, source, transformer)
    requires forall l :: l in LinksOf(links, source) ==> l.position < position
    ensures var links' := links + {Link(source, transformer, position)};
      && WellPlaced(links') && ChainOf(links', source) == ChainOf(links, source) + [transformer]
      && forall other :: other != source ==> ChainOf(links', other) == ChainOf(links, other)
  {
    var l := Link(source, transformer, position);
    var links' := links + {l};
    var q := Listing(links, source);
    StillWellPlaced(links, l);
    OthersUntouched(links, links', source);
    ListingHasAll(links, source);
    AppendAscends(q, l);
    assert LinksOf(links', source) == LinksOf(links, source) + {l};
    ListingIs(links', source, q + [l]);
    TransformersConcat(q, [l]);
    assert Transformers([l]) == [transformer];
  }

  function Without(ids: seq<Uuid>, id: Uuid): seq<Uuid> {
    if ids == [] then [] else (if ids[0] == id then [] else [ids[0]]) + Without(ids[1..], id)
  }

  function Keep(q: seq<Link>, transformer: Uuid): seq<Link> {
    if q == [] then []
    else (if q[0].transformer == transformer then [] else [q[0]]) + Keep(q[1..], transformer)
  }

  lemma {:induction false} KeepMembers(q: seq<Link>, transformer: Uuid)
    ensures forall l :: l in Keep(q, transformer) <==> l in q && l.transformer != transformer
  {
    if q != [] {
      KeepMembers(q[1..], transformer);
      assert q == [q[0]] + q[1..];
    }
  }

  lemma {:induction false} KeepIsWithout(q: seq<Link>, transformer: Uuid)
    ensures Transformers(Keep(q, transformer)) == Without(Transformers(q), transformer)
  {
    if q != [] {
      KeepIsWithout(q[1..], transformer);
      var first := if q[0].transformer == transformer then [] else [q[0]];
      TransformersConcat(first, Keep(q[1..], transformer));
      assert Transformers(q)[1..] == Transformers(q[1..]);
    }
  }

  lemma {:induction false} KeepAscends(q: seq<Link>, transformer: Uuid)
    requires Ascending(Before, q)
    ensures Ascending(Before, Keep(q, transformer))
  {
    if q != [] {
      KeepAscends(q[1..], transformer);
      KeepMembers(q[1..], transformer);
      var rest := Keep(q[1..], transformer);
      forall i | 0 <= i < |rest| ensures Before(q[0], rest[i]) {
        assert rest[i] in q[1..];
      }
    }
  }

  function Unlink(links: set<Link>, source: Uuid, transformer: Uuid): set<Link> {
    set l | l in links && !(l.source == source && l.transformer == transformer)
  }

  lemma DetachRemoves(links: set<Link>, source: Uuid, transformer: Uuid)
    requires WellPlaced(links)
    ensures var links' := Unlink(links, source, transformer);
      && WellPlaced(links') && ChainOf(links', source) == Without(ChainOf(links, source), transformer)
      && forall other :: other != source ==> ChainOf(links', other) == ChainOf(links, other)
  {
    var links' := Unlink(links, source, transformer);
    ListingHasAll(links, source);
    var q := Listing(links, source);
    KeepAscends(q, transformer);
    KeepMembers(q, transformer);
    KeepIsWithout(q, transformer);
    ListingIs(links', source, Keep(q, transformer));
    OthersUntouched(links, links', source);
  }

  function Cleared(links: set<Link>, source: Uuid): set<Link> {
    set l | l in links && l.source != source
  }

  /** Clearing a source and inserting ids at positions 0, 1, ... makes them its chain. */
  lemma ReorderReplaces(links: set<Link>, source: Uuid, ids: seq<Uuid>, n: nat)
    requires WellPlaced(links) && NoDuplicates(ids) && n <= |ids|
    ensures var links' := Cleared(links, source) + Placed(source, ids, n);
      && WellPlaced(links') && ChainOf(links', source) == ids[..n]
      && forall other :: other != source ==> ChainOf(links', other) == ChainOf(links, other)
  {
    var links' := Cleared(links, source) + Placed(source, ids, n);
    var q := seq(n, i requires 0 <= i < n => Link(source, ids[i], i));
    forall l
      ensures l in q <==> l in LinksOf(links', source)
    {
      if l in LinksOf(links', source) {
        assert l in Placed(source, ids, n);
        assert q[l.position] == l;
      }
    }
    ListingIs(links', source, q);
    assert Transformers(q) == ids[..n];
    OthersUntouched(links, links', source);
  }

  function Placed(source: Uuid, ids: seq<Uuid>, n: nat): set<Link>
    requires n <= |ids|
  {
    set i | 0 <= i < n :: Link(source, ids[i], i)
  }

  // ----- validation by counting -----

  function OwnedAmong(transformers: map<Uuid, Uuid>, org: Uuid, ids: seq<Uuid>): set<Uuid> {
    set t | t in transformers && transformers[t] == org && t in ids
  }

  function SetOf(ids: seq<Uuid>): set<Uuid> {
    set id | id in ids
  }

  lemma {:induction false} DistinctCount(ids: seq<Uuid>)
    ensures |SetOf(ids)| <= |ids|
    ensures |SetOf(ids)| == |ids| <==> NoDuplicates(ids)
  {
    if ids != [] {
      var n := |ids| - 1;
      DistinctCount(ids[..n]);
      assert ids == ids[..n] + [ids[n]];
      assert SetOf(ids) == SetOf(ids[..n]) + {ids[n]};
      if ids[n] in ids[..n] {
        var i :| 0 <= i < n && ids[i] == ids[n];
        assert SetOf(ids) == SetOf(ids[..n]);
      } else {
        assert NoDuplicates(ids) <==> NoDuplicates(ids[..n]);
      }
    }
  }

  /** Without duplicates, as many owned ids as ids means that all of them are owned. */
  lemma CountingFindsStrangers(transformers: map<Uuid, Uuid>, org: Uuid, ids: seq<Uuid>)
    requires NoDuplicates(ids)
    ensures |OwnedAmong(transformers, org, ids)| == |ids|
      <==> forall id :: id in ids ==> id in transformers && transformers[id] == org
  {
    DistinctCount(ids);
    var owned, all := OwnedAmong(transformers, org, ids), SetOf(ids);
    assert owned <= all;
    assert forall id :: id in ids <==> id in all;
    if owned != all {
      SmallerSubset(owned, all);
    }
  }

  lemma SmallerSubset(a: set<Uuid>, b: set<Uuid>)
    requires a < b
    ensures |a| < |b|
  {
    assert |b| == |a| + |b - a|;
  }

  /** The first occurrences, in order. */
  function Firsts(ids: seq<Uuid>): seq<Uuid> {
    if ids == [] then []
    else
      var n := |ids| - 1;
      Firsts(ids[..n]) + (if ids[n] in ids[..n] then [] else [ids[n]])
  }

  /** Each id stands where it came first: what comes later only adds to the list. */
  lemma {:induction false} FirstsGrow(ids: seq<Uuid>, k: nat)
    requires k <= |ids|
    ensures Firsts(ids[..k]) <= Firsts(ids)
    ensures forall id :: id in Firsts(ids[..k]) <==> id in ids[..k]
    decreases |ids|
  {
    var n := |ids| - 1;
    if k <= n {
      FirstsGrow(ids[..n], k);
      assert ids[..n][..k] == ids[..k];
    } else if k > 0 {
      FirstsGrow(ids[..n], n);
      assert ids[..k] == ids && ids[..n][..n] == ids[..n] && ids == ids[..n] + [ids[n]];
    }
  }

  /** Order-preserving removal of duplicates. */
  method UniqueUuids(ids: seq<Uuid>) returns (out: seq<Uuid>)
    ensures out == Firsts(ids)
    ensures NoDuplicates(out) && forall id :: id in out <==> id in ids
    ensures |out| == |ids| <==> NoDuplicates(ids)
  {
    var seen: set<Uuid> := {};
    out := [];
    for i := 0 to |ids|
      invariant seen == SetOf(ids[..i]) && seen == SetOf(out)
      invariant NoDuplicates(out) && out == Firsts(ids[..i])
    {
      assert ids[..i + 1] == ids[..i] + [ids[i]];
      assert ids[i] in seen <==> ids[i] in ids[..i];
      if ids[i] !in seen {
        seen := seen + {ids[i]};
        out := out + [ids[i]];
      }
      assert SetOf(ids[..i + 1]) == SetOf(ids[..i]) + {ids[i]};
    }
    assert ids[..|ids|] == ids;
    assert forall id :: id in out <==> id in SetOf(out);
    assert forall id :: id in ids <==> id in SetOf(ids);
    DistinctCount(ids);
    DistinctCount(out);
  }

  // ----- who owns what is in a chain -----

  /** The owning organization of each transformer and source. */
  datatype Owners = Owners(transformers: map<Uuid, Uuid>, sources: map<Uuid, Uuid>)

  datatype Call =
    | Attach(org: Uuid, transformer: Uuid, source: Uuid)
    | Detach(org: Uuid, transformer: Uuid, source: Uuid)
    | Reorder(org: Uuid, source: Uuid, ids: seq<Uuid>)

  predicate OwnsTransformer(o: Owners, org: Uuid, transformer: Uuid) {
    transformer in o.transformers && o.transformers[transformer] == org
  }

  /** Which calls succeed. Attaching looks at the owner of the transformer and not at that of the source. */
  ghost predicate Accepts(o: Owners, call: Call) {
    match call
    case Attach(org, transformer, source) => OwnsTransformer(o, org, transformer) && source in o.sources
    case Detach(org, transformer, source) => OwnsTransformer(o, org, transformer)
    case Reorder(org, source, ids) =>
      && NoDuplicates(ids) && source in o.sources && o.sources[source] == org
      && forall id :: id in ids ==> OwnsTransformer(o, org, id)
  }

  /** COALESCE(MAX(position) + 1, 0) over the rows of a source. */
  ghost predicate IsNext(links: set<Link>, source: Uuid, next: int) {
    && (forall l :: l in LinksOf(links, source) ==> l.position < next)
    && (if LinksOf(links, source) == {} then next == 0
        else exists l :: l in LinksOf(links, source) && next == l.position + 1)
  }

  /** Behind a chain that was just reordered: the position after its last. */
  lemma NextAfterReorder(links: set<Link>, source: Uuid, ids: seq<Uuid>, n: nat, next: int)
    requires n <= |ids| && IsNext(Cleared(links, source) + Placed(source, ids, n), source, next)
    ensures next == n
  {
    var links' := Cleared(links, source) + Placed(source, ids, n);
    if n > 0 {
      assert Link(source, ids[n - 1], n - 1) in LinksOf(links', source);
    }
    assert forall l :: l in LinksOf(links', source) ==> l in Placed(source, ids, n);
  }

  /** A row at the next position, unless the transformer is there already. */
  ghost predicate Attached(links: set<Link>, source: Uuid, transformer: Uuid, links': set<Link>) {
    if Linked(links, source, transformer) then links' == links
    else exists next :: IsNext(links, source, next) && links' == links + {Link(source, transformer, next)}
  }

  ghost predicate ChainStep(o: Owners, links: set<Link>, call: Call, links': set<Link>) {
    if !Accepts(o, call) then links' == links
    else match call
      case Attach(org, transformer, source) => Attached(links, source, transformer, links')
      case Detach(org, transformer, source) => links' == Unlink(links, source, transformer)
      case Reorder(org, source, ids) => links' == Cleared(links, source) + Placed(source, ids, |ids|)
  }

  /** Every chain holds only transformers of the organization that owns its source. */
  ghost predicate AllOwned(o: Owners, links: set<Link>) {
    forall l :: l in links ==> l.source in o.sources && OwnsTransformer(o, o.sources[l.source], l.transformer)
  }

  /** An organization attaches its own transformer to another organization's source. */
  predicate Foreign(o: Owners, call: Call) {
    && call.Attach? && OwnsTransformer(o, call.org, call.transformer)
    && call.source in o.sources && o.sources[call.source] != call.org
  }

  lemma StepOwnedIff(o: Owners, links: set<Link>, call: Call, links': set<Link>)
    requires AllOwned(o, links) && ChainStep(o, links, call, links')
    ensures AllOwned(o, links') <==> !Foreign(o, call)
  {
    if call.Attach? && Accepts(o, call) && !Linked(links, call.source, call.transformer) {
      var next :| IsNext(links, call.source, next) && links' == links + {Link(call.source, call.transformer, next)};
      assert Link(call.source, call.transformer, next) in links';
    }
  }

  /** The states a sequence of calls goes through, from empty tables on. */
  ghost predicate ChainRun(o: Owners, calls: seq<Call>, states: seq<set<Link>>) {
    && |states| == |calls| + 1 && states[0] == {}
    && forall k :: 0 <= k < |calls| ==> ChainStep(o, states[k], calls[k], states[k + 1])
  }

  lemma {:induction false} OwnedWhileNotForeign(o: Owners, calls: seq<Call>, states: seq<set<Link>>, n: nat)
    requires ChainRun(o, calls, states) && n < |states| && forall k :: 0 <= k < n ==> !Foreign(o, calls[k])
    ensures AllOwned(o, states[n])
  {
    if n > 0 {
      OwnedWhileNotForeign(o, calls, states, n - 1);
      StepOwnedIff(o, states[n - 1], calls[n - 1], states[n]);
    }
  }

  /** Chains stay within their organization throughout a run exactly when no call attaches across organizations. */
  lemma ChainsStayOwnedIff(o: Owners, calls: seq<Call>, states: seq<set<Link>>)
    requires ChainRun(o, calls, states)
    ensures (forall n :: 0 <= n < |states| ==> AllOwned(o, states[n]))
      <==> (forall k :: 0 <= k < |calls| ==> !Foreign(o, calls[k]))
  {
    if forall k :: 0 <= k < |calls| ==> !Foreign(o, calls[k]) {
      forall n | 0 <= n < |states|
        ensures AllOwned(o, states[n])
      {
        OwnedWhileNotForeign(o, calls, states, n);
      }
    } else {
      var k :| 0 <= k < |calls| && Foreign(o, calls[k]);
      if AllOwned(o, states[k]) {
        StepOwnedIff(o, states[k], calls[k], states[k + 1]);
      }
    }
  }

  // ----- the service over its tables -----

  lemma PlacedNext(source: Uuid, ids: seq<Uuid>, i: nat, links: set<Link>)
    requires i < |ids|
    ensures links + Placed(source, ids, i) + {Link(source, ids[i], i)} == links + Placed(source, ids, i + 1)
  {
    assert Placed(source, ids, i + 1) == Placed(source, ids, i) + {Link(source, ids[i], i)};
  }

  ghost predicate LinksKnown(o: Owners, links: set<Link>) {
    forall l :: l in links ==> l.transformer in o.transformers && l.source in o.sources
  }

  /** What a reordered source looks like, and that the tables stay in order. */
  lemma Reordered(o: Owners, links: set<Link>, source: Uuid, ids: seq<Uuid>)
    requires WellPlaced(links) && LinksKnown(o, links) && NoDuplicates(ids) && source in o.sources
    requires forall id :: id in ids ==> id in o.transformers
    ensures var links' := Cleared(links, source) + Placed(source, ids, |ids|);
      && WellPlaced(links') && LinksKnown(o, links') && ChainOf(links', source) == ids
      && forall other :: other != source ==> ChainOf(links', other) == ChainOf(links, other)
  {
    ReorderReplaces(links, source, ids, |ids|);
    assert ids[..|ids|] == ids;
    assert forall l :: l in Placed(source, ids, |ids|) ==> l.source == source && l.transformer in ids;
  }

  class ChainStore {
    /** Owning organization of each transformer and source, and source_transformers. */
    var transformers: map<Uuid, Uuid>
    var sources: map<Uuid, Uuid>
    var links: set<Link>

    ghost function Owned(): Owners
      reads this
    {
      Owners(transformers, sources)
    }

    ghost predicate Valid()
      reads this
    {
      WellPlaced(links) && LinksKnown(Owned(), links)
    }

    ghost function Chain(source: Uuid): seq<Uuid>
      reads this
      requires Valid()
    {
      ChainOf(links, source)
    }

    constructor (transformers: map<Uuid, Uuid>, sources: map<Uuid, Uuid>)
      ensures Valid() && this.transformers == transformers && this.sources == sources && links == {}
    {
      this.transformers, this.sources, this.links := transformers, sources, {};
    }

    /** COALESCE(MAX(position) + 1, 0) over the rows of a source. */
    method NextPosition(source: Uuid) returns (next: int)
      ensures IsNext(links, source, next)
    {
      var todo := LinksOf(links, source);
      if todo == {} {
        return 0;
      }
      var l :| l in todo;
      next := l.position + 1;
      todo := todo - {l};
      while todo != {}
        invariant todo <= LinksOf(links, source)
        invariant forall k :: k in LinksOf(links, source) && k !in todo ==> k.position < next
        invariant exists k :: k in LinksOf(links, source) && next == k.position + 1
        decreases todo
      {
        var k :| k in todo;
        if k.position >= next {
          next := k.position + 1;
        }
        todo := todo - {k};
      }
    }

    /** Attaching appends to the chain, or does nothing if the transformer is in it already. */
    method AttachToSource(org: Uuid, transformer: Uuid, source: Uuid) returns (ok: bool)
      requires Valid()
      modifies this`links
      ensures Valid()
      ensures ok <==> transformer in transformers && transformers[transformer] == org && source in sources
      ensures ChainStep(Owned(), old(links), Attach(org, transformer, source), links)
      ensures !ok ==> links == old(links)
      ensures ok && transformer in old(Chain(source)) ==> Chain(source) == old(Chain(source))
      ensures ok && transformer !in old(Chain(source)) ==> Chain(source) == old(Chain(source)) + [transformer]
      ensures forall other :: other != source ==> Chain(other) == old(Chain(other))
    {
      if transformer !in transformers || transformers[transformer] != org {
        return false;
      }
      if source !in sources {
        return false;
      }
      ChainMembers(links, source, transformer);
      var position := NextPosition(source);
      if !exists l :: l in links && l.source == source && l.transformer == transformer {
        AttachAppends(links, source, transformer, position);
        links := links + {Link(source, transformer, position)};
      }
      ok := true;
    }

    method DetachFromSource(org: Uuid, transformer: Uuid, source: Uuid) returns (ok: bool)
      requires Valid()
      modifies this`links
      ensures Valid()
      ensures ok <==> transformer in transformers && transformers[transformer] == org
      ensures ChainStep(Owned(), old(links), Detach(org, transformer, source), links)
      ensures !ok ==> links == old(links)
      ensures ok ==> Chain(source) == Without(old(Chain(source)), transformer)
      ensures forall other :: other != source ==> Chain(other) == old(Chain(other))
    {
      if transformer !in transformers || transformers[transformer] != org {
        return false;
      }
      DetachRemoves(links, source, transformer);
      links := Unlink(links, source, transformer);
      ok := true;
    }

    /** The insert loop of the transaction, behind the delete. */
    method InsertAll(source: Uuid, ids: seq<Uuid>)
      modifies this`links
      ensures links == old(links) + Placed(source, ids, |ids|)
    {
      ghost var before := links;
      assert before + Placed(source, ids, 0) == before;
      var i := 0;
      while i < |ids|
        invariant 0 <= i <= |ids|
        invariant links == before + Placed(source, ids, i)
      {
        PlacedNext(source, ids, i, before);
        links := links + {Link(source, ids[i], i)};
        i := i + 1;
      }
    }

    /** Replaces a chain: exactly for distinct ids that all belong to the source's organization. */
    method SetSourceTransformers(org: Uuid, source: Uuid, ids: seq<Uuid>) returns (ok: bool)
      requires Valid()
      modifies this`links
      ensures Valid()
      ensures ok <==> Accepts(Owned(), Reorder(org, source, ids))
      ensures ChainStep(Owned(), old(links), Reorder(org, source, ids), links)
      ensures Chain(source) == if ok then ids else old(Chain(source))
      ensures forall other :: other != source ==> Chain(other) == old(Chain(other))
    {
      var unique := UniqueUuids(ids);
      if |unique| != |ids| {
        return false;
      }
      CountingFindsStrangers(transformers, org, ids);
      if |OwnedAmong(transformers, org, ids)| != |ids| {
        return false;
      }
      if source !in sources || sources[source] != org {
        return false;
      }
      Reordered(Owned(), links, source, ids);
      links := Cleared(links, source);
      InsertAll(source, ids);
      ok := true;
    }
  }
}
