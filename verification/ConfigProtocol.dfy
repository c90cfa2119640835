/**
  The whole protocol as a step relation: the control plane publishes, one data plane polls, fails,
  crashes, restarts and falls back to its snapshot file.
 */
module ConfigProtocol {
  import opened ConfigPoller
  import opened WorkspaceConfig
  import opened Wrappers

  type Content = seq<OrgConfig>
  type Hash = Content -> string

  /** No two of the given contents have the same hash; other contents may. */
  ghost predicate NoCollision(hash: Hash, contents: seq<Content>) {
    forall a, b :: a in contents && b in contents && hash(a) == hash(b) ==> a == b
  }

  /**
    published lists the contents of the control plane, oldest first. The -At fields are history:
    the position in published that the served, stored or promised content is known to have.
   */
  datatype System = System(
    published: seq<Content>,
    plane: Plane,
    waiting: bool,
    pending: Option<HttpResult>,
    servedAt: nat,
    diskAt: nat,
    pendingAt: nat)

  function Current(s: System): Content
    requires s.published != []
  {
    s.published[|s.published| - 1]
  }

  ghost predicate Init(s: System) {
    s.published != [] && s.plane == Plane(None, "", None) && s.waiting && s.pending.None?
  }

  ghost predicate Publish(s: System, s': System) {
    exists c :: s' == s.(published := s.published + [c])
  }

  /** The poller asks; the control plane answers from one state of its database, or the call fails. */
  ghost predicate Ask(hash: Hash, s: System, s': System) {
    && s.pending.None? && s.published != []
    && exists resp ::
      && Answer(hash, s, resp)
      && s' == s.(pending := Some(resp), pendingAt := |s.published| - 1)
  }

  ghost predicate Answer(hash: Hash, s: System, resp: HttpResult)
    requires s.published != []
  {
    || Failure(resp)
    || exists now :: resp == Get(Ok(Config(hash(Current(s)), now, Current(s))), s.plane.lastETag)
  }

  ghost predicate Failure(resp: HttpResult) {
    resp.NoResponse? || (resp.status != 200 && resp.status != 304)
  }

  /** The answer arrives, is garbled, does not compile, or is applied and saved or not saved. */
  ghost predicate Receive(s: System, s': System) {
    && s.pending.Some?
    && exists resp, applies, saves ::
      (resp == s.pending.value || resp == NoResponse) && Received(s, resp, applies, saves, s')
  }

  ghost predicate Received(s: System, resp: HttpResult, applies: bool, saves: bool, s': System) {
    var (plane, ok) := Fetched(s.plane, resp, applies, saves);
    s' == s.(plane := plane, waiting := s.waiting && !ok, pending := None,
             servedAt := if ok then s.pendingAt else s.servedAt,
             diskAt := if ok && resp.status == 200 && saves then s.pendingAt else s.diskAt)
  }

  /** Past the startup deadline: the snapshot file if it is there and compiles, else nothing. */
  ghost predicate Fallback(s: System, s': System) {
    && s.waiting && s.pending.None?
    && exists applies ::
      var (plane, ok) := FellBack(s.plane, applies);
      s' == s.(plane := plane, waiting := false, servedAt := if ok then s.diskAt else s.servedAt)
  }

  /** The process dies and starts again: only the snapshot file is left. */
  ghost predicate Crash(s: System, s': System) {
    s' == s.(plane := Plane(None, "", s.plane.disk), waiting := true, pending := None, servedAt := 0, pendingAt := 0)
  }

  ghost predicate LoseDisk(s: System, s': System) {
    s' == s.(plane := s.plane.(disk := None))
  }

  /** A step within one life of the data-plane process. */
  ghost predicate LiveStep(hash: Hash, s: System, s': System) {
    Publish(s, s') || Ask(hash, s, s') || Receive(s, s') || Fallback(s, s') || LoseDisk(s, s')
  }

  ghost predicate Step(hash: Hash, s: System, s': System) {
    LiveStep(hash, s, s') || Crash(s, s')
  }

  // ----- the invariant -----

  /** A payload that the control plane built when its content was published[at]. */
  ghost predicate Published(hash: Hash, s: System, cfg: Config, at: nat) {
    at < |s.published| && cfg.organizations == s.published[at] && cfg.version == hash(s.published[at])
  }

  ghost predicate PendingOk(hash: Hash, s: System) {
    s.pending.Some? ==>
      && s.pendingAt < |s.published|
      && (s.plane.served.Some? ==> s.servedAt <= s.pendingAt)
      && match s.pending.value
         case NoResponse => true
         case Response(status, etag, body) =>
           && (status == 200
             ==> body.Some? && etag == Quote(body.value.version) && Published(hash, s, body.value, s.pendingAt))
           && (status == 304 ==> s.plane.served.Some? && Published(hash, s, s.plane.served.value, s.pendingAt))
  }

  ghost predicate Inv(hash: Hash, s: System) {
    && s.published != []
    && (s.plane.served.Some? ==> Published(hash, s, s.plane.served.value, s.servedAt))
    && (s.plane.disk.Some? ==> Published(hash, s, s.plane.disk.value, s.diskAt))
    && (s.plane.lastETag != "" ==> s.plane.served.Some? && s.plane.lastETag == Quote(s.plane.served.value.version))
    && (s.waiting ==> s.plane.served.None?)
    && PendingOk(hash, s)
  }

  lemma QuoteInjective(v: string, w: string)
    requires Quote(v) == Quote(w)
    ensures v == w
  {
    assert Quote(v)[1..|Quote(v)| - 1] == v && Quote(w)[1..|Quote(w)| - 1] == w;
  }

  /** When it answers, a 304 means that what is served is what the control plane has right now. */
  lemma NotModifiedMeansCurrent(hash: Hash, s: System, resp: HttpResult)
    requires Inv(hash, s) && NoCollision(hash, s.published) && Answer(hash, s, resp)
    requires resp.Response? && resp.status == 304
    ensures s.plane.served.Some? && s.plane.served.value.organizations == Current(s)
    ensures Published(hash, s, s.plane.served.value, |s.published| - 1)
  {
    QuoteInjective(s.plane.served.value.version, hash(Current(s)));
  }

  /** And conversely: a successful answer is a 304 exactly when the poller already has the content. */
  lemma AnswerIs304Iff(hash: Hash, s: System, now: int)
    requires Inv(hash, s) && NoCollision(hash, s.published)
    ensures Get(Ok(Config(hash(Current(s)), now, Current(s))), s.plane.lastETag).status == 304
      <==> s.plane.lastETag != "" && s.plane.served.value.organizations == Current(s)
  {
    if s.plane.lastETag == Quote(hash(Current(s))) {
      QuoteInjective(s.plane.served.value.version, hash(Current(s)));
    }
  }

  lemma StepKeepsInv(hash: Hash, s: System, s': System)
    requires Inv(hash, s) && NoCollision(hash, s.published) && Step(hash, s, s')
    ensures Inv(hash, s')
  {
    if Publish(s, s') {
      assert forall i :: 0 <= i < |s.published| ==> s'.published[i] == s.published[i];
    } else if Ask(hash, s, s') {
      var resp :| Answer(hash, s, resp) && s' == s.(pending := Some(resp), pendingAt := |s.published| - 1);
      if resp.Response? && resp.status == 304 {
        NotModifiedMeansCurrent(hash, s, resp);
      }
    } else if Receive(s, s') {
      ReceiveKeepsInv(hash, s, s');
    }
  }

  lemma ReceiveKeepsInv(hash: Hash, s: System, s': System)
    requires Inv(hash, s) && Receive(s, s')
    ensures Inv(hash, s')
    ensures s.plane.served.Some? ==> s'.plane.served.Some? && s.servedAt <= s'.servedAt
    ensures s'.published == s.published
  {
    var resp, applies, saves :|
      (resp == s.pending.value || resp == NoResponse) && Received(s, resp, applies, saves, s');
  }

  // ----- runs -----

  ghost predicate Run(hash: Hash, run: seq<System>) {
    && run != [] && Init(run[0])
    && forall i :: 0 < i < |run| ==> Step(hash, run[i - 1], run[i])
  }

  lemma PublishedGrows(hash: Hash, s: System, s': System)
    requires Step(hash, s, s')
    ensures s.published <= s'.published
  {
  }

  lemma FewerCollide(hash: Hash, few: seq<Content>, all: seq<Content>)
    requires few <= all && NoCollision(hash, all)
    ensures NoCollision(hash, few)
  {
    assert forall c :: c in few ==> c in all;
  }

  lemma {:induction false} PublishedInRun(hash: Hash, run: seq<System>, m: nat, n: nat)
    requires Run(hash, run) && m <= n < |run|
    ensures run[m].published <= run[n].published
    decreases n - m
  {
    if m < n {
      PublishedInRun(hash, run, m, n - 1);
      PublishedGrows(hash, run[n - 1], run[n]);
    }
  }

  /** It is enough that the hash tells apart what was published up to the state. */
  lemma {:induction false} EveryStateOk(hash: Hash, run: seq<System>, n: nat)
    requires Run(hash, run) && n < |run| && NoCollision(hash, run[n].published)
    ensures Inv(hash, run[n])
  {
    if n > 0 {
      PublishedGrows(hash, run[n - 1], run[n]);
      FewerCollide(hash, run[n - 1].published, run[n].published);
      EveryStateOk(hash, run, n - 1);
      StepKeepsInv(hash, run[n - 1], run[n]);
    }
  }

  /**
    In every reachable state: a non-empty ETag names exactly the served payload, and what is served
    or on disk was published earlier.
   */
  lemma ReachableStates(hash: Hash, run: seq<System>, n: nat)
    requires Run(hash, run) && n < |run| && NoCollision(hash, run[n].published)
    ensures var s := run[n];
      && (s.plane.lastETag != ""
        ==> s.plane.served.Some? && s.plane.lastETag == Quote(hash(s.plane.served.value.organizations)))
      && (s.plane.served.Some? ==> s.plane.served.value.organizations in s.published)
      && (s.plane.disk.Some? ==> s.plane.disk.value.organizations in s.published)
  {
    EveryStateOk(hash, run, n);
  }

  lemma LiveStepMovesForward(hash: Hash, s: System, s': System)
    requires Inv(hash, s) && LiveStep(hash, s, s') && s.plane.served.Some?
    ensures s'.plane.served.Some? && s.servedAt <= s'.servedAt
    ensures s.published <= s'.published
  {
    if Receive(s, s') {
      ReceiveKeepsInv(hash, s, s');
    }
  }

  ghost predicate Forward(s: System, s': System) {
    s'.plane.served.Some? && s.servedAt <= s'.servedAt && s.published <= s'.published
  }

  lemma {:induction false} LiveRunMovesForward(hash: Hash, run: seq<System>, m: nat, n: nat)
    requires m <= n < |run| && run[m].plane.served.Some?
    requires forall i :: m <= i <= n ==> Inv(hash, run[i])
    requires forall i :: m < i <= n ==> LiveStep(hash, run[i - 1], run[i])
    ensures Forward(run[m], run[n])
    decreases n - m
  {
    if m < n {
      LiveRunMovesForward(hash, run, m, n - 1);
      assert LiveStep(hash, run[n - 1], run[n]);
      LiveStepMovesForward(hash, run[n - 1], run[n]);
    }
  }

  /** Within one life of the process the store never unloads and never goes back in publication order. */
  lemma NeverGoesBack(hash: Hash, run: seq<System>, m: nat, n: nat)
    requires Run(hash, run) && m <= n < |run| && NoCollision(hash, run[n].published)
    requires forall i :: m < i <= n ==> LiveStep(hash, run[i - 1], run[i])
    requires run[m].plane.served.Some?
    ensures run[n].plane.served.Some? && run[m].servedAt <= run[n].servedAt
    ensures Published(hash, run[m], run[m].plane.served.value, run[m].servedAt)
    ensures Published(hash, run[n], run[n].plane.served.value, run[n].servedAt)
    ensures run[m].published <= run[n].published
  {
    forall i | m <= i <= n
      ensures Inv(hash, run[i])
    {
      PublishedInRun(hash, run, i, n);
      FewerCollide(hash, run[i].published, run[n].published);
      EveryStateOk(hash, run, i);
    }
    LiveRunMovesForward(hash, run, m, n);
    assert Inv(hash, run[m]) && Inv(hash, run[n]);
  }

  /**
    A fetch that succeeds brings the store to the content the control plane had when it answered,
    or leaves it there; a fetch that fails, for whatever reason, changes nothing.
   */
  lemma FetchOutcome(hash: Hash, s: System, resp: HttpResult, applies: bool, saves: bool, s': System)
    requires Inv(hash, s) && s.pending.Some? && resp in {s.pending.value, NoResponse}
    requires Received(s, resp, applies, saves, s')
    ensures var (plane, ok) := Fetched(s.plane, resp, applies, saves);
      && (ok ==> s'.plane.served.Some? && s'.plane.served.value.organizations == s.published[s.pendingAt])
      && (!ok ==> s'.plane == s.plane && s'.waiting == s.waiting)
  {
  }

  // ----- the poller's methods are steps of the protocol -----

  /** One fetch against a control plane that answers is a question and its answer. */
  lemma FetchIsAskThenReceive(hash: Hash, s: System, server: string -> HttpResult, applies: bool, saves: bool)
    returns (s1: System, s2: System)
    requires s.pending.None? && s.published != [] && Answer(hash, s, server(s.plane.lastETag))
    ensures Ask(hash, s, s1) && Receive(s1, s2)
    ensures var (plane, ok) := Fetched(s.plane, server(s.plane.lastETag), applies, saves);
      s2.plane == plane && s2.waiting == (s.waiting && !ok) && s2.pending.None? && s2.published == s.published
  {
    var resp := server(s.plane.lastETag);
    s1 := s.(pending := Some(resp), pendingAt := |s.published| - 1);
    var (plane, ok) := Fetched(s1.plane, resp, applies, saves);
    s2 := s1.(plane := plane, waiting := s1.waiting && !ok, pending := None,
              servedAt := if ok then s1.pendingAt else s1.servedAt,
              diskAt := if ok && resp.status == 200 && saves then s1.pendingAt else s1.diskAt);
    assert Received(s1, resp, applies, saves, s2);
  }
}
