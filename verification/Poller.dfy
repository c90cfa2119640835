/** One exchange of the config protocol: the ETag handler, the poller and its disk snapshot. */
module ConfigPoller {
  import opened ConfigStore
  import opened SnapshotFile
  import opened WorkspaceConfig
  import opened Wrappers

  /** What an HTTP call came to; body is None when it cannot be decoded. */
  datatype HttpResult = NoResponse | Response(status: int, etag: string, body: Option<Config>)

  function Quote(version: string): string {
    "\"" + version + "\""
  }

  /** Handler.Get on the outcome of Build; an absent If-None-Match header reads as "". */
  function Get(built: Result<Config>, ifNoneMatch: string): HttpResult {
    match built
    case Err(_) => Response(500, "", None)
    case Ok(cfg) =>
      if ifNoneMatch == Quote(cfg.version) then Response(304, Quote(cfg.version), None)
      else Response(200, Quote(cfg.version), Some(cfg))
  }

  /** The data plane's side: what it serves, the last ETag, and the snapshot file that outlives it. */
  datatype Plane = Plane(served: Option<Config>, lastETag: string, disk: Option<Config>)

  /** How one fetch changes it, given whether the body compiles and whether it can be saved. */
  function Fetched(p: Plane, resp: HttpResult, applies: bool, saves: bool): (Plane, bool) {
    if resp.NoResponse? then (p, false)
    else if resp.status == 304 then (p, true)
    else if resp.status == 200 && resp.body.Some? && applies then
      (Plane(resp.body, resp.etag, if saves then resp.body else p.disk), true)
    else (p, false)
  }

  /** The startup fallback: serve the snapshot file and leave the ETag as it is. */
  function FellBack(p: Plane, applies: bool): (Plane, bool) {
    if p.disk.Some? && applies then (p.(served := p.disk), true) else (p, false)
  }

  ghost predicate Compiles(reg: Registry, cfg: Option<Config>) {
    cfg.Some? && !ConfigFails(reg, cfg.value.organizations)
  }

  /**
    One attempt of a polling loop: what the control plane would answer to each If-None-Match value,
    what saving comes to, and whether the startup deadline has passed afterwards.
   */
  datatype Attempt = Attempt(server: string -> HttpResult, fault: Fault, nonce: nat, late: bool)

  /** The attempt on a plane: its answer to the last ETag, applied, and saved if that succeeds. */
  ghost function Tried(reg: Registry, p: Plane, a: Attempt, keeps: bool): (Plane, bool) {
    var resp := a.server(p.lastETag);
    Fetched(p, resp, resp.Response? && Compiles(reg, resp.body), keeps && a.fault.NoFault?)
  }

  ghost function Waited(reg: Registry, p: Plane, keeps: bool, attempts: seq<Attempt>): (Plane, bool)
    decreases |attempts|
  {
    if attempts == [] then (p, false)
    else
      var a := attempts[0];
      var (p', ok) := Tried(reg, p, a, keeps);
      if ok then (p', true)
      else if a.late then FellBack(p', Compiles(reg, p'.disk))
      else Waited(reg, p', keeps, attempts[1..])
  }

  /** How many attempts fail before the deadline until one succeeds or is late. */
  ghost function Pauses(reg: Registry, p: Plane, keeps: bool, attempts: seq<Attempt>): nat
    decreases |attempts|
  {
    if attempts == [] then 0
    else
      var (p', ok) := Tried(reg, p, attempts[0], keeps);
      if ok || attempts[0].late then 0 else 1 + Pauses(reg, p', keeps, attempts[1..])
  }

  ghost function Polled(reg: Registry, p: Plane, keeps: bool, attempts: seq<Attempt>): Plane
    decreases |attempts|
  {
    if attempts == [] then p
    else Polled(reg, Tried(reg, p, attempts[0], keeps).0, keeps, attempts[1..])
  }

  /** The waits of the polling loop: the interval after a success, doubled up to six intervals after a failure. */
  ghost function Waits(reg: Registry, p: Plane, keeps: bool, interval: nat, wait: nat, attempts: seq<Attempt>): seq<nat>
    decreases |attempts|
  {
    if attempts == [] then []
    else
      var a := attempts[0];
      var (p', ok) := Tried(reg, p, a, keeps);
      [wait] + Waits(reg, p', keeps, interval, NextWait(interval, wait, ok), attempts[1..])
  }

  function NextWait(interval: nat, wait: nat, ok: bool): nat {
    if ok then interval else if wait * 2 < 6 * interval then wait * 2 else 6 * interval
  }

  /** Seconds before the retry after the i-th failure: 1, 2, 4, and 8 from then on. */
  function Backoff(i: nat): (seconds: nat)
    ensures seconds in {1, 2, 4, 8}
  {
    if i == 0 then 1 else if Backoff(i - 1) < 8 then 2 * Backoff(i - 1) else Backoff(i - 1)
  }

  function Backoffs(n: nat): (bs: seq<nat>)
    ensures |bs| == n
  {
    if n == 0 then [] else Backoffs(n - 1) + [Backoff(n - 1)]
  }

  /** After k pauses, with the plane as it is now, the startup still comes to what it would from the beginning. */
  ghost predicate StillWaiting(reg: Registry, p0: Plane, p: Plane, keeps: bool, attempts: seq<Attempt>, k: nat) {
    && k <= |attempts|
    && Waited(reg, p, keeps, attempts[k..]) == Waited(reg, p0, keeps, attempts)
    && k + Pauses(reg, p, keeps, attempts[k..]) == Pauses(reg, p0, keeps, attempts)
  }

  lemma NextWaited(reg: Registry, p0: Plane, p: Plane, keeps: bool, attempts: seq<Attempt>, k: nat)
    requires StillWaiting(reg, p0, p, keeps, attempts, k)
    ensures k == |attempts| ==> Waited(reg, p0, keeps, attempts) == (p, false) && Pauses(reg, p0, keeps, attempts) == k
    ensures k < |attempts| ==>
      var (p', ok) := Tried(reg, p, attempts[k], keeps);
      var end := if ok then (p', true) else FellBack(p', Compiles(reg, p'.disk));
      if ok || attempts[k].late
      then Waited(reg, p0, keeps, attempts) == end && Pauses(reg, p0, keeps, attempts) == k
      else StillWaiting(reg, p0, p', keeps, attempts, k + 1)
  {
    assert k < |attempts| ==> attempts[k..][1..] == attempts[k + 1..];
  }

  lemma {:induction false} WaitsInBounds(reg: Registry, p: Plane, keeps: bool, interval: nat, wait: nat,
                                         attempts: seq<Attempt>)
    requires interval <= wait <= 6 * interval
    ensures var waits := Waits(reg, p, keeps, interval, wait, attempts);
      |waits| == |attempts| && forall i :: 0 <= i < |waits| ==> interval <= waits[i] <= 6 * interval
    decreases |attempts|
  {
    if attempts != [] {
      var (p', ok) := Tried(reg, p, attempts[0], keeps);
      WaitsInBounds(reg, p', keeps, interval, NextWait(interval, wait, ok), attempts[1..]);
    }
  }

  lemma {:induction false} PollingKeepsServing(reg: Registry, p: Plane, keeps: bool, attempts: seq<Attempt>)
    requires p.served.Some?
    ensures Polled(reg, p, keeps, attempts).served.Some?
    decreases |attempts|
  {
    if attempts != [] {
      PollingKeepsServing(reg, Tried(reg, p, attempts[0], keeps).0, keeps, attempts[1..]);
    }
  }

  lemma {:induction false} NextPoll(reg: Registry, p: Plane, keeps: bool, interval: nat, wait: nat,
    attempts: seq<Attempt>, k: nat, waits: seq<nat>)
    requires k < |attempts|
    ensures var (p', ok) := Tried(reg, p, attempts[k], keeps);
      && Polled(reg, p, keeps, attempts[k..]) == Polled(reg, p', keeps, attempts[k + 1..])
      && waits + Waits(reg, p, keeps, interval, wait, attempts[k..])
        == waits + [wait] + Waits(reg, p', keeps, interval, NextWait(interval, wait, ok), attempts[k + 1..])
  {
    assert attempts[k..][1..] == attempts[k + 1..];
  }

  // ----- what the loops come to, answer by answer -----

  /** A 304, or a 200 whose body is there and compiles. */
  ghost predicate Good(reg: Registry, resp: HttpResult) {
    && resp.Response?
    && (resp.status == 304
      || (resp.status == 200 && resp.body.Some? && !ConfigFails(reg, resp.body.value.organizations)))
  }

  /**
    A fetch succeeds exactly on a good answer. A 200 is then served and saved and its ETag kept; a 304
    and every failure, that of Build on the other side included, leave the plane as it is.
   */
  lemma FetchSucceedsIff(reg: Registry, p: Plane, a: Attempt, keeps: bool)
    ensures var resp, (p', ok) := a.server(p.lastETag), Tried(reg, p, a, keeps);
      && (ok <==> Good(reg, resp))
      && (ok && resp.status != 304 ==>
            p' == Plane(resp.body, resp.etag, if keeps && a.fault.NoFault? then resp.body else p.disk))
      && (!ok || resp.status == 304 ==> p' == p)
    ensures forall e, tag :: !Good(reg, Get(Err(e), tag))
  {
  }

  lemma FrontBehindFirst(attempts: seq<Attempt>, k: nat)
    requires 0 < k <= |attempts|
    ensures attempts[..k][0] == attempts[0] && attempts[..k][1..] == attempts[1..][..k - 1]
  {
  }

  /** The k-th attempt starts from the plane the earlier ones leave, and its answer decides the wait after it. */
  lemma {:induction false} WaitsFollowAnswers(reg: Registry, p: Plane, keeps: bool, interval: nat, wait: nat,
                                              attempts: seq<Attempt>, k: nat)
    requires k < |attempts|
    ensures var q, waits := Polled(reg, p, keeps, attempts[..k]), Waits(reg, p, keeps, interval, wait, attempts);
      && Polled(reg, p, keeps, []) == p
      && Polled(reg, p, keeps, attempts[..k + 1]) == Tried(reg, q, attempts[k], keeps).0
      && |waits| == |attempts| && waits[0] == wait
      && (k + 1 < |attempts| ==>
            waits[k + 1] == (if Good(reg, attempts[k].server(q.lastETag)) then interval
                             else if 2 * waits[k] <= 6 * interval then 2 * waits[k] else 6 * interval))
    decreases k
  {
    var (p', ok) := Tried(reg, p, attempts[0], keeps);
    var rest, wait' := attempts[1..], NextWait(interval, wait, ok);
    WaitsCount(reg, p, keeps, interval, wait, attempts);
    if k == 0 {
      FetchSucceedsIff(reg, p, attempts[0], keeps);
      assert attempts[..1][1..] == [];
    } else {
      WaitsFollowAnswers(reg, p', keeps, interval, wait', rest, k - 1);
      FrontBehindFirst(attempts, k);
      FrontBehindFirst(attempts, k + 1);
    }
  }

  lemma {:induction false} WaitsCount(reg: Registry, p: Plane, keeps: bool, interval: nat, wait: nat,
                                      attempts: seq<Attempt>)
    ensures |Waits(reg, p, keeps, interval, wait, attempts)| == |attempts|
    decreases |attempts|
  {
    if attempts != [] {
      var (p', ok) := Tried(reg, p, attempts[0], keeps);
      WaitsCount(reg, p', keeps, interval, NextWait(interval, wait, ok), attempts[1..]);
    }
  }

  /** While every answer is good, whatever ETag is sent, the loop waits the interval each time. */
  lemma {:induction false} HealthyWaits(reg: Registry, p: Plane, keeps: bool, interval: nat, attempts: seq<Attempt>,
                                        k: nat)
    requires k < |attempts|
    requires forall i, tag :: 0 <= i < k ==> Good(reg, attempts[i].server(tag))
    ensures |Waits(reg, p, keeps, interval, interval, attempts)| == |attempts|
    ensures Waits(reg, p, keeps, interval, interval, attempts)[k] == interval
  {
    if k > 0 {
      WaitsFollowAnswers(reg, p, keeps, interval, interval, attempts, k - 1);
    } else {
      WaitsFollowAnswers(reg, p, keeps, interval, interval, attempts, 0);
    }
  }

  /**
    Starting up, with k attempts that fail before the deadline: a good answer then starts the data
    plane with it, a bad one past the deadline with the snapshot file if that is there and compiles.
   */
  lemma {:induction false} StartupOutcome(reg: Registry, p: Plane, keeps: bool, attempts: seq<Attempt>, k: nat)
    requires k <= |attempts|
    requires forall j :: 0 <= j < k ==> !Good(reg, attempts[j].server(p.lastETag)) && !attempts[j].late
    ensures k == |attempts| || Good(reg, attempts[k].server(p.lastETag)) || attempts[k].late ==>
      Pauses(reg, p, keeps, attempts) == k
    ensures k == |attempts| ==> Waited(reg, p, keeps, attempts) == (p, false)
    ensures k < |attempts| && Good(reg, attempts[k].server(p.lastETag)) ==>
      Waited(reg, p, keeps, attempts) == (Tried(reg, p, attempts[k], keeps).0, true)
    ensures k < |attempts| && !Good(reg, attempts[k].server(p.lastETag)) && attempts[k].late ==>
      Waited(reg, p, keeps, attempts) ==
        if p.disk.Some? && !ConfigFails(reg, p.disk.value.organizations) then (p.(served := p.disk), true)
        else (p, false)
    decreases k
  {
    if attempts != [] {
      FetchSucceedsIff(reg, p, attempts[0], keeps);
      if k > 0 {
        StartupOutcome(reg, p, keeps, attempts[1..], k - 1);
      }
    }
  }

  lemma {:induction false} BackoffValues(n: nat, i: nat)
    requires i < n
    ensures Backoffs(n)[i] == if i == 0 then 1 else if i == 1 then 2 else if i == 2 then 4 else 8
    decreases n
  {
    if i < n - 1 {
      BackoffValues(n - 1, i);
    } else if i > 3 {
      BackoffValues(n - 1, i - 1);
    }
  }

  class Poller {
    const store: Store
    const reg: Registry
    const snap: Snapshotter?
    var lastETag: string

    constructor (store: Store, reg: Registry, snap: Snapshotter?)
      ensures this.store == store && this.reg == reg && this.snap == snap && lastETag == ""
    {
      this.store, this.reg, this.snap, this.lastETag := store, reg, snap, "";
    }

    ghost function Disk(): Option<Config>
      reads this, snap
    {
      if snap == null then None else snap.Content()
    }

    ghost function View(): Plane
      reads this, store, snap
    {
      Plane(store.served, lastETag, Disk())
    }

    ghost predicate Valid()
      reads this, store, snap
    {
      store.Serves(reg) && (snap != null ==> LawfulVault(snap.vault))
    }

    /** A 304 is a success without effect; a 200 counts only once its body has been applied. */
    method FetchOnce(server: string -> HttpResult, fault: Fault, nonce: nat) returns (ok: bool)
      requires Valid()
      modifies this`lastETag, store, snap
      ensures Valid()
      ensures (View(), ok) == Tried(reg, old(View()), Attempt(server, fault, nonce, false), snap != null)
    {
      var resp := server(lastETag);
      if resp.NoResponse? {
        return false;
      }
      if resp.status == 304 {
        return true;
      } else if resp.status == 200 {
        if resp.body.None? {
          return false;
        }
        var applied := store.Apply(resp.body.value, reg);
        if !applied {
          return false;
        }
        lastETag := resp.etag;
        if snap != null {
          var saved, trace := snap.Save(resp.body.value, nonce, fault);
        }
        return true;
      } else {
        return false;
      }
    }

    /** Retries with a doubling backoff; past the deadline it tries the snapshot file, once. */
    method WaitForInitial(attempts: seq<Attempt>) returns (ok: bool, backoffs: seq<nat>)
      requires Valid()
      modifies this`lastETag, store, snap
      ensures Valid()
      ensures (View(), ok) == Waited(reg, old(View()), snap != null, attempts)
      ensures backoffs == Backoffs(Pauses(reg, old(View()), snap != null, attempts))
    {
      ghost var keeps, p0 := snap != null, View();
      var backoff: nat := 1;
      backoffs := [];
      var k := 0;
      assert attempts[0..] == attempts;
      while k < |attempts|
        invariant Valid() && StillWaiting(reg, p0, View(), keeps, attempts, k)
        invariant backoff == Backoff(k) && |backoffs| == k && backoffs == Backoffs(k)
      {
        NextWaited(reg, p0, View(), keeps, attempts, k);
        var fetched := FetchOnce(attempts[k].server, attempts[k].fault, attempts[k].nonce);
        if fetched {
          return true, backoffs;
        }
        if attempts[k].late {
          ok := Fallback();
          return ok, backoffs;
        }
        backoffs := backoffs + [backoff];
        if backoff < 8 {
          backoff := 2 * backoff;
        }
        k := k + 1;
      }
      NextWaited(reg, p0, View(), keeps, attempts, k);
      ok := false;
    }

    /** The snapshot file instead of the control plane; the ETag stays as it is. */
    method Fallback() returns (ok: bool)
      requires Valid()
      modifies store
      ensures Valid()
      ensures (View(), ok) == FellBack(old(View()), Compiles(reg, old(View()).disk))
    {
      if snap == null {
        return false;
      }
      var cfg := snap.Load();
      if cfg.Err? {
        return false;
      }
      ok := store.Apply(cfg.value, reg);
    }

    /** The polling loop: errors keep the previous config, waits stay within six intervals. */
    method Run(interval: nat, attempts: seq<Attempt>) returns (waits: seq<nat>)
      requires Valid()
      modifies this`lastETag, store, snap
      ensures Valid()
      ensures View() == Polled(reg, old(View()), snap != null, attempts)
      ensures waits == Waits(reg, old(View()), snap != null, interval, interval, attempts)
      ensures |waits| == |attempts| && forall i :: 0 <= i < |waits| ==> interval <= waits[i] <= 6 * interval
      ensures old(store.current).Some? ==> store.current.Some?
    {
      ghost var keeps, p0 := snap != null, View();
      var wait: nat := interval;
      waits := [];
      for k := 0 to |attempts|
        invariant Valid()
        invariant Polled(reg, View(), keeps, attempts[k..]) == Polled(reg, p0, keeps, attempts)
        invariant waits + Waits(reg, View(), keeps, interval, wait, attempts[k..])
          == Waits(reg, p0, keeps, interval, interval, attempts)
      {
        NextPoll(reg, View(), keeps, interval, wait, attempts, k, waits);
        waits := waits + [wait];
        var fetched := FetchOnce(attempts[k].server, attempts[k].fault, attempts[k].nonce);
        if !fetched {
          wait := if wait * 2 < 6 * interval then wait * 2 else 6 * interval;
        } else {
          wait := interval;
        }
      }
      assert waits + [] == waits;
      WaitsInBounds(reg, p0, keeps, interval, interval, attempts);
      if p0.served.Some? {
        PollingKeepsServing(reg, p0, keeps, attempts);
      }
    }
  }
}
