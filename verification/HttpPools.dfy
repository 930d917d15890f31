/**
 The pool of HTTP clients as the steps its users take, in any order. Each session fetches a client, uses it
 and releases it, as `SafeClient` does, and may then fetch again.
 */
module HttpPools {
  import opened Space

  /** A client keeps its number and the time it was created, even when it reconnects. */
  datatype Client = Client(id: nat, created: int, broken: bool)

  /** Between calls; blocked on the condition variable; about to look at the pool after having waited (with
      the time to wait over or not); with a client from the pool that may need to reconnect; with a client
      that could not, about to put it back; with the client that `fetch` has returned. */
  datatype Phase = Idle | Waiting | Awake | TimedOut | Checking(c: Client) | Failed(c: Client) | Holding(c: Client)

  datatype Options = Options(size: nat, waitTimeout: int, lifetime: int)

  /** `owed` counts the notifications still to be sent. */
  datatype State = State(opts: Options, pool: seq<Client>, used: nat, sessions: seq<Phase>, owed: nat)

  /** A new client or a reconnection succeeds or not. `Break` is a failed request. */
  datatype Event =
    | Fetch(w: nat, now: int, ok: bool)
    | Notify(w: nat) | Spurious(w: nat) | Expire(w: nat) | Retry(w: nat)
    | Reconnect(w: nat, now: int, ok: bool)
    | Break(w: nat)
    | Release(w: nat)

  function Start(opts: Options, sessions: nat): State {
    State(opts, [], 0, seq(sessions, _ => Idle), 0)
  }

  predicate NoneWaits(s: State) {
    forall w :: 0 <= w < |s.sessions| ==> s.sessions[w] != Waiting
  }

  predicate InPhase(s: State, w: nat, p: Phase) {
    w < |s.sessions| && s.sessions[w] == p
  }

  predicate Enabled(s: State, e: Event) {
    match e
    case Fetch(w, _, _) => InPhase(s, w, Idle)
    case Notify(w) => s.owed > 0 && (NoneWaits(s) || InPhase(s, w, Waiting))
    case Spurious(w) => InPhase(s, w, Waiting)
    case Expire(w) => InPhase(s, w, Waiting) && s.opts.waitTimeout > 0
    case Retry(w) => InPhase(s, w, Awake) || InPhase(s, w, TimedOut)
    case Reconnect(w, _, _) => w < |s.sessions| && s.sessions[w].Checking?
    case Break(w) => w < |s.sessions| && s.sessions[w].Holding?
    case Release(w) => w < |s.sessions| && (s.sessions[w].Holding? || s.sessions[w].Failed?)
  }

  predicate NeedsReconnect(opts: Options, c: Client, now: int) {
    c.broken || (opts.lifetime > 0 && now - c.created > opts.lifetime)
  }

  function With(s: State, w: nat, p: Phase): State
    requires w < |s.sessions|
  {
    s.(sessions := s.sessions[w := p])
  }

  function TakeFirst(s: State, w: nat): State
    requires w < |s.sessions| && s.pool != []
  {
    With(s.(pool := s.pool[1..]), w, Checking(s.pool[0]))
  }

  function Next(s: State, e: Event): State
    requires Enabled(s, e)
  {
    match e
    case Fetch(w, now, ok) =>
      if s.pool != [] then TakeFirst(s, w)
      else if s.used == s.opts.size then With(s, w, Waiting)
      else if ok then With(s.(used := s.used + 1), w, Holding(Client(s.used, now, false)))
      else s
    case Notify(w) =>
      if NoneWaits(s) then s.(owed := s.owed - 1) else With(s.(owed := s.owed - 1), w, Awake)
    case Spurious(w) => With(s, w, Awake)
    case Expire(w) => With(s, w, TimedOut)
    case Retry(w) =>
      if s.pool != [] then TakeFirst(s, w)
      else With(s, w, if s.sessions[w] == Awake then Waiting else Idle)
    case Reconnect(w, now, ok) =>
      var c := s.sessions[w].c;
      if !NeedsReconnect(s.opts, c, now) then With(s, w, Holding(c))
      else if ok then With(s, w, Holding(c.(broken := false)))
      else With(s, w, Failed(c))
    case Break(w) => With(s, w, Holding(s.sessions[w].c.(broken := true)))
    case Release(w) => With(s.(pool := s.pool + [s.sessions[w].c], owed := s.owed + 1), w, Idle)
  }

  predicate Runs(s: State, es: seq<Event>, s': State)
    decreases |es|
  {
    if es == [] then s' == s else Enabled(s, es[0]) && Runs(Next(s, es[0]), es[1..], s')
  }

  // ---------- What every step keeps ----------

  predicate HasClient(p: Phase) {
    p.Checking? || p.Failed? || p.Holding?
  }

  function CheckedOut(ps: seq<Phase>): nat {
    if ps == [] then 0 else (if HasClient(ps[0]) then 1 else 0) + CheckedOut(ps[1..])
  }

  predicate OnItsWay(p: Phase) {
    p == Awake || p == TimedOut
  }

  function AwakeCount(ps: seq<Phase>): nat {
    if ps == [] then 0 else (if OnItsWay(ps[0]) then 1 else 0) + AwakeCount(ps[1..])
  }

  /** No client is in two places. */
  predicate Apart(pool: seq<Client>, ps: seq<Phase>, used: nat) {
    && (forall i :: 0 <= i < |pool| ==> pool[i].id < used)
    && (forall i, j :: 0 <= i < j < |pool| ==> pool[i].id != pool[j].id)
    && (forall w :: 0 <= w < |ps| && HasClient(ps[w]) ==> ps[w].c.id < used)
    && (forall w, i :: 0 <= w < |ps| && HasClient(ps[w]) && 0 <= i < |pool| ==> pool[i].id != ps[w].c.id)
    && (forall w, v :: 0 <= w < v < |ps| && HasClient(ps[w]) && HasClient(ps[v]) ==> ps[w].c.id != ps[v].c.id)
  }

  predicate Inv(s: State) {
    // pooled and checked-out clients are all there are, and no more than allowed
    && |s.pool| + CheckedOut(s.sessions) == s.used <= s.opts.size
    && Apart(s.pool, s.sessions, s.used)
    // nobody waits while a client could still be created
    && (forall w :: 0 <= w < |s.sessions| && (s.sessions[w] == Waiting || OnItsWay(s.sessions[w])) ==>
          s.used == s.opts.size)
    // unless nobody sleeps, somebody is on the way for each pooled client
    && (NoneWaits(s) || |s.pool| <= s.owed + AwakeCount(s.sessions))
  }

  lemma {:induction false} CountsUpdate(ps: seq<Phase>, w: nat, p: Phase)
    requires w < |ps|
    ensures CheckedOut(ps[w := p])
         == CheckedOut(ps) - (if HasClient(ps[w]) then 1 else 0) + (if HasClient(p) then 1 else 0)
    ensures AwakeCount(ps[w := p])
         == AwakeCount(ps) - (if OnItsWay(ps[w]) then 1 else 0) + (if OnItsWay(p) then 1 else 0)
  {
    if w == 0 {
      assert ps[w := p][1..] == ps[1..];
    } else {
      CountsUpdate(ps[1..], w - 1, p);
      assert ps[w := p][1..] == ps[1..][w - 1 := p];
    }
  }

  lemma {:induction false} CountsAtStart(ps: seq<Phase>)
    requires forall w :: 0 <= w < |ps| ==> ps[w] == Idle
    ensures CheckedOut(ps) == AwakeCount(ps) == 0
  {
    if ps != [] {
      CountsAtStart(ps[1..]);
    }
  }

  lemma {:induction false} SomeOnItsWay(ps: seq<Phase>)
    requires AwakeCount(ps) > 0
    ensures exists w :: 0 <= w < |ps| && OnItsWay(ps[w])
  {
    if !OnItsWay(ps[0]) {
      SomeOnItsWay(ps[1..]);
      var w :| 0 <= w < |ps[1..]| && OnItsWay(ps[1..][w]);
      assert OnItsWay(ps[w + 1]);
    }
  }

  // The places of the clients, step by step.

  lemma ApartTake(pool: seq<Client>, ps: seq<Phase>, used: nat, w: nat)
    requires Apart(pool, ps, used) && pool != [] && w < |ps| && !HasClient(ps[w])
    ensures Apart(pool[1..], ps[w := Checking(pool[0])], used)
  {
  }

  lemma ApartPut(pool: seq<Client>, ps: seq<Phase>, used: nat, w: nat)
    requires Apart(pool, ps, used) && w < |ps| && HasClient(ps[w])
    ensures Apart(pool + [ps[w].c], ps[w := Idle], used)
  {
  }

  lemma ApartNew(pool: seq<Client>, ps: seq<Phase>, used: nat, w: nat, c: Client)
    requires Apart(pool, ps, used) && w < |ps| && !HasClient(ps[w]) && c.id == used
    ensures Apart(pool, ps[w := Holding(c)], used + 1)
  {
  }

  lemma ApartOther(pool: seq<Client>, ps: seq<Phase>, used: nat, w: nat, p: Phase)
    requires Apart(pool, ps, used) && w < |ps|
    requires HasClient(p) ==> HasClient(ps[w]) && p.c.id == ps[w].c.id
    ensures Apart(pool, ps[w := p], used)
  {
  }

  lemma StepKeepsInv(s: State, e: Event)
    requires Inv(s) && Enabled(s, e)
    ensures Inv(Next(s, e))
  {
    match e
    case Fetch(w, now, ok) => FetchKeepsInv(s, w, now, ok);
    case Notify(w) => if !NoneWaits(s) { PhaseKeepsInv(s, e, w); }
    case Retry(w) => if s.pool != [] { TakeKeepsInv(s, w); } else { PhaseKeepsInv(s, e, w); }
    case Release(w) => ReleaseKeepsInv(s, w);
    case _ => PhaseKeepsInv(s, e, e.w);
  }

  lemma FetchKeepsInv(s: State, w: nat, now: int, ok: bool)
    requires Inv(s) && Enabled(s, Fetch(w, now, ok))
    ensures Inv(Next(s, Fetch(w, now, ok)))
  {
    hide Apart;
    if s.pool != [] {
      TakeKeepsInv(s, w);
    } else if s.used == s.opts.size {
      PhaseKeepsInv(s, Fetch(w, now, ok), w);
    } else if ok {
      var c := Client(s.used, now, false);
      CountsUpdate(s.sessions, w, Holding(c));
      ApartNew(s.pool, s.sessions, s.used, w, c);
    }
  }

  lemma TakeKeepsInv(s: State, w: nat)
    requires Inv(s) && w < |s.sessions| && s.pool != [] && (s.sessions[w] == Idle || OnItsWay(s.sessions[w]))
    ensures Inv(TakeFirst(s, w))
  {
    hide Apart;
    CountsUpdate(s.sessions, w, Checking(s.pool[0]));
    ApartTake(s.pool, s.sessions, s.used, w);
  }

  lemma ReleaseKeepsInv(s: State, w: nat)
    requires Inv(s) && Enabled(s, Release(w))
    ensures Inv(Next(s, Release(w)))
  {
    hide Apart;
    CountsUpdate(s.sessions, w, Idle);
    ApartPut(s.pool, s.sessions, s.used, w);
  }

  /** The steps that move no client. */
  lemma PhaseKeepsInv(s: State, e: Event, w: nat)
    requires Inv(s) && Enabled(s, e) && e.w == w < |s.sessions| && !e.Release?
    requires e.Fetch? || e.Retry? ==> s.pool == []
    requires e.Fetch? ==> s.used == s.opts.size
    requires e.Notify? ==> !NoneWaits(s)
    ensures Inv(Next(s, e))
  {
    hide Apart;
    CountsUpdate(s.sessions, w, Next(s, e).sessions[w]);
    ApartOther(s.pool, s.sessions, s.used, w, Next(s, e).sessions[w]);
  }

  lemma StartHolds(opts: Options, sessions: nat)
    ensures Inv(Start(opts, sessions))
  {
    CountsAtStart(Start(opts, sessions).sessions);
  }

  lemma {:induction false} RunKeepsInv(s: State, es: seq<Event>, s': State)
    requires Inv(s) && Runs(s, es, s')
    ensures Inv(s') && s'.opts == s.opts && |s'.sessions| == |s.sessions| && s.used <= s'.used
    decreases |es|
  {
    hide Inv;
    if es != [] {
      StepKeepsInv(s, es[0]);
      RunKeepsInv(Next(s, es[0]), es[1..], s');
    }
  }

  // ---------- Main results ----------

  /** Whatever happens, pooled and checked-out clients add up to `_used_connections`, which stays in bounds,
      and each of them is in one place. */
  lemma ClientsAreConserved(opts: Options, sessions: nat, es: seq<Event>, s: State)
    requires Runs(Start(opts, sessions), es, s)
    ensures |s.pool| + CheckedOut(s.sessions) == s.used <= opts.size && Apart(s.pool, s.sessions, s.used)
  {
    StartHolds(opts, sessions);
    RunKeepsInv(Start(opts, sessions), es, s);
  }

  /** `fetch` never returns a broken client: a client that a caller holds can only be broken by a request of
      that caller which failed since it was fetched. */
  lemma {:induction false} FetchedClientsWork(s: State, es: seq<Event>, s': State, w: nat)
    requires Runs(s, es, s') && w < |s.sessions|
    requires s.sessions[w].Holding? && s.sessions[w].c.broken ==> exists j :: 0 <= j < |es| && es[j] == Release(w)
    requires forall k :: 0 <= k < |es| && es[k] == Break(w) ==> exists j :: k < j < |es| && es[j] == Release(w)
    ensures w < |s'.sessions| && (s'.sessions[w].Holding? ==> !s'.sessions[w].c.broken)
    decreases |es|
  {
    if es != [] {
      var next := Next(s, es[0]);
      if next.sessions[w].Holding? && next.sessions[w].c.broken {
        StaysBroken(s, es[0], w);
        var j :| 0 <= j < |es| && es[j] == Release(w) && j > 0;
        assert es[1..][j - 1] == Release(w);
      }
      forall k | 0 <= k < |es[1..]| && es[1..][k] == Break(w)
        ensures exists j :: k < j < |es[1..]| && es[1..][j] == Release(w)
      {
        assert es[k + 1] == Break(w);
        var j :| k + 1 < j < |es| && es[j] == Release(w);
        assert es[1..][j - 1] == Release(w);
      }
      FetchedClientsWork(next, es[1..], s', w);
    }
  }

  lemma StaysBroken(s: State, e: Event, w: nat)
    requires Enabled(s, e) && w < |s.sessions|
    requires Next(s, e).sessions[w].Holding? && Next(s, e).sessions[w].c.broken
    ensures e == Break(w) || (e != Release(w) && s.sessions[w].Holding? && s.sessions[w].c.broken)
  {
  }

  /** A caller that sleeps, with no notification to come and nobody about to look, sleeps for good reason:
      all the connections that are allowed exist and are in use. */
  lemma SleepersHaveReason(opts: Options, sessions: nat, es: seq<Event>, s: State, w: nat)
    requires Runs(Start(opts, sessions), es, s)
    requires w < |s.sessions| && s.sessions[w] == Waiting && s.owed == 0
    requires forall v :: 0 <= v < |s.sessions| ==> !OnItsWay(s.sessions[v])
    ensures s.pool == [] && CheckedOut(s.sessions) == opts.size
  {
    StartHolds(opts, sessions);
    RunKeepsInv(Start(opts, sessions), es, s);
    if AwakeCount(s.sessions) > 0 {
      SomeOnItsWay(s.sessions);
    }
  }

  // ---------- Notifications ----------

  function Releases(es: seq<Event>): nat {
    if es == [] then 0 else (if es[0].Release? then 1 else 0) + Releases(es[1..])
  }

  function Notifications(es: seq<Event>): nat {
    if es == [] then 0 else (if es[0].Notify? then 1 else 0) + Notifications(es[1..])
  }

  /** Each release notifies once. */
  lemma {:induction false} ReleasesNotify(s: State, es: seq<Event>, s': State)
    requires Runs(s, es, s')
    ensures s'.owed + Notifications(es) == s.owed + Releases(es)
    decreases |es|
  {
    if es != [] {
      ReleasesNotify(Next(s, es[0]), es[1..], s');
    }
  }

  /** A notification that is owed can be sent to any session that sleeps, or to nobody when none does; the session
      then looks into the pool. A wait expires at any time, if a timeout is set. */
  lemma SleepersCanGoOn(s: State, w: nat)
    requires InPhase(s, w, Waiting)
    ensures Enabled(s, Notify(w)) <==> s.owed > 0
    ensures s.owed > 0 ==> Next(s, Notify(w)) == With(s, w, Awake).(owed := s.owed - 1)
    ensures Enabled(s, Expire(w)) <==> s.opts.waitTimeout > 0
    ensures s.opts.waitTimeout > 0 ==> Next(s, Expire(w)) == With(s, w, TimedOut)
    ensures Enabled(s, Spurious(w)) && Next(s, Spurious(w)) == With(s, w, Awake)
  {
    assert !NoneWaits(s);
  }

  lemma NobodySleeps(s: State, w: nat)
    requires NoneWaits(s)
    ensures Enabled(s, Notify(w)) <==> s.owed > 0
    ensures s.owed > 0 ==> Next(s, Notify(w)) == s.(owed := s.owed - 1)
  {
  }

  // ---------- How a fetch ends ----------

  predicate InFetch(p: Phase) {
    p == Waiting || OnItsWay(p) || p.Checking? || p.Failed?
  }

  /** The state before the step number `k` of a run. */
  function Before(s: State, es: seq<Event>, s': State, k: nat): (m: State)
    requires Runs(s, es, s') && k <= |es|
    ensures k < |es| ==> Enabled(m, es[k])
    decreases k
  {
    if k == 0 then s else Before(Next(s, es[0]), es[1..], s', k - 1)
  }

  /** Nobody finds a client: the wait of the session is over, and the pool is empty even now. */
  predicate GivesUp(s: State, e: Event, w: nat) {
    e == Retry(w) && InPhase(s, w, TimedOut) && s.pool == []
  }

  /** A caller that was woken looks into the pool: with a client there it has the first one; without, it goes back
      to sleep, unless its wait is over. Then the fetch has failed. */
  lemma RetryDecides(s: State, w: nat)
    requires Enabled(s, Retry(w))
    ensures var p := Next(s, Retry(w)).sessions[w];
            && (s.pool != [] ==> p == Checking(s.pool[0]))
            && (p == Waiting <==> s.sessions[w] == Awake && s.pool == [])
            && (p == Idle <==> s.sessions[w] == TimedOut && s.pool == [])
  {
  }

  /** A fetch that began with a wait ends without a client in two ways only: it gives up, or the client it had got
      could not reconnect and was put back. */
  lemma StepEndsFetch(s: State, e: Event, w: nat)
    requires Enabled(s, e) && w < |s.sessions| && InFetch(s.sessions[w])
    ensures Next(s, e).sessions[w] == Idle <==> GivesUp(s, e, w) || e == Release(w)
    ensures e == Release(w) ==> s.sessions[w].Failed?
    ensures Next(s, e).sessions[w].Holding? <==>
              exists now, ok :: e == Reconnect(w, now, ok)
                                && (ok || !NeedsReconnect(s.opts, s.sessions[w].c, now))
    ensures Next(s, e).sessions[w] == TimedOut <==> e == Expire(w) || (s.sessions[w] == TimedOut && e != Retry(w))
    ensures InFetch(Next(s, e).sessions[w]) || Next(s, e).sessions[w] == Idle || Next(s, e).sessions[w].Holding?
  {
    if e.Reconnect? && e.w == w {
      assert e == Reconnect(w, e.now, e.ok);
    }
  }

  /** A reconnection that is needed and fails leaves the client broken or old as it is, to be put back. */
  lemma FailedReconnection(s: State, w: nat, now: int)
    requires Enabled(s, Reconnect(w, now, false)) && NeedsReconnect(s.opts, s.sessions[w].c, now)
    ensures Next(s, Reconnect(w, now, false)).sessions[w] == Failed(s.sessions[w].c)
  {
  }

  /** Over a whole run: a session that slept and is idle again has given up after its wait had expired, or has
      released a client since. */
  lemma {:induction false} WaitEndsInTimeout(s: State, es: seq<Event>, s': State, w: nat)
    requires Runs(s, es, s') && w < |s.sessions| && InFetch(s.sessions[w]) && InPhase(s', w, Idle)
    ensures exists k :: 0 <= k < |es| && (es[k] == Release(w) || GivesUp(Before(s, es, s', k), es[k], w))
    decreases |es|
  {
    var next := Next(s, es[0]);
    StepEndsFetch(s, es[0], w);
    if GivesUp(s, es[0], w) || es[0] == Release(w) {
      assert Before(s, es, s', 0) == s;
    } else if InFetch(next.sessions[w]) {
      WaitEndsInTimeout(next, es[1..], s', w);
      var k :| 0 <= k < |es[1..]| && (es[1..][k] == Release(w) || GivesUp(Before(next, es[1..], s', k), es[1..][k], w));
      assert Before(s, es, s', k + 1) == Before(next, es[1..], s', k) && es[k + 1] == es[1..][k];
    } else {
      HolderReleases(next, es[1..], s', w);
      var k :| 0 <= k < |es[1..]| && es[1..][k] == Release(w);
      assert es[k + 1] == Release(w);
    }
  }

  lemma {:induction false} HolderReleases(s: State, es: seq<Event>, s': State, w: nat)
    requires Runs(s, es, s') && w < |s.sessions| && s.sessions[w].Holding? && InPhase(s', w, Idle)
    ensures exists k :: 0 <= k < |es| && es[k] == Release(w)
    decreases |es|
  {
    if es[0] != Release(w) {
      HolderReleases(Next(s, es[0]), es[1..], s', w);
      var k :| 0 <= k < |es[1..]| && es[1..][k] == Release(w);
      assert es[k + 1] == Release(w);
    }
  }

  /** And nobody times out without having been told so. */
  lemma {:induction false} TimeoutHasExpired(s: State, es: seq<Event>, s': State, w: nat)
    requires Runs(s, es, s') && w < |s.sessions| && s.sessions[w] != TimedOut && InPhase(s', w, TimedOut)
    ensures Expire(w) in es
    decreases |es|
  {
    if es[0] != Expire(w) {
      TimeoutHasExpired(Next(s, es[0]), es[1..], s', w);
    }
  }

  // ---------- The age of a client ----------

  /** The client is in the pool, or some session has it. */
  predicate In(s: State, c: Client) {
    c in s.pool || exists w :: 0 <= w < |s.sessions| && HasClient(s.sessions[w]) && s.sessions[w].c == c
  }

  lemma StepKeepsClient(s: State, e: Event, c: Client) returns (c': Client)
    requires Enabled(s, e) && In(s, c)
    ensures In(Next(s, e), c') && c'.id == c.id && c'.created == c.created
  {
    var next := Next(s, e);
    if w :| 0 <= w < |s.sessions| && HasClient(s.sessions[w]) && s.sessions[w].c == c {
      if e.w == w && e.Release? {
        assert next.pool[|s.pool|] == c;
        return c;
      }
      assert HasClient(next.sessions[w]);
      return next.sessions[w].c;
    }
    var i :| 0 <= i < |s.pool| && s.pool[i] == c;
    c' := c;
    if |next.pool| >= |s.pool| {
      assert next.pool[i] == c;
    } else if i == 0 {
      assert next.sessions[e.w] == Checking(c);
    } else {
      assert next.pool[i - 1] == c;
    }
  }

  /** No client gets lost, nor a new time of creation. */
  lemma {:induction false} RunKeepsClient(s: State, es: seq<Event>, s': State, c: Client) returns (c': Client)
    requires Runs(s, es, s') && In(s, c)
    ensures In(s', c') && c'.id == c.id && c'.created == c.created
    decreases |es|
  {
    c' := c;
    if es != [] {
      c' := StepKeepsClient(s, es[0], c);
      c' := RunKeepsClient(Next(s, es[0]), es[1..], s', c');
    }
  }

  lemma {:induction false} RunsConcat(s: State, es: seq<Event>, m: State, es': seq<Event>, s': State)
    requires Runs(s, es, m) && Runs(m, es', s')
    ensures Runs(s, es + es', s')
    decreases |es|
  {
    if es == [] {
      assert es + es' == es';
    } else {
      RunsConcat(Next(s, es[0]), es[1..], m, es', s');
      assert (es + es')[1..] == es[1..] + es';
    }
  }

  /** Whatever happened to a client in between, reconnections among it: whenever it is fetched, its age counts
      from its creation. So once it is past its lifetime it is reconnected at every later fetch. */
  lemma AgeCountsFromCreation(opts: Options, sessions: nat, before: seq<Event>, m: State, after: seq<Event>, s: State,
                              c: Client, w: nat, now: int)
    requires Runs(Start(opts, sessions), before, m) && In(m, c) && Runs(m, after, s)
    requires w < |s.sessions| && s.sessions[w].Checking? && s.sessions[w].c.id == c.id
    ensures NeedsReconnect(s.opts, s.sessions[w].c, now) <==>
              s.sessions[w].c.broken || (opts.lifetime > 0 && now - c.created > opts.lifetime)
  {
    RunsConcat(Start(opts, sessions), before, m, after, s);
    StartHolds(opts, sessions);
    RunKeepsInv(Start(opts, sessions), before + after, s);
    var c' := RunKeepsClient(m, after, s, c);
    assert c' == s.sessions[w].c;
  }

  /** After a reconnection that was needed, the next one is due when the client, not its connection, is past the
      lifetime. It comes too early if and only if the connection is not. */
  lemma ReconnectionDoesNotRenew(s: State, w: nat, now: int, later: int)
    requires Enabled(s, Reconnect(w, now, true)) && NeedsReconnect(s.opts, s.sessions[w].c, now)
    ensures Next(s, Reconnect(w, now, true)).sessions[w].Holding?
    ensures var c := Next(s, Reconnect(w, now, true)).sessions[w].c; var lifetime := s.opts.lifetime;
            && (NeedsReconnect(s.opts, c, later) <==> lifetime > 0 && later - s.sessions[w].c.created > lifetime)
            && (NeedsReconnect(s.opts, c, later) && !NeedsReconnect(s.opts, c.(created := now), later) <==>
                  lifetime > 0 && later - s.sessions[w].c.created > lifetime >= later - now)
  {
  }

  lemma OneMore(s: State, e: Event, m: State, es: seq<Event>, s': State)
    requires Enabled(s, e) && Next(s, e) == m && Runs(m, es, s')
    ensures Runs(s, [e] + es, s')
  {
    assert ([e] + es)[1..] == es;
  }

  /** A client that is created at 0 and reconnected at 5, since a request has failed, is to be reconnected at 11,
      although it has been connected for 6 of the 10 units a connection may live. */
  lemma ReconnectedTooEarly() returns (es: seq<Event>, s: State)
    ensures Runs(Start(Options(1, 0, 10), 1), es, s) && s.sessions == [Checking(Client(0, 0, false))]
    ensures es == [Fetch(0, 0, true), Break(0), Release(0), Fetch(0, 5, true), Reconnect(0, 5, true), Release(0),
                   Fetch(0, 11, true)]
    ensures NeedsReconnect(s.opts, Client(0, 0, false), 11)
  {
    var opts, good, bad := Options(1, 0, 10), Client(0, 0, false), Client(0, 0, true);
    var s6 := State(opts, [good], 1, [Idle], 2);
    var s5 := State(opts, [], 1, [Holding(good)], 1);
    var s4 := State(opts, [], 1, [Checking(bad)], 1);
    var s3 := State(opts, [bad], 1, [Idle], 1);
    var s2 := State(opts, [], 1, [Holding(bad)], 0);
    var s1 := State(opts, [], 1, [Holding(good)], 0);
    s, es := State(opts, [], 1, [Checking(good)], 2), [];
    OneMore(s6, Fetch(0, 11, true), s, [], s);
    es := [Fetch(0, 11, true)];
    OneMore(s5, Release(0), s6, es, s);
    es := [Release(0)] + es;
    OneMore(s4, Reconnect(0, 5, true), s5, es, s);
    es := [Reconnect(0, 5, true)] + es;
    OneMore(s3, Fetch(0, 5, true), s4, es, s);
    es := [Fetch(0, 5, true)] + es;
    OneMore(s2, Release(0), s3, es, s);
    es := [Release(0)] + es;
    OneMore(s1, Break(0), s2, es, s);
    es := [Break(0)] + es;
    OneMore(Start(opts, 1), Fetch(0, 0, true), s1, es, s);
    es := [Fetch(0, 0, true)] + es;
  }

  // ---------- The critical sections themselves ----------

  /** The fields that the mutex guards; each method gives back the phase its caller is in afterwards. */
  class HttpClientPool {
    const opts: Options
    var pool: seq<Client>
    var used: nat

    constructor (opts: Options, sessions: nat)
      ensures Shows(Start(opts, sessions))
    {
      this.opts, pool, used := opts, [], 0;
    }

    predicate Shows(s: State)
      reads this
    {
      s.opts == opts && s.pool == pool && s.used == used
    }

    method TakeFromPool() returns (c: Client)
      requires pool != []
      modifies this`pool
      ensures c == old(pool)[0] && pool == old(pool)[1..]
    {
      c := pool[0];
      pool := pool[1..];
    }

    /** The start of `fetch`. A creation that fails leaves the caller where it was. */
    method FetchClient(w: nat, now: int, ok: bool, ghost s: State) returns (p: Phase)
      requires Shows(s) && Enabled(s, Fetch(w, now, ok))
      modifies this`pool, this`used
      ensures Shows(Next(s, Fetch(w, now, ok))) && p == Next(s, Fetch(w, now, ok)).sessions[w]
      ensures old(pool) != [] ==> p == Checking(old(pool)[0]) && pool == old(pool)[1..] && used == old(used)
      ensures p == Waiting <==> old(pool) == [] && old(used) == opts.size
      ensures p == Idle <==> old(pool) == [] && old(used) != opts.size && !ok
      ensures p.Holding? ==> p.c == Client(old(used), now, false) && used == old(used) + 1
    {
      if pool == [] {
        if used == opts.size {
          return Waiting;
        }
        if !ok {
          return Idle;
        }
        p := Holding(Client(used, now, false));
        used := used + 1;
        return;
      }
      var c := TakeFromPool();
      p := Checking(c);
    }

    /** The end of a wait. */
    method RetryFetch(w: nat, timedOut: bool, ghost s: State) returns (p: Phase)
      requires Shows(s) && InPhase(s, w, if timedOut then TimedOut else Awake)
      modifies this`pool
      ensures Shows(Next(s, Retry(w))) && p == Next(s, Retry(w)).sessions[w]
      ensures old(pool) != [] ==> p == Checking(old(pool)[0]) && pool == old(pool)[1..]
      ensures old(pool) == [] ==> p == (if timedOut then Idle else Waiting) && pool == []
    {
      if pool == [] {
        return if timedOut then Idle else Waiting;
      }
      var c := TakeFromPool();
      p := Checking(c);
    }

    method ReleaseClient(c: Client, w: nat, ghost s: State)
      requires Shows(s) && Enabled(s, Release(w)) && s.sessions[w].c == c
      modifies this`pool
      ensures Shows(Next(s, Release(w))) && pool == old(pool) + [c]
    {
      pool := pool + [c];
    }
  }
}
