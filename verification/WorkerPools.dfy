/**
 The worker pool as the steps its threads take, in any order. A critical section is one step; a notification is
 a step of its own, since it is sent after the lock was given up; a wait may also end without one.
 */
module WorkerPools {

  /** A worker is about to look at the queue, blocked on the condition variable, running the task that was
      started as number `ticket`, or gone. */
  datatype Phase = Awake | Waiting | Running(ticket: nat) | Exited

  /** Besides the fields of the pool: how many notifications its callers still have to send, and the
      tasks that were accepted, started and finished so far, in order; a task that was started is known by its
      number. `lost` are the tasks that were accepted when no worker was left. */
  datatype Pool<T> = Pool(
    limit: nat, queue: seq<T>, quit: bool, workers: seq<Phase>, owed: nat, owedAll: bool,
    accepted: seq<T>, started: seq<T>, finished: seq<nat>, lost: seq<T>)

  /** `Notify(w)` wakes worker `w`, or nobody when nobody waits. */
  datatype Event<T> =
    | Enqueue(task: T) | Notify(w: nat) | Check(w: nat) | Spurious(w: nat) | Finish(w: nat)
    | Quit | NotifyAll

  function Start<T>(limit: nat, size: nat): Pool<T> {
    Pool(limit, [], false, seq(size, _ => Awake), 0, false, [], [], [], [])
  }

  predicate InPhase<T(==)>(s: Pool<T>, w: nat, p: Phase) {
    w < |s.workers| && s.workers[w] == p
  }

  predicate NoneWaits<T(==)>(s: Pool<T>) {
    forall w :: 0 <= w < |s.workers| ==> s.workers[w] != Waiting
  }

  predicate AllExited<T(==)>(s: Pool<T>) {
    forall w :: 0 <= w < |s.workers| ==> s.workers[w] == Exited
  }

  predicate Enabled<T(==)>(s: Pool<T>, e: Event<T>) {
    match e
    case Enqueue(_) => true
    case Notify(w) => s.owed > 0 && (InPhase(s, w, Waiting) || NoneWaits(s))
    case Check(w) => InPhase(s, w, Awake)
    case Spurious(w) => InPhase(s, w, Waiting)
    case Finish(w) => w < |s.workers| && s.workers[w].Running?
    case Quit => true
    case NotifyAll => s.owedAll
  }

  function Next<T(==)>(s: Pool<T>, e: Event<T>): Pool<T>
    requires Enabled(s, e)
  {
    match e
    case Enqueue(t) =>
      if |s.queue| == s.limit then s // the caller gets an exception
      else s.(queue := s.queue + [t], accepted := s.accepted + [t], owed := s.owed + 1,
              lost := if AllExited(s) then s.lost + [t] else s.lost)
    case Notify(w) =>
      var s' := s.(owed := s.owed - 1);
      if NoneWaits(s) then s' else s'.(workers := s.workers[w := Awake])
    case Check(w) =>
      if s.queue != [] then
        s.(queue := s.queue[1..], workers := s.workers[w := Running(|s.started|)], started := s.started + [s.queue[0]])
      else s.(workers := s.workers[w := if s.quit then Exited else Waiting])
    case Spurious(w) => s.(workers := s.workers[w := Awake])
    case Finish(w) => s.(workers := s.workers[w := Awake], finished := s.finished + [s.workers[w].ticket])
    case Quit => s.(quit := true, owedAll := true)
    case NotifyAll =>
      s.(owedAll := false, workers := seq(|s.workers|, w requires 0 <= w < |s.workers| =>
                                              if s.workers[w] == Waiting then Awake else s.workers[w]))
  }

  predicate Runs<T(==)>(s: Pool<T>, es: seq<Event<T>>, s': Pool<T>)
    decreases |es|
  {
    if es == [] then s' == s
    else Enabled(s, es[0]) && Runs(Next(s, es[0]), es[1..], s')
  }

  // ---------- What every step keeps ----------

  function AwakeCount(ws: seq<Phase>): nat {
    if ws == [] then 0 else (if ws[0] == Awake then 1 else 0) + AwakeCount(ws[1..])
  }

  /** Every started task is being run by one worker, or has been run, but not both, and once only. */
  predicate RunOnce(ws: seq<Phase>, started: nat, finished: seq<nat>) {
    && (forall k :: 0 <= k < |finished| ==> finished[k] < started)
    && (forall k, j :: 0 <= k < j < |finished| ==> finished[k] != finished[j])
    && (forall w :: 0 <= w < |ws| && ws[w].Running? ==> ws[w].ticket < started && ws[w].ticket !in finished)
    && (forall w, v :: 0 <= w < v < |ws| && ws[w].Running? ==> ws[v] != ws[w])
    && (forall t :: 0 <= t < started ==> t in finished || Running(t) in ws)
  }

  /** Unless no worker sleeps, there is a worker on its way for each task. */
  predicate WokenUp<T(==)>(s: Pool<T>) {
    NoneWaits(s) || |s.queue| <= s.owed + AwakeCount(s.workers)
  }

  predicate Inv<T(==)>(s: Pool<T>) {
    && |s.queue| <= s.limit
    && s.accepted == s.started + s.queue
    && RunOnce(s.workers, |s.started|, s.finished)
    && WokenUp(s)
    && (s.quit && !s.owedAll ==> NoneWaits(s))
    && (s.owedAll ==> s.quit)
    && (forall w :: 0 <= w < |s.workers| && s.workers[w] == Exited ==> s.quit)
    && s.lost == if AllExited(s) then s.queue else []
  }

  lemma {:induction false} AwakeUpdate(ws: seq<Phase>, w: nat, p: Phase)
    requires w < |ws|
    ensures AwakeCount(ws[w := p]) == AwakeCount(ws) - (if ws[w] == Awake then 1 else 0) + (if p == Awake then 1 else 0)
  {
    if w == 0 {
      assert ws[w := p][1..] == ws[1..];
    } else {
      AwakeUpdate(ws[1..], w - 1, p);
      assert ws[w := p][1..] == ws[1..][w - 1 := p];
    }
  }

  lemma {:induction false} SomeAwake(ws: seq<Phase>)
    requires AwakeCount(ws) > 0
    ensures exists w :: 0 <= w < |ws| && ws[w] == Awake
  {
    if ws[0] != Awake {
      SomeAwake(ws[1..]);
      var w :| 0 <= w < |ws[1..]| && ws[1..][w] == Awake;
      assert ws[w + 1] == Awake;
    }
  }

  // A task starts, ends, or a worker changes its phase otherwise.

  lemma RunOnceStart(ws: seq<Phase>, started: nat, finished: seq<nat>, w: nat)
    requires RunOnce(ws, started, finished) && w < |ws| && !ws[w].Running?
    ensures RunOnce(ws[w := Running(started)], started + 1, finished)
  {
    var ws' := ws[w := Running(started)];
    assert ws'[w] == Running(started);
    forall t | 0 <= t < started && t !in finished
      ensures Running(t) in ws'
    {
      var v :| 0 <= v < |ws| && ws[v] == Running(t);
      assert ws'[v] == Running(t);
    }
  }

  lemma RunOnceFinish(ws: seq<Phase>, started: nat, finished: seq<nat>, w: nat)
    requires RunOnce(ws, started, finished) && w < |ws| && ws[w].Running?
    ensures RunOnce(ws[w := Awake], started, finished + [ws[w].ticket])
  {
    var ws' := ws[w := Awake];
    forall t | 0 <= t < started && t !in finished + [ws[w].ticket]
      ensures Running(t) in ws'
    {
      var v :| 0 <= v < |ws| && ws[v] == Running(t);
      assert ws'[v] == Running(t);
    }
  }

  lemma RunOnceOther(ws: seq<Phase>, ws': seq<Phase>, started: nat, finished: seq<nat>)
    requires RunOnce(ws, started, finished) && |ws'| == |ws|
    requires forall w :: 0 <= w < |ws| ==> ws'[w] == ws[w] || (!ws'[w].Running? && !ws[w].Running?)
    ensures RunOnce(ws', started, finished)
  {
    forall t | 0 <= t < started && t !in finished
      ensures Running(t) in ws'
    {
      var v :| 0 <= v < |ws| && ws[v] == Running(t);
      assert ws'[v] == Running(t);
    }
  }

  lemma StepKeepsInv<T>(s: Pool<T>, e: Event<T>)
    requires Inv(s) && Enabled(s, e)
    ensures Inv(Next(s, e))
  {
    hide RunOnce;
    match e
    case Enqueue(_) =>
    case Quit =>
    case Notify(w) => WakeKeepsInv(s, e, w);
    case Spurious(w) => WakeKeepsInv(s, e, w);
    case Check(w) => CheckKeepsInv(s, w);
    case Finish(w) => FinishKeepsInv(s, w);
    case NotifyAll => RunOnceOther(s.workers, Next(s, e).workers, |s.started|, s.finished);
  }

  lemma WakeKeepsInv<T>(s: Pool<T>, e: Event<T>, w: nat)
    requires Inv(s) && Enabled(s, e) && (e == Notify(w) || e == Spurious(w))
    ensures Inv(Next(s, e))
  {
    hide RunOnce;
    RunOnceOther(s.workers, Next(s, e).workers, |s.started|, s.finished);
    if !NoneWaits(s) {
      AwakeUpdate(s.workers, w, Awake);
    }
  }

  lemma CheckKeepsInv<T>(s: Pool<T>, w: nat)
    requires Inv(s) && Enabled(s, Check(w))
    ensures Inv(Next(s, Check(w)))
  {
    hide RunOnce;
    AwakeUpdate(s.workers, w, Next(s, Check(w)).workers[w]);
    if s.queue != [] {
      RunOnceStart(s.workers, |s.started|, s.finished, w);
      assert s.queue == [s.queue[0]] + s.queue[1..];
    } else {
      RunOnceOther(s.workers, Next(s, Check(w)).workers, |s.started|, s.finished);
    }
  }

  lemma FinishKeepsInv<T>(s: Pool<T>, w: nat)
    requires Inv(s) && Enabled(s, Finish(w))
    ensures Inv(Next(s, Finish(w)))
  {
    hide RunOnce;
    AwakeUpdate(s.workers, w, Awake);
    assert Next(s, Finish(w)).workers[w] == Awake;
    RunOnceFinish(s.workers, |s.started|, s.finished, w);
  }

  /** Over any run: the invariant holds, tasks are only added behind, and those started keep their order. */
  lemma {:induction false} RunKeepsInv<T>(s: Pool<T>, es: seq<Event<T>>, s': Pool<T>)
    requires Inv(s) && Runs(s, es, s')
    ensures Inv(s') && s'.limit == s.limit && |s'.workers| == |s.workers|
    ensures s.accepted <= s'.accepted && s.started <= s'.started
    decreases |es|
  {
    hide Inv;
    if es != [] {
      StepKeepsInv(s, es[0]);
      RunKeepsInv(Next(s, es[0]), es[1..], s');
    }
  }

  lemma StartHolds<T>(limit: nat, size: nat)
    ensures Inv(Start<T>(limit, size))
  {
  }

  // ---------- Notifications ----------

  function Notifications<T>(es: seq<Event<T>>): nat {
    if es == [] then 0 else (if es[0].Notify? then 1 else 0) + Notifications(es[1..])
  }

  /** Each task that is accepted notifies once. */
  lemma {:induction false} TasksNotify<T>(s: Pool<T>, es: seq<Event<T>>, s': Pool<T>)
    requires Runs(s, es, s')
    ensures s'.owed + Notifications(es) + |s.accepted| == s.owed + |s'.accepted|
    decreases |es|
  {
    if es != [] {
      TasksNotify(Next(s, es[0]), es[1..], s');
    }
  }

  /** A pool starts with nothing queued, nothing owed and all its workers awake. */
  lemma StartIs<T>(limit: nat, size: nat)
    ensures var s := Start<T>(limit, size);
            && s.queue == s.accepted == [] && s.owed == 0 && !s.owedAll && !s.quit && s.limit == limit
            && |s.workers| == size && forall w :: 0 <= w < size ==> s.workers[w] == Awake
  {
  }

  /** A notification that is owed can be sent to any worker that sleeps, or to nobody when none does; the one for the
      stop wakes them all. */
  lemma SleepersCanGoOn<T>(s: Pool<T>, w: nat)
    requires InPhase(s, w, Waiting)
    ensures Enabled(s, Notify(w)) <==> s.owed > 0
    ensures s.owed > 0 ==> Next(s, Notify(w)) == s.(owed := s.owed - 1, workers := s.workers[w := Awake])
    ensures Enabled(s, Spurious(w)) && Next(s, Spurious(w)) == s.(workers := s.workers[w := Awake])
    ensures s.owedAll ==> Enabled(s, NotifyAll) && Next(s, NotifyAll).workers[w] == Awake
  {
    assert !NoneWaits(s);
  }

  lemma NobodySleeps<T>(s: Pool<T>, w: nat)
    requires NoneWaits(s)
    ensures Enabled(s, Notify(w)) <==> s.owed > 0
    ensures s.owed > 0 ==> Next(s, Notify(w)) == s.(owed := s.owed - 1)
  {
  }

  // ---------- No task is forgotten ----------

  /** Before the pool is stopped, a queued task has a worker that will look at the queue again, or a
      notification that will wake one. */
  lemma NoLostWakeup<T>(limit: nat, size: nat, es: seq<Event<T>>, s: Pool<T>)
    requires size > 0 && Runs(Start(limit, size), es, s) && !s.quit && s.queue != []
    ensures |s.workers| == size
    ensures s.owed > 0 || exists w :: 0 <= w < size && (s.workers[w] == Awake || s.workers[w].Running?)
    ensures (exists w :: 0 <= w < size && s.workers[w] == Waiting) ==> |s.queue| <= s.owed + AwakeCount(s.workers)
  {
    StartHolds<T>(limit, size);
    RunKeepsInv(Start(limit, size), es, s);
    if s.owed == 0 {
      if NoneWaits(s) {
        assert s.workers[0] == Awake || s.workers[0].Running?;
      } else {
        SomeAwake(s.workers);
      }
    }
  }

  predicate Closed<T>(e: Event<T>) {
    !e.Enqueue? && !e.Quit?
  }

  function Weight(ws: seq<Phase>): nat {
    if ws == [] then 0 else Cost(ws[0]) + Weight(ws[1..])
  }

  function Cost(p: Phase): nat {
    match p
    case Waiting => 2
    case Running(_) => 2
    case Awake => 1
    case Exited => 0
  }

  /** How many steps a stopped pool can take at most. */
  function Remaining<T(==)>(s: Pool<T>): nat {
    3 * |s.queue| + s.owed + (if s.owedAll then 1 else 0) + Weight(s.workers)
  }

  lemma {:induction false} WeightUpdate(ws: seq<Phase>, w: nat, p: Phase)
    requires w < |ws|
    ensures Weight(ws[w := p]) + Cost(ws[w]) == Weight(ws) + Cost(p)
  {
    if w == 0 {
      assert ws[w := p][1..] == ws[1..];
    } else {
      WeightUpdate(ws[1..], w - 1, p);
      assert ws[w := p][1..] == ws[1..][w - 1 := p];
    }
  }

  lemma {:induction false} WeightWoken(ws: seq<Phase>, ws': seq<Phase>)
    requires |ws'| == |ws| && forall w :: 0 <= w < |ws| ==> ws'[w] == if ws[w] == Waiting then Awake else ws[w]
    ensures Weight(ws') <= Weight(ws)
  {
    if ws != [] {
      WeightWoken(ws[1..], ws'[1..]);
    }
  }

  /** Once it is stopped, whatever the pool does brings it nearer to its end. */
  lemma ClosedStepShrinks<T>(s: Pool<T>, e: Event<T>)
    requires s.quit && Enabled(s, e) && Closed(e)
    ensures Next(s, e).quit && Remaining(Next(s, e)) < Remaining(s)
    ensures Next(s, e).accepted == s.accepted && Next(s, e).lost == s.lost
  {
    match e
    case Notify(w) =>
      if !NoneWaits(s) {
        WeightUpdate(s.workers, w, Awake);
      }
    case Spurious(w) => WeightUpdate(s.workers, w, Awake);
    case Check(w) => WeightUpdate(s.workers, w, Next(s, e).workers[w]);
    case Finish(w) => WeightUpdate(s.workers, w, Awake);
    case NotifyAll => WeightWoken(s.workers, Next(s, e).workers);
    case _ =>
  }

  function Enqueues<T>(es: seq<Event<T>>): nat {
    if es == [] then 0 else (if es[0].Enqueue? then 1 else 0) + Enqueues(es[1..])
  }

  lemma {:induction false} StoppedRunIsBounded<T>(s: Pool<T>, es: seq<Event<T>>, s': Pool<T>)
    requires s.quit && Runs(s, es, s') && Quit !in es
    ensures s'.quit && |es| + Remaining(s') <= Remaining(s) + 5 * Enqueues(es)
    decreases |es|
  {
    if es != [] {
      if !es[0].Enqueue? {
        ClosedStepShrinks(s, es[0]);
      }
      StoppedRunIsBounded(Next(s, es[0]), es[1..], s');
    }
  }

  /** A stopped pool is not stuck before all its workers have exited. No worker need wake up by itself: one
      that sleeps is still to be notified. */
  lemma ClosedCanStep<T>(s: Pool<T>)
    requires Inv(s) && s.quit && !AllExited(s)
    ensures exists e :: Closed(e) && !e.Spurious? && Enabled(s, e)
  {
    var w :| 0 <= w < |s.workers| && s.workers[w] != Exited;
    match s.workers[w]
    case Awake => assert Enabled(s, Check(w));
    case Waiting => assert Enabled(s, NotifyAll);
    case Running(_) => assert Enabled(s, Finish(w));
  }

  /** The numbers below `n`, each once, in any order. */
  predicate EachOnce(xs: seq<nat>, n: nat) {
    && (forall k :: 0 <= k < |xs| ==> xs[k] < n)
    && (forall k, j :: 0 <= k < j < |xs| ==> xs[k] != xs[j])
    && forall t :: 0 <= t < n ==> t in xs
  }

  /** When all workers have exited: the tasks were started in the order of acceptance and each has been run
      once, but for those accepted when no worker was left, which are still queued. So every accepted task has
      been run if and only if there are none of these. */
  lemma ExitedMeansDrained<T>(limit: nat, size: nat, es: seq<Event<T>>, s: Pool<T>)
    requires Runs(Start(limit, size), es, s) && AllExited(s)
    ensures s.accepted == s.started + s.lost && s.queue == s.lost && EachOnce(s.finished, |s.started|)
    ensures EachOnce(s.finished, |s.accepted|) <==> s.lost == []
  {
    StartHolds<T>(limit, size);
    RunKeepsInv(Start(limit, size), es, s);
    assert EachOnce(s.finished, |s.accepted|) && s.lost != [] ==> |s.started| in s.finished;
  }

  /** Between a state with a worker that has not exited and one where all have, what was queued is started. */
  lemma {:induction false} QueueIsDrained<T>(s: Pool<T>, es: seq<Event<T>>, s': Pool<T>)
    requires Inv(s) && !AllExited(s) && Runs(s, es, s') && AllExited(s')
    ensures |s'.started| >= |s.accepted|
    decreases |es|
  {
    hide Inv;
    var next := Next(s, es[0]);
    StepKeepsInv(s, es[0]);
    RunKeepsInv(next, es[1..], s');
    if AllExited(next) {
      LastExit(s, es[0]);
    } else {
      QueueIsDrained(next, es[1..], s');
    }
  }

  lemma LastExit<T>(s: Pool<T>, e: Event<T>)
    requires Inv(s) && !AllExited(s) && Enabled(s, e) && Inv(Next(s, e)) && AllExited(Next(s, e))
    ensures Next(s, e).started == s.accepted
  {
    hide RunOnce;
  }

  lemma {:induction false} ExitedStartsNothing<T>(s: Pool<T>, es: seq<Event<T>>, s': Pool<T>)
    requires AllExited(s) && Runs(s, es, s')
    ensures AllExited(s') && s'.started == s.started
    decreases |es|
  {
    if es != [] {
      ExitedStartsNothing(Next(s, es[0]), es[1..], s');
    }
  }

  /** The fate of one task: when it was accepted in state `m`, then by the time all workers have exited it has
      been run if and only if one of them had not exited in `m`; whether the pool was stopped by then does not
      matter. */
  lemma TaskIsRunUnlessAllExited<T>(limit: nat, size: nat, before: seq<Event<T>>, m: Pool<T>, t: T,
                                    after: seq<Event<T>>, s: Pool<T>)
    requires Runs(Start(limit, size), before, m) && |m.queue| < limit
    requires Runs(Next(m, Enqueue(t)), after, s) && AllExited(s)
    ensures |m.accepted| < |s.accepted| && s.accepted[|m.accepted|] == t
    ensures |m.accepted| in s.finished <==> !AllExited(m)
  {
    hide Inv;
    var n := Next(m, Enqueue(t));
    StartHolds<T>(limit, size);
    RunKeepsInv(Start(limit, size), before, m);
    StepKeepsInv(m, Enqueue(t));
    RunKeepsInv(n, after, s);
    assert n.accepted[|m.accepted|] == t;
    AtTheEnd(m);
    AtTheEnd(s);
    if AllExited(m) {
      ExitedStartsNothing(n, after, s);
    } else {
      QueueIsDrained(n, after, s);
    }
  }

  lemma AtTheEnd<T>(s: Pool<T>)
    requires Inv(s)
    ensures |s.started| <= |s.accepted| && (AllExited(s) ==> EachOnce(s.finished, |s.started|))
  {
  }

  lemma {:induction false} RunsConcat<T>(s: Pool<T>, es: seq<Event<T>>, m: Pool<T>, es': seq<Event<T>>, s': Pool<T>)
    requires Runs(s, es, m) && Runs(m, es', s')
    ensures Runs(s, es + es', s')
    decreases |es|
  {
    if es == [] {
      assert es + es' == es';
    } else {
      RunsConcat(Next(s, es[0]), es[1..], m, es', s');
      assert (es + es')[1..] == es[1..] + es';
    }
  }

  /** The destructor: however the threads are scheduled after `_stop`, the pool can take a bounded number of
      steps only, and five more for each call of `enqueue` that still comes. Where it comes to rest, whether or
      not a worker could still wake up for no reason, all workers have exited, and every task that was accepted
      has run exactly once, but for those accepted when no worker was left. */
  lemma StoppedPoolDrains<T>(limit: nat, size: nat, before: seq<Event<T>>, stopped: Pool<T>, after: seq<Event<T>>,
                             s: Pool<T>)
    requires Runs(Start(limit, size), before, stopped) && stopped.quit
    requires Runs(stopped, after, s) && Quit !in after
    ensures |after| <= Remaining(stopped) + 5 * Enqueues(after)
    ensures (forall e :: Closed(e) && Enabled(s, e) ==> e.Spurious?) ==>
              AllExited(s) && s.accepted == s.started + s.lost && EachOnce(s.finished, |s.started|)
  {
    StoppedRunIsBounded(stopped, after, s);
    RunsConcat(Start(limit, size), before, stopped, after, s);
    StartHolds<T>(limit, size);
    RunKeepsInv(Start(limit, size), before + after, s);
    if forall e :: Closed(e) && Enabled(s, e) ==> e.Spurious? {
      if !AllExited(s) {
        ClosedCanStep(s);
        assert false;
      }
      ExitedMeansDrained(limit, size, before + after, s);
    }
  }

  /** `enqueue` does not look at `_quit`, so a task can be lost in a pool of any size. */
  lemma LateTaskIsLost<T>(limit: nat, size: nat, t: T)
    requires limit > 0
    ensures exists es, s :: Runs(Start(limit, size), es, s) && AllExited(s) && s.accepted == s.lost == [t]
  {
    var s0 := Start<T>(limit, size);
    var s1 := Next(s0, Quit);
    var es, s2 := AllLeave(s1, 0);
    var s3 := Next(s2, Enqueue(t));
    assert Runs(s3, [], s3) && [Enqueue(t)][1..] == [];
    assert Runs(s2, [Enqueue(t)], s3);
    RunsConcat(s1, es, s2, [Enqueue(t)], s3);
    var all := [Quit] + (es + [Enqueue(t)]);
    assert all[1..] == es + [Enqueue(t)];
    assert Runs(s0, all, s3);
  }

  /** The workers find a stopped pool with an empty queue, one after the other. */
  lemma {:induction false} AllLeave<T>(s: Pool<T>, k: nat) returns (es: seq<Event<T>>, s': Pool<T>)
    requires s.quit && s.queue == [] && k <= |s.workers|
    requires forall w :: 0 <= w < |s.workers| ==> s.workers[w] == if w < k then Exited else Awake
    ensures Runs(s, es, s') && AllExited(s') && s' == s.(workers := s'.workers)
    decreases |s.workers| - k
  {
    if k == |s.workers| {
      return [], s;
    }
    es, s' := AllLeave(Next(s, Check(k)), k + 1);
    es := [Check(k)] + es;
  }

  // ---------- The critical sections themselves ----------

  /** The fields that the mutex guards. `Shows` ties them to the state all threads are in. */
  class WorkerPool<T(==)> {
    const queueSize: nat
    var tasks: seq<T>
    var quit: bool

    constructor (queueSize: nat, size: nat)
      ensures Shows(Start(queueSize, size))
    {
      this.queueSize, tasks, quit := queueSize, [], false;
    }

    predicate Shows(s: Pool<T>)
      reads this
    {
      s.limit == queueSize && s.queue == tasks && s.quit == quit
    }

    method Enqueue(t: T, ghost s: Pool<T>) returns (ok: bool)
      requires Shows(s)
      modifies this`tasks
      ensures Shows(Next(s, Event.Enqueue(t)))
      ensures ok <==> Next(s, Event.Enqueue(t)).accepted == s.accepted + [t]
      ensures ok <==> |old(tasks)| != queueSize
      ensures tasks == if ok then old(tasks) + [t] else old(tasks)
    {
      ok := |tasks| != queueSize;
      if ok {
        tasks := tasks + [t];
      }
    }

    /** What a worker does with the lock held: it gets a task, or is told whether to leave; otherwise it waits. */
    method Turn(w: nat, ghost s: Pool<T>) returns (task: seq<T>, leave: bool)
      requires Shows(s) && Enabled(s, Check(w))
      modifies this`tasks
      ensures Shows(Next(s, Check(w)))
      ensures match Next(s, Check(w)).workers[w]
              case Running(k) => !leave && task == [Next(s, Check(w)).started[k]]
              case p => task == [] && leave == p.Exited?
      ensures old(tasks) != [] ==> task == [old(tasks)[0]] && tasks == old(tasks)[1..] && !leave
      ensures old(tasks) == [] ==> task == tasks == [] && leave == quit
    {
      task, leave := [], false;
      if !(quit || tasks != []) {
        return;
      }
      if tasks == [] {
        assert quit;
        leave := true;
        return;
      }
      task := [tasks[0]];
      tasks := tasks[1..];
    }

    method Stop(ghost s: Pool<T>)
      requires Shows(s)
      modifies this`quit
      ensures Shows(Next(s, Quit)) && quit
    {
      quit := true;
    }
  }
}
