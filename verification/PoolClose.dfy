/** What `close` guarantees, what it misses, and what taking the mutex in it would repair. */
module PoolClose {
  import opened Wrappers
  import opened PoolMonitor
  import opened PoolInvariant
  import opened PoolUncontended
  import opened PoolLaws

  /** The predicate has already read the flag as false; the thread may still go to sleep on that. */
  predicate IsLate(p: Phase) { p.TestQueue? || p.Park? }

  /** One complete call of `close` by `t`, with `es1` between the store and the notification. */
  function CloseRun(t: Tid, es1: seq<Event>, es2: seq<Event>): seq<Event> {
    [StoreStop(t)] + es1 + [NotifyAll(t)] + es2
  }

  // ---------------------------------------------------------------- who can sleep past close

  /** After the stop nobody starts to be late, and only the late fall asleep. */
  lemma LateStep(cfg: Config, s: State, e: Event, u: Tid)
    requires s.stop && WaitHonoursStop(cfg) && Enabled(cfg, s, e)
    ensures IsLate(At(Apply(cfg, s, e), u)) ==> IsLate(At(s, u))
    ensures At(Apply(cfg, s, e), u).Asleep? ==> At(s, u).Asleep? || IsLate(At(s, u))
    ensures e.NotifyAll? ==> !At(Apply(cfg, s, e), u).Asleep?
  {
  }

  lemma {:induction false} LateRun(cfg: Config, s: State, es: seq<Event>, u: Tid)
    requires s.stop && WaitHonoursStop(cfg) && IsRun(cfg, s, es)
    ensures IsLate(At(After(cfg, s, es), u)) ==> IsLate(At(s, u))
    ensures At(After(cfg, s, es), u).Asleep? ==> At(s, u).Asleep? || IsLate(At(s, u))
    decreases |es|
  {
    if es != [] {
      LateStep(cfg, s, es[0], u);
      LateRun(cfg, Apply(cfg, s, es[0]), es[1..], u);
    }
  }

  /** The four parts of a complete `close`. */
  lemma CloseParts(cfg: Config, s: State, t: Tid, es1: seq<Event>, es2: seq<Event>)
    requires IsRun(cfg, s, CloseRun(t, es1, es2))
    ensures Enabled(cfg, s, StoreStop(t)) && IsRun(cfg, Apply(cfg, s, StoreStop(t)), es1)
    ensures IsRun(cfg, s, [StoreStop(t)] + es1)
    ensures var m := After(cfg, s, [StoreStop(t)] + es1);
            && m == After(cfg, Apply(cfg, s, StoreStop(t)), es1)
            && Enabled(cfg, m, NotifyAll(t)) && IsRun(cfg, Apply(cfg, m, NotifyAll(t)), es2)
            && After(cfg, s, CloseRun(t, es1, es2)) == After(cfg, Apply(cfg, m, NotifyAll(t)), es2)
  {
    var a, b := [StoreStop(t)] + es1, [NotifyAll(t)] + es2;
    assert CloseRun(t, es1, es2) == a + b;
    RunSplits(cfg, s, a, b);
    assert a[1..] == es1 && b[1..] == es2;
  }

  /**
   The only thread that can still be asleep after a complete `close` is the one that owned the
   mutex when the flag was stored, had already read the flag as false, and had not gone to sleep
   when `notify_all` ran. There is at most one such thread.
  */
  lemma CloseMissesOnlyTheMutexHolder(cfg: Config, s: State, t: Tid, es1: seq<Event>, es2: seq<Event>,
                                      u: Tid, created: set<Conn>)
    requires WaitHonoursStop(cfg) && Inv(cfg, s, created) && IsRun(cfg, s, CloseRun(t, es1, es2))
    ensures IsRun(cfg, s, [StoreStop(t)] + es1)
    ensures At(After(cfg, s, CloseRun(t, es1, es2)), u).Asleep? ==>
              && s.owner == Some(u) && IsLate(At(s, u))
              && IsLate(At(After(cfg, s, [StoreStop(t)] + es1), u))
  {
    CloseParts(cfg, s, t, es1, es2);
    var s1 := Apply(cfg, s, StoreStop(t));
    var m := After(cfg, s1, es1);
    FlagRun(cfg, s1, es1);
    LateRun(cfg, s1, es1, u);
    LateStep(cfg, m, NotifyAll(t), u);
    LateRun(cfg, Apply(cfg, m, NotifyAll(t)), es2, u);
    assert HoldsLock(At(s, u)) <==> s.owner == Some(u);
  }

  /** Conversely, whoever owns the mutex with a false predicate in hand does sleep through such a `close`. */
  lemma ParkedThreadSleepsThroughClose(cfg: Config, s: State, t: Tid, u: Tid)
    requires At(s, u).Park? && At(s, t).Outside? && !cfg.closeLocks
    ensures var es := CloseRun(t, [], [Run(u)]);
            IsRun(cfg, s, es) && At(After(cfg, s, es), u).Asleep? && After(cfg, s, es).stop
  {
    var es := CloseRun(t, [], [Run(u)]);
    var s1 := Apply(cfg, s, es[0]);
    var s2 := Apply(cfg, s1, es[1]);
    Chain(cfg, s2, es[2..]);
    Chain(cfg, s1, es[1..]);
    Chain(cfg, s, es);
  }

  /** The same for one that has read the flag but not yet the empty queue. */
  lemma TestingThreadSleepsThroughClose(cfg: Config, s: State, t: Tid, u: Tid)
    requires At(s, u).TestQueue? && s.queue == [] && At(s, t).Outside? && !cfg.closeLocks
    ensures var es := CloseRun(t, [], [Run(u), Run(u)]);
            IsRun(cfg, s, es) && At(After(cfg, s, es), u).Asleep?
  {
    var es := CloseRun(t, [], [Run(u), Run(u)]);
    var s1 := Apply(cfg, s, es[0]);
    var s2 := Apply(cfg, s1, es[1]);
    var s3 := Apply(cfg, s2, es[2]);
    Chain(cfg, s3, [Run(u)]);
    Chain(cfg, s2, [Run(u), Run(u)]);
    Chain(cfg, s1, [NotifyAll(t), Run(u), Run(u)]);
    assert es == [StoreStop(t), NotifyAll(t), Run(u), Run(u)];
    Chain(cfg, s, es);
  }

  /**
   `u` will not go to sleep after the stop: it is not on its way to, or it holds the mutex over an
   idle connection.
  */
  predicate IsSafe(s: State, u: Tid) {
    && !At(s, u).Asleep? && !At(s, u).Park?
    && (At(s, u).TestQueue? ==> s.owner == Some(u) && s.queue != [])
  }

  lemma SafeStep(cfg: Config, s: State, e: Event, u: Tid)
    requires s.stop && WaitHonoursStop(cfg) && LockInv(s) && Enabled(cfg, s, e) && IsSafe(s, u)
    ensures IsSafe(Apply(cfg, s, e), u)
  {
    assert HoldsLock(At(s, e.t)) <==> s.owner == Some(e.t);
  }

  lemma {:induction false} SafeRun(cfg: Config, s: State, es: seq<Event>, u: Tid)
    requires s.stop && WaitHonoursStop(cfg) && LockInv(s) && IsRun(cfg, s, es) && IsSafe(s, u)
    ensures IsSafe(After(cfg, s, es), u)
    decreases |es|
  {
    if es != [] {
      LockStep(cfg, s, es[0]);
      SafeStep(cfg, s, es[0], u);
      SafeRun(cfg, Apply(cfg, s, es[0]), es[1..], u);
    }
  }

  /** Some complete `close` by `t` from here leaves `u` asleep. */
  ghost predicate CanMiss(cfg: Config, s: State, t: Tid, u: Tid) {
    exists es1, es2 ::
      IsRun(cfg, s, CloseRun(t, es1, es2)) && At(After(cfg, s, CloseRun(t, es1, es2)), u).Asleep?
  }

  /**
   The moment at which a `close` can miss `u`: it owns the mutex, has read the flag as false, and the
   queue is or was empty.
  */
  predicate Missable(s: State, u: Tid) {
    s.owner == Some(u) && (At(s, u).Park? || (At(s, u).TestQueue? && s.queue == []))
  }

  lemma SafeIsNotMissed(cfg: Config, s: State, t: Tid, es1: seq<Event>, es2: seq<Event>, u: Tid)
    requires WaitHonoursStop(cfg) && LockInv(s) && IsRun(cfg, s, CloseRun(t, es1, es2)) && IsSafe(s, u)
    ensures !At(After(cfg, s, CloseRun(t, es1, es2)), u).Asleep?
  {
    var rest := es1 + [NotifyAll(t)] + es2;
    assert CloseRun(t, es1, es2)[0] == StoreStop(t) && CloseRun(t, es1, es2)[1..] == rest;
    LockStep(cfg, s, StoreStop(t));
    SafeRun(cfg, Apply(cfg, s, StoreStop(t)), rest, u);
  }

  /** A complete `close` can miss a getter exactly at that moment. */
  lemma CloseMissesExactly(cfg: Config, s: State, t: Tid, u: Tid, created: set<Conn>)
    requires WaitHonoursStop(cfg) && !cfg.closeLocks && Inv(cfg, s, created) && At(s, t).Outside?
    ensures CanMiss(cfg, s, t, u) <==> Missable(s, u)
  {
    if Missable(s, u) {
      if At(s, u).Park? {
        ParkedThreadSleepsThroughClose(cfg, s, t, u);
      } else {
        TestingThreadSleepsThroughClose(cfg, s, t, u);
      }
    } else if CanMiss(cfg, s, t, u) {
      var es1, es2 :|
        IsRun(cfg, s, CloseRun(t, es1, es2)) && At(After(cfg, s, CloseRun(t, es1, es2)), u).Asleep?;
      CloseMissesOnlyTheMutexHolder(cfg, s, t, es1, es2, u, created);
      SafeIsNotMissed(cfg, s, t, es1, es2, u);
    }
  }

  /** A getter on an empty pool comes to that moment by itself. */
  lemma EmptyPoolParks(cfg: Config, s: State, u: Tid, c: Client)
    requires !s.stop && s.queue == [] && Free(s, u) && Serves(cfg.kind, c)
    ensures var es := [Call(u, c), Lock(u), Run(u), Run(u)];
            IsRun(cfg, s, es) && After(cfg, s, es) == Inside(s, u, Park(c))
  {
    Enters(cfg, s, u, c);
    MoveTwice(s, u, Test(c, false), TestQueue(c, false));
    MoveTwice(s, u, TestQueue(c, false), Park(c));
    assert Apply(cfg, Inside(s, u, Test(c, false)), Run(u)) == Inside(s, u, TestQueue(c, false));
    assert Apply(cfg, Inside(s, u, TestQueue(c, false)), Run(u)) == Inside(s, u, Park(c));
    Chain(cfg, Inside(s, u, TestQueue(c, false)), [Run(u)]);
    Chain(cfg, Inside(s, u, Test(c, false)), [Run(u), Run(u)]);
    RunSplits(cfg, s, [Call(u, c), Lock(u)], [Run(u), Run(u)]);
    assert [Call(u, c), Lock(u)] + [Run(u), Run(u)] == [Call(u, c), Lock(u), Run(u), Run(u)];
  }

  /** Threads k, k + 1, ... borrow one connection each until `n` are out. */
  function BorrowRun(k: Tid, n: nat, c: Client): seq<Event>
    decreases n
  {
    if n == 0 then [] else GetRun(k, c) + BorrowRun(k + 1, n - 1, c)
  }

  ghost predicate IdleFrom(s: State, k: Tid) {
    !s.stop && s.owner.None? && forall t: Tid | t >= k :: At(s, t).Outside?
  }

  lemma {:induction false} BorrowEmpties(cfg: Config, s: State, k: Tid, n: nat, c: Client)
    requires IdleFrom(s, k) && |s.queue| == n && Serves(cfg.kind, c)
    ensures IsRun(cfg, s, BorrowRun(k, n, c))
    ensures var r := After(cfg, s, BorrowRun(k, n, c)); IdleFrom(r, k + n) && r.queue == []
    decreases n
  {
    if n > 0 {
      GetTakesTheFront(cfg, s, k, c);
      var r := After(cfg, s, GetRun(k, c));
      assert forall t: Tid | t >= k + 1 :: At(r, t) == At(s, t);
      BorrowEmpties(cfg, r, k + 1, n - 1, c);
      RunSplits(cfg, s, GetRun(k, c), BorrowRun(k + 1, n - 1, c));
    }
  }

  /** A pool of any size, as written, has a run in which a complete `close` leaves a getter asleep. */
  lemma CloseCanMissAGetter(kind: PoolKind, s: State, created: set<Conn>, c: Client) returns (es: seq<Event>, u: Tid)
    requires !kind.GrpcKind? && Init(AsWritten(kind), s, created) && Serves(kind, c)
    ensures var cfg := AsWritten(kind); var all := es + CloseRun(u + 1, [], [Run(u)]);
            && IsRun(cfg, s, all)
            && After(cfg, s, all).stop && At(After(cfg, s, all), u).Asleep?
  {
    var cfg := AsWritten(kind);
    u := |s.queue|;
    BorrowEmpties(cfg, s, 0, u, c);
    var r := After(cfg, s, BorrowRun(0, u, c));
    var park := [Call(u, c), Lock(u), Run(u), Run(u)];
    EmptyPoolParks(cfg, r, u, c);
    RunSplits(cfg, s, BorrowRun(0, u, c), park);
    es := BorrowRun(0, u, c) + park;
    var p := After(cfg, r, park);
    assert At(p, u + 1) == At(r, u + 1);
    ParkedThreadSleepsThroughClose(cfg, p, u + 1, u);
    RunSplits(cfg, s, es, CloseRun(u + 1, [], [Run(u)]));
  }

  // ---------------------------------------------------------------- nobody rescues it

  ghost predicate NobodyNotifies(s: State) {
    forall v: Tid :: !At(s, v).Notifying?
  }

  /** No spurious wakeup of `u` and no further `close`. */
  predicate LeavesAlone(es: seq<Event>, u: Tid) {
    forall i | 0 <= i < |es| :: es[i] != Spurious(u) && !es[i].NotifyAll?
  }

  lemma QuietStep(cfg: Config, s: State, e: Event, u: Tid)
    requires s.stop && ReturnHonoursStop(cfg) && NobodyNotifies(s) && Enabled(cfg, s, e)
    ensures NobodyNotifies(Apply(cfg, s, e))
    ensures At(s, u).Asleep? && e != Spurious(u) && !e.NotifyAll? ==> At(Apply(cfg, s, e), u).Asleep?
  {
    forall v: Tid
      ensures !At(Apply(cfg, s, e), v).Notifying?
    {
      assert !At(s, v).Notifying?;
    }
    assert !At(s, e.t).Notifying?;
  }

  lemma {:induction false} QuietRun(cfg: Config, s: State, es: seq<Event>, u: Tid)
    requires s.stop && ReturnHonoursStop(cfg) && NobodyNotifies(s) && IsRun(cfg, s, es)
    ensures NobodyNotifies(After(cfg, s, es))
    ensures At(s, u).Asleep? && LeavesAlone(es, u) ==> At(After(cfg, s, es), u).Asleep?
    decreases |es|
  {
    if es != [] {
      QuietStep(cfg, s, es[0], u);
      QuietRun(cfg, Apply(cfg, s, es[0]), es[1..], u);
    }
  }

  /**
   While `u` owns the mutex with a false predicate nobody is about to notify, and after the stop
   nobody gets there.
  */
  lemma NobodyNotifiesAfterClose(cfg: Config, s: State, t: Tid, es1: seq<Event>, es2: seq<Event>, u: Tid,
                                 created: set<Conn>)
    requires ReturnHonoursStop(cfg) && Inv(cfg, s, created) && IsRun(cfg, s, CloseRun(t, es1, es2))
    requires s.owner == Some(u) && IsLate(At(s, u))
    ensures NobodyNotifies(After(cfg, s, CloseRun(t, es1, es2))) && After(cfg, s, CloseRun(t, es1, es2)).stop
  {
    var rest := es1 + [NotifyAll(t)] + es2;
    assert CloseRun(t, es1, es2)[0] == StoreStop(t) && CloseRun(t, es1, es2)[1..] == rest;
    var s1 := Apply(cfg, s, StoreStop(t));
    forall v: Tid
      ensures !At(s1, v).Notifying?
    {
      assert HoldsLock(At(s, v)) <==> s.owner == Some(v);
    }
    QuietRun(cfg, s1, rest, u);
    FlagRun(cfg, s1, rest);
  }

  /**
   A thread asleep after a complete `close` stays asleep: returns after the stop do not notify,
   so only a spurious wakeup or a further `close` can end its wait.
  */
  lemma MissedThreadIsStranded(cfg: Config, s: State, t: Tid, es1: seq<Event>, es2: seq<Event>,
                               es3: seq<Event>, u: Tid, created: set<Conn>)
    requires ReturnHonoursStop(cfg) && Inv(cfg, s, created)
    requires IsRun(cfg, s, CloseRun(t, es1, es2)) && At(After(cfg, s, CloseRun(t, es1, es2)), u).Asleep?
    requires IsRun(cfg, After(cfg, s, CloseRun(t, es1, es2)), es3)
    requires LeavesAlone(es3, u)
    ensures At(After(cfg, After(cfg, s, CloseRun(t, es1, es2)), es3), u).Asleep?
  {
    CloseMissesOnlyTheMutexHolder(cfg, s, t, es1, es2, u, created);
    NobodyNotifiesAfterClose(cfg, s, t, es1, es2, u, created);
    QuietRun(cfg, After(cfg, s, CloseRun(t, es1, es2)), es3, u);
  }

  // ---------------------------------------------------------------- whoever was asleep comes out with null

  predicate IsLeaving(p: Phase) {
    p.Woken? || p.Test? || p.Recheck? || (p.Using? && p.got.None?)
  }

  function LeavingRank(p: Phase): nat {
    match p
    case Woken(_) => 3
    case Test(_, _) => 2
    case Recheck(_, _) => 1
    case _ => 0
  }

  function Own(es: seq<Event>, u: Tid): nat {
    if es == [] then 0 else (if es[0].t == u then 1 else 0) + Own(es[1..], u)
  }

  lemma LeavingStep(cfg: Config, s: State, e: Event, u: Tid)
    requires s.stop && WaitHonoursStop(cfg) && Enabled(cfg, s, e) && !(e.Finish? && e.t == u)
    requires IsLeaving(At(s, u))
    ensures IsLeaving(At(Apply(cfg, s, e), u))
    ensures LeavingRank(At(Apply(cfg, s, e), u)) + (if e.t == u then 1 else 0) == LeavingRank(At(s, u))
  {
  }

  lemma {:induction false} LeavingRun(cfg: Config, s: State, es: seq<Event>, u: Tid)
    requires s.stop && WaitHonoursStop(cfg) && IsRun(cfg, s, es) && IsLeaving(At(s, u))
    requires forall i | 0 <= i < |es| :: !(es[i].Finish? && es[i].t == u)
    ensures IsLeaving(At(After(cfg, s, es), u))
    ensures LeavingRank(At(After(cfg, s, es), u)) + Own(es, u) == LeavingRank(At(s, u))
    decreases |es|
  {
    if es != [] {
      LeavingStep(cfg, s, es[0], u);
      LeavingRun(cfg, Apply(cfg, s, es[0]), es[1..], u);
    }
  }

  /**
   A thread asleep when `notify_all` runs never sleeps again in that call: whatever the others do,
   its next three actions bring it out of `getConnection`, and what it gets is null.
  */
  lemma CloseReleasesSleepers(cfg: Config, s: State, t: Tid, es1: seq<Event>, es2: seq<Event>, u: Tid,
                              created: set<Conn>)
    requires WaitHonoursStop(cfg) && Inv(cfg, s, created) && IsRun(cfg, s, CloseRun(t, es1, es2))
    requires IsRun(cfg, s, [StoreStop(t)] + es1) && At(After(cfg, s, [StoreStop(t)] + es1), u).Asleep?
    requires forall i | 0 <= i < |es2| :: !(es2[i].Finish? && es2[i].t == u)
    ensures var p := At(After(cfg, s, CloseRun(t, es1, es2)), u);
            IsLeaving(p) && LeavingRank(p) + Own(es2, u) == 3 && (Own(es2, u) == 3 ==> p.Using? && p.got.None?)
  {
    CloseParts(cfg, s, t, es1, es2);
    var m := After(cfg, s, [StoreStop(t)] + es1);
    FlagRun(cfg, Apply(cfg, s, StoreStop(t)), es1);
    LeavingRun(cfg, Apply(cfg, m, NotifyAll(t)), es2, u);
  }

  // ---------------------------------------------------------------- the repair

  /** With the mutex taken to store the flag, a complete `close` leaves nobody asleep, ever after. */
  lemma LockedCloseReleasesEverybody(cfg: Config, s: State, t: Tid, es1: seq<Event>, es2: seq<Event>,
                                     created: set<Conn>)
    requires cfg.closeLocks && WaitHonoursStop(cfg) && Inv(cfg, s, created)
    requires IsRun(cfg, s, CloseRun(t, es1, es2))
    ensures Sleepers(After(cfg, s, CloseRun(t, es1, es2))) == {}
  {
    var r := After(cfg, s, CloseRun(t, es1, es2));
    CloseParts(cfg, s, t, es1, es2);
    forall u: Tid
      ensures !At(r, u).Asleep?
    {
      CloseMissesOnlyTheMutexHolder(cfg, s, t, es1, es2, u, created);
    }
    assert forall u :: u in Sleepers(r) ==> At(r, u).Asleep?;
  }

  // ---------------------------------------------------------------- no lease after the stop

  predicate IsLease(p: Phase) { p.Take? || (p.Using? && p.got.Some?) }

  /** After the stop only a thread that had already passed its last flag test can still come out with a connection. */
  lemma {:induction false} NoLeaseAfterStop(cfg: Config, s: State, es: seq<Event>, u: Tid)
    requires s.stop && IsRun(cfg, s, es)
    ensures IsLease(At(After(cfg, s, es), u)) ==> IsLease(At(s, u))
    decreases |es|
  {
    if es != [] {
      NoLeaseStep(cfg, s, es[0], u);
      NoLeaseAfterStop(cfg, Apply(cfg, s, es[0]), es[1..], u);
    }
  }

  lemma NoLeaseStep(cfg: Config, s: State, e: Event, u: Tid)
    requires s.stop && Enabled(cfg, s, e)
    ensures Apply(cfg, s, e).stop && (IsLease(At(Apply(cfg, s, e), u)) ==> IsLease(At(s, u)))
  {
  }
}
