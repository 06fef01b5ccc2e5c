/** What holds over every run of a pool: wakeups, ownership, conservation, and the leaking borrower. */
module PoolLaws {
  import opened Wrappers
  import opened PoolMonitor
  import opened PoolInvariant
  import opened PoolUncontended

  lemma Reaches(cfg: Config, s: State, es: seq<Event>, created: set<Conn>)
    requires Init(cfg, s, created) && IsRun(cfg, s, es)
    ensures Inv(cfg, After(cfg, s, es), created)
  {
    InvInit(cfg, s, created);
    InvRun(cfg, s, es, created);
  }

  // ---------------------------------------------------------------- progress of the mutex holder

  function LockRank(p: Phase): nat {
    match p
    case Test(_, _) => 4
    case TestQueue(_, _) => 3
    case Recheck(_, _) => 2
    case Giving(_, _) => 2
    case Take(_, _) => 1
    case Park(_) => 1
    case Notifying(_) => 1
    case _ => 0
  }

  /** The mutex holder always has a next action, and each one brings it closer to unlocking. */
  lemma HolderMoves(cfg: Config, s: State, t: Tid, created: set<Conn>) returns (e: Event)
    requires Inv(cfg, s, created) && s.owner == Some(t)
    ensures Enabled(cfg, s, e) && e.t == t && !e.StoreStop?
    ensures LockRank(At(Apply(cfg, s, e), t)) < LockRank(At(s, t))
    ensures Apply(cfg, s, e).owner == if LockRank(At(Apply(cfg, s, e), t)) == 0 then None else Some(t)
  {
    assert HoldsLock(At(s, t));
    if At(s, t).Notifying? {
      if u: Tid :| u in s.phase && s.phase[u].Asleep? {
        e := NotifyOne(t, Some(u));
      } else {
        e := NotifyOne(t, None);
      }
    } else {
      e := Run(t);
    }
  }

  // ---------------------------------------------------------------- no lost wakeup

  /** A getter that came back from `wait` and has not finished its recheck. */
  predicate IsRechecking(p: Phase) { IsPending(p) && !p.Notifying? }

  /**
   Before the stop, while somebody sleeps there are at least as many pending wakeups as idle
   connections; with no return between its push and its notify, as many woken getters that have
   not finished their recheck. So a sleeper beside an idle connection is never the whole story: some getter
   is on its way to that connection, and either it or the mutex holder can act now.
  */
  lemma NoLostWakeup(cfg: Config, s: State, es: seq<Event>, created: set<Conn>)
    requires Init(cfg, s, created) && IsRun(cfg, s, es)
    requires var r := After(cfg, s, es); !r.stop && Sleepers(r) != {}
    ensures var r := After(cfg, s, es);
            && |r.queue| <= |Pending(r)|
            && ((forall t | t in r.phase :: !r.phase[t].Notifying?) ==> |r.queue| <= |Where(r.phase, IsRechecking)|)
            && (r.queue != [] ==> exists t, e: Event ::
                  t in Pending(r) && Enabled(cfg, r, e) && (e.t == t || r.owner == Some(e.t)))
  {
    var r := After(cfg, s, es);
    Reaches(cfg, s, es, created);
    if forall t | t in r.phase :: !r.phase[t].Notifying? {
      assert Where(r.phase, IsRechecking) == Pending(r);
    }
    if r.queue != [] {
      var t :| t in Pending(r);
      assert HoldsLock(At(r, t)) <==> r.owner == Some(t);
      if r.owner.None? {
        assert t in Pending(r) && Enabled(cfg, r, Lock(t)) && Lock(t).t == t;
      } else {
        var e := HolderMoves(cfg, r, r.owner.value, created);
      }
    }
  }

  // ---------------------------------------------------------------- ownership and conservation

  /**
   Every created connection is in exactly one place: queued once, in the hands of one thread,
   lost, or retired. `front()` and `pop()` only ever meet a non-empty queue, and what they take
   is never null.
  */
  lemma ExclusiveOwnership(cfg: Config, s: State, es: seq<Event>, created: set<Conn>)
    requires Init(cfg, s, created) && IsRun(cfg, s, es)
    ensures var r := After(cfg, s, es);
            && |r.queue| + |Holders(r)| + |r.lost| + |r.retired| == |created|
            && QueueInv(r, created) && HandsInv(r, created)
            && (forall t: Tid :: At(r, t).Take? ==> r.queue != [] && r.queue[0].Some?)
            && (forall t: Tid :: At(r, t).Using? && At(r, t).got.None? ==> r.stop)
  {
    Reaches(cfg, s, es, created);
    var r := After(cfg, s, es);
    forall t: Tid
      ensures At(r, t).Take? ==> r.queue != [] && r.queue[0].Some?
      ensures At(r, t).Using? && At(r, t).got.None? ==> r.stop
    {
      assert PhaseOk(cfg, r.stop, r.queue != [], At(r, t));
    }
  }

  /** The one borrower path that neither returns nor keeps its connection. */
  predicate IsLeak(cfg: Config, s: State, e: Event) {
    && e.Finish? && e.o.NoMatch? && !cfg.mismatchReturns
    && At(s, e.t).Using? && At(s, e.t).c == Dao(CheckUserEmailMatch) && At(s, e.t).got.Some?
  }

  ghost function Leaks(cfg: Config, s: State, es: seq<Event>): nat
    requires IsRun(cfg, s, es)
    decreases |es|
  {
    if es == [] then 0
    else (if IsLeak(cfg, s, es[0]) then 1 else 0) + Leaks(cfg, Apply(cfg, s, es[0]), es[1..])
  }

  lemma LostStep(cfg: Config, s: State, e: Event, created: set<Conn>)
    requires Inv(cfg, s, created) && Enabled(cfg, s, e)
    ensures s.lost <= Apply(cfg, s, e).lost
    ensures |Apply(cfg, s, e).lost| == |s.lost| + if IsLeak(cfg, s, e) then 1 else 0
  {
    assert Holds(At(s, e.t)) ==> Held(At(s, e.t)).value !in s.lost;
    assert PhaseOk(cfg, s.stop, s.queue != [], At(s, e.t));
  }

  /** The connections lost are exactly the leaks that happened, one each. */
  lemma {:induction false} LostCountsLeaks(cfg: Config, s: State, es: seq<Event>, created: set<Conn>)
    requires Inv(cfg, s, created) && IsRun(cfg, s, es)
    ensures |After(cfg, s, es).lost| == |s.lost| + Leaks(cfg, s, es)
    ensures cfg.mismatchReturns || !cfg.kind.MysqlKind? ==> Leaks(cfg, s, es) == 0
    decreases |es|
  {
    if es != [] {
      assert PhaseOk(cfg, s.stop, s.queue != [], At(s, es[0].t));
      LostStep(cfg, s, es[0], created);
      InvStep(cfg, s, es[0], created);
      LostCountsLeaks(cfg, Apply(cfg, s, es[0]), es[1..], created);
    }
  }

  lemma {:induction false} FlagRun(cfg: Config, s: State, es: seq<Event>)
    requires IsRun(cfg, s, es)
    ensures s.stop ==> After(cfg, s, es).stop
    ensures (forall i | 0 <= i < |es| :: !es[i].StoreStop?) ==> After(cfg, s, es).stop == s.stop
    decreases |es|
  {
    if es != [] {
      FlagRun(cfg, Apply(cfg, s, es[0]), es[1..]);
    }
  }

  /**
   Conservation as the code has it: before the stop nothing is retired and the connections
   missing from the pool and from every hand are exactly the leaks. A pool that serves no
   `checkUserEmailMatch`, or serves the repaired one, loses none, ever.
  */
  lemma Conservation(cfg: Config, s: State, es: seq<Event>, created: set<Conn>)
    requires Init(cfg, s, created) && IsRun(cfg, s, es)
    ensures var r := After(cfg, s, es);
            && |r.queue| + |Holders(r)| + Leaks(cfg, s, es) + |r.retired| == |created|
            && (!r.stop || cfg.kind.GrpcKind? ==> r.retired == {})
            && (cfg.mismatchReturns || !cfg.kind.MysqlKind? ==> r.lost == {})
  {
    InvInit(cfg, s, created);
    Reaches(cfg, s, es, created);
    LostCountsLeaks(cfg, s, es, created);
    RetiredOnlyAfterStop(cfg, s, es);
  }

  lemma {:induction false} RetiredOnlyAfterStop(cfg: Config, s: State, es: seq<Event>)
    requires IsRun(cfg, s, es)
    ensures !After(cfg, s, es).stop || cfg.kind.GrpcKind? ==> After(cfg, s, es).retired == s.retired
    decreases |es|
  {
    if es != [] {
      RetiredOnlyAfterStop(cfg, Apply(cfg, s, es[0]), es[1..]);
      FlagRun(cfg, Apply(cfg, s, es[0]), es[1..]);
    }
  }

  // ---------------------------------------------------------------- draining by mismatched requests

  /** One request whose name and email do not match, run by thread 0 with nobody in its way. */
  function MismatchedRequest(): seq<Event> {
    GetRun(0, Dao(CheckUserEmailMatch)) + [Finish(0, NoMatch)]
  }

  function MismatchedRequests(n: nat): seq<Event> {
    if n == 0 then [] else MismatchedRequest() + MismatchedRequests(n - 1)
  }

  lemma MismatchDrops(s: State)
    requires s.owner.None? && At(s, 0).Outside? && !s.stop && s.queue != [] && s.queue[0].Some?
    ensures var cfg := AsWritten(MysqlKind); var es := MismatchedRequest();
            && IsRun(cfg, s, es)
            && After(cfg, s, es) == Move(s, 0, Outside).(queue := s.queue[1..], lost := s.lost + {s.queue[0].value})
  {
    var cfg, c := AsWritten(MysqlKind), Dao(CheckUserEmailMatch);
    GetTakesTheFront(cfg, s, 0, c);
    var s1 := Move(s, 0, Using(c, s.queue[0])).(queue := s.queue[1..]);
    MoveTwice(s, 0, Using(c, s.queue[0]), Outside);
    Chain(cfg, s1, [Finish(0, NoMatch)]);
    RunSplits(cfg, s, GetRun(0, c), [Finish(0, NoMatch)]);
  }

  /** As many mismatched requests as the pool has connections leave it without any. */
  lemma {:induction false} MismatchesDrain(s: State, n: nat, created: set<Conn>)
    requires Inv(AsWritten(MysqlKind), s, created)
    requires s.owner.None? && At(s, 0).Outside? && !s.stop && |s.queue| == n
    ensures var cfg := AsWritten(MysqlKind); var es := MismatchedRequests(n);
            && IsRun(cfg, s, es)
            && After(cfg, s, es).queue == [] && |After(cfg, s, es).lost| == |s.lost| + n && !After(cfg, s, es).stop
    decreases n
  {
    var cfg := AsWritten(MysqlKind);
    if n > 0 {
      MismatchDrops(s);
      var r := After(cfg, s, MismatchedRequest());
      InvRun(cfg, s, MismatchedRequest(), created);
      assert s.queue[0].value !in s.lost;
      MismatchesDrain(r, n - 1, created);
      RunSplits(cfg, s, MismatchedRequest(), MismatchedRequests(n - 1));
    }
  }

  /**
   Once every connection is lost, no run before the stop ever gives one out again: each thread
   in `getConnection` is before the queue test or waiting, however often it is woken.
  */
  lemma DrainedPoolStarves(cfg: Config, s: State, es: seq<Event>, created: set<Conn>)
    requires Inv(cfg, s, created) && IsRun(cfg, s, es)
    requires !s.stop && |s.lost| == |created|
    requires forall i | 0 <= i < |es| :: !es[i].StoreStop?
    ensures var r := After(cfg, s, es);
            && r.queue == []
            && forall t: Tid ::
                 var p := At(r, t);
                 p.Outside? || p.Enter? || p.Test? || p.TestQueue? || p.Park? || p.Asleep? || p.Woken? || p.Notifying?
  {
    var r := After(cfg, s, es);
    InvRun(cfg, s, es, created);
    LostCountsLeaks(cfg, s, es, created);
    FlagRun(cfg, s, es);
    forall t: Tid
      ensures var p := At(r, t);
              p.Outside? || p.Enter? || p.Test? || p.TestQueue? || p.Park? || p.Asleep? || p.Woken? || p.Notifying?
    {
      assert PhaseOk(cfg, r.stop, r.queue != [], At(r, t));
      assert Holds(At(r, t)) ==> t in Holders(r);
    }
  }

  /** From any fresh MySQL pool: one mismatched request per connection, and then starvation in every continuation. */
  lemma MismatchesStarveThePool(s: State, es: seq<Event>, created: set<Conn>)
    requires Init(AsWritten(MysqlKind), s, created)
    requires IsRun(AsWritten(MysqlKind), s, MismatchedRequests(|created|) + es)
    requires forall i | 0 <= i < |es| :: !es[i].StoreStop?
    ensures IsRun(AsWritten(MysqlKind), s, MismatchedRequests(|created|))
    ensures var r := After(AsWritten(MysqlKind), s, MismatchedRequests(|created|) + es);
            r.queue == [] && Holders(r) == {} && forall t: Tid :: !At(r, t).Using?
  {
    var cfg := AsWritten(MysqlKind);
    InvInit(cfg, s, created);
    MismatchesDrain(s, |created|, created);
    RunSplits(cfg, s, MismatchedRequests(|created|), es);
    var d := After(cfg, s, MismatchedRequests(|created|));
    InvRun(cfg, s, MismatchedRequests(|created|), created);
    DrainedPoolStarves(cfg, d, es, created);
    InvRun(cfg, d, es, created);
    LostCountsLeaks(cfg, d, es, created);
  }

  // ---------------------------------------------------------------- the Redis borrowers

  /** Called after the stop with nobody in its way, every command but `get` uses the null it is given. */
  lemma NullPointerUse(s: State, t: Tid, m: RedisMethod)
    requires s.stop && s.owner.None? && At(s, t).Outside?
    ensures var cfg := AsWritten(RedisKind); var es := NullRun(t, Redis(m)) + [Finish(t, Completed)];
            && IsRun(cfg, s, es)
            && At(After(cfg, s, es), t) == if m.Get? then Outside else Faulted(Redis(m), None)
  {
    var cfg := AsWritten(RedisKind);
    GetReturnsNull(cfg, s, t, Redis(m));
    Chain(cfg, Move(s, t, Using(Redis(m), None)), [Finish(t, Completed)]);
    RunSplits(cfg, s, NullRun(t, Redis(m)), [Finish(t, Completed)]);
  }

  /** The null cases of `Faulted` need the stop, and neither `get` nor a DAO method is among them. */
  lemma NullOnlyAfterStop(cfg: Config, s: State, es: seq<Event>, created: set<Conn>, t: Tid)
    requires Init(cfg, s, created) && IsRun(cfg, s, es)
    requires var p := At(After(cfg, s, es), t); p.Faulted? && p.con.None?
    ensures After(cfg, s, es).stop && At(After(cfg, s, es), t).c != Redis(Get) && !cfg.kind.MysqlKind?
  {
    Reaches(cfg, s, es, created);
    var r := After(cfg, s, es);
    assert PhaseOk(cfg, r.stop, r.queue != [], At(r, t));
  }
}
