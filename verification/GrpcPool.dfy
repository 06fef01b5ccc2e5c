/**
 The gRPC pool: its wait loop tests the queue only and its `returnConnection` ignores the flag,
 so its shutdown obeys other laws than the two pools that share a predicate wait.
*/
module GrpcPool {
  import opened Wrappers
  import opened PoolMonitor
  import opened PoolInvariant
  import opened PoolUncontended
  import opened PoolLaws
  import opened PoolClose

  /** Stubs are never destroyed by the pool's users: idle and held ones add up to the pool size, after `close` too. */
  lemma StubsConserved(cfg: Config, s: State, es: seq<Event>, created: set<Conn>)
    requires cfg.kind.GrpcKind? && Init(cfg, s, created) && IsRun(cfg, s, es)
    ensures var r := After(cfg, s, es); |r.queue| + |Holders(r)| == |created| && r.lost == {} && r.retired == {}
  {
    Conservation(cfg, s, es, created);
    Reaches(cfg, s, es, created);
  }

  /** The threads that may still cause a `notify_one`. */
  predicate MayNotify(p: Phase) { Holds(p) || p.Take? || p.Notifying? }

  ghost function Notifiers(s: State): set<Tid> { Where(s.phase, MayNotify) }

  function Weight(p: Phase): int { Tick(IsAsleep(p)) - Tick(MayNotify(p)) }

  lemma SlackMoves(s: State, s': State, t: Tid)
    requires s'.phase == s.phase[t := At(s', t)]
    ensures |Sleepers(s')| - |Notifiers(s')| - |Sleepers(s)| + |Notifiers(s)| == Weight(At(s', t)) - Weight(At(s, t))
  {
    WhereMoves(s, s', t, IsAsleep);
    WhereMoves(s, s', t, MayNotify);
  }

  lemma SlackNotify(cfg: Config, s: State, t: Tid, w: Option<Tid>)
    requires Enabled(cfg, s, NotifyOne(t, w))
    ensures var s' := Apply(cfg, s, NotifyOne(t, w));
            |Sleepers(s')| - |Notifiers(s')| >= |Sleepers(s)| - |Notifiers(s)|
  {
    SlackMoves(s, Leaves(s, t, Outside), t);
    if w.Some? {
      SlackMoves(Leaves(s, t, Outside), Apply(cfg, s, NotifyOne(t, w)), w.value);
    }
  }

  /** After the stop, a thread that leaves the sleepers is paid for by a thread that leaves the notifiers. */
  lemma SlackStep(cfg: Config, s: State, e: Event, created: set<Conn>)
    requires cfg.kind.GrpcKind? && s.stop && Inv(cfg, s, created) && Enabled(cfg, s, e)
    requires !e.Spurious? && !e.NotifyAll?
    ensures var s' := Apply(cfg, s, e);
            |Sleepers(s')| - |Notifiers(s')| >= |Sleepers(s)| - |Notifiers(s)|
  {
    assert PhaseOk(cfg, s.stop, s.queue != [], At(s, e.t));
    if e.NotifyOne? {
      SlackNotify(cfg, s, e.t, e.w);
    } else {
      OneMoves(cfg, s, e);
      SlackMoves(s, Apply(cfg, s, e), e.t);
    }
  }

  /** No spurious wakeup and no `notify_all`. */
  predicate Plain(es: seq<Event>) {
    forall i | 0 <= i < |es| :: !es[i].Spurious? && !es[i].NotifyAll?
  }

  /**
   From any moment after the stop, without spurious wakeups and without another `close`: at least
   as many getters stay asleep as there were sleepers beyond the threads that still had a
   connection to return. Once those have returned, every connection is idle and the rest sleep on.
  */
  lemma {:induction false} SleepersOutnumberReturns(cfg: Config, s: State, es: seq<Event>, created: set<Conn>)
    requires cfg.kind.GrpcKind? && s.stop && Inv(cfg, s, created) && IsRun(cfg, s, es)
    requires Plain(es)
    ensures var r := After(cfg, s, es);
            |Sleepers(r)| - |Notifiers(r)| >= |Sleepers(s)| - |Notifiers(s)|
    decreases |es|
  {
    if es != [] {
      SlackStep(cfg, s, es[0], created);
      InvStep(cfg, s, es[0], created);
      SleepersOutnumberReturns(cfg, Apply(cfg, s, es[0]), es[1..], created);
    }
  }

  /** The same law read at the end of the returns: idle connections all back, sleepers still there. */
  lemma IdleConnectionsBesideSleepers(cfg: Config, s0: State, es0: seq<Event>, es: seq<Event>, created: set<Conn>)
    requires cfg.kind.GrpcKind? && Init(cfg, s0, created) && IsRun(cfg, s0, es0)
    requires var s := After(cfg, s0, es0);
             s.stop && |Sleepers(s)| > |Notifiers(s)| && IsRun(cfg, s, es)
    requires Plain(es)
    requires Holders(After(cfg, After(cfg, s0, es0), es)) == {}
    ensures var r := After(cfg, After(cfg, s0, es0), es);
            Sleepers(r) != {} && |r.queue| == |created|
  {
    Reaches(cfg, s0, es0, created);
    var s := After(cfg, s0, es0);
    SleepersOutnumberReturns(cfg, s, es, created);
    RunSplits(cfg, s0, es0, es);
    StubsConserved(cfg, s0, es0 + es, created);
  }

  // ---------------------------------------------------------------- the condition is exact

  lemma SlackMovesBy(s: State, s': State, t: Tid)
    requires s'.phase == s.phase[t := At(s', t)]
    ensures |Sleepers(s')| == |Sleepers(s)| + Tick(IsAsleep(At(s', t))) - Tick(IsAsleep(At(s, t)))
    ensures |Notifiers(s')| == |Notifiers(s)| + Tick(MayNotify(At(s', t))) - Tick(MayNotify(At(s, t)))
  {
    WhereMoves(s, s', t, IsAsleep);
    WhereMoves(s, s', t, MayNotify);
  }

  /** The counts after one thread returns its stub and the notification goes to `u`. */
  lemma GiveReleasesOne(cfg: Config, s: State, h: Tid, u: Tid)
    requires cfg.kind.GrpcKind? && s.owner.None?
    requires At(s, h).Give? && At(s, h).con.Some? && At(s, u).Asleep?
    ensures IsRun(cfg, s, GiveTo(h, u))
    ensures var r := After(cfg, s, GiveTo(h, u));
            && r.stop == s.stop && r.owner.None?
            && |Sleepers(r)| == |Sleepers(s)| - 1 && |Notifiers(r)| == |Notifiers(s)| - 1
  {
    GiveWakes(cfg, s, h, u);
    var m := Move(s, h, Outside);
    SlackMovesBy(s, m, h);
    SlackMovesBy(m, Move(m, u, Woken(At(s, u).c)), u);
  }

  /** The rest of the return that holder `h` owes. */
  function ReturnRun(s: State, h: Tid, u: Tid): seq<Event> {
    if At(s, h).Using? then [Finish(h, Completed)] + GiveTo(h, u) else GiveTo(h, u)
  }

  /** With the mutex free, the return one holder owes takes one sleeper of choice out of the sleepers. */
  lemma OneReturnReleasesOne(cfg: Config, s: State, h: Tid, u: Tid, created: set<Conn>)
    requires cfg.kind.GrpcKind? && Inv(cfg, s, created) && s.owner.None?
    requires h in Notifiers(s) && u in Sleepers(s)
    ensures var es := ReturnRun(s, h, u);
            && IsRun(cfg, s, es) && Plain(es)
            && var r := After(cfg, s, es);
               && r.stop == s.stop && r.owner.None?
               && |Sleepers(r)| == |Sleepers(s)| - 1 && |Notifiers(r)| == |Notifiers(s)| - 1
  {
    assert PhaseOk(cfg, s.stop, s.queue != [], At(s, h));
    assert HoldsLock(At(s, h)) <==> s.owner == Some(h);
    if At(s, h).Using? {
      var g := Move(s, h, Give(At(s, h).c, At(s, h).got));
      SlackMovesBy(s, g, h);
      GiveReleasesOne(cfg, g, h, u);
      Chain(cfg, s, [Finish(h, Completed)] + GiveTo(h, u));
    } else {
      GiveReleasesOne(cfg, s, h, u);
    }
  }

  /** Some continuation without spurious wakeups and without another `close` leaves nobody asleep. */
  ghost predicate CanReleaseAll(cfg: Config, s: State) {
    exists es :: Plain(es) && IsRun(cfg, s, es) && Sleepers(After(cfg, s, es)) == {}
  }

  lemma {:induction false} EnoughReturnsReleaseAll(cfg: Config, s: State, created: set<Conn>)
    requires cfg.kind.GrpcKind? && Inv(cfg, s, created) && s.owner.None? && |Sleepers(s)| <= |Notifiers(s)|
    ensures CanReleaseAll(cfg, s)
    decreases |Sleepers(s)|
  {
    if Sleepers(s) == {} {
      assert Plain([]) && IsRun(cfg, s, []) && Sleepers(After(cfg, s, [])) == {};
    } else {
      var u :| u in Sleepers(s);
      assert Notifiers(s) != {};
      var h :| h in Notifiers(s);
      var es := ReturnRun(s, h, u);
      OneReturnReleasesOne(cfg, s, h, u, created);
      InvRun(cfg, s, es, created);
      var r := After(cfg, s, es);
      EnoughReturnsReleaseAll(cfg, r, created);
      var rest :| Plain(rest) && IsRun(cfg, r, rest) && Sleepers(After(cfg, r, rest)) == {};
      RunSplits(cfg, s, es, rest);
      assert Plain(es + rest);
    }
  }

  /**
   After the stop, with the mutex free, everybody can still be released exactly when the sleepers do
   not outnumber the threads that have a connection to return.
  */
  lemma ReleaseIsPossibleExactly(cfg: Config, s: State, created: set<Conn>)
    requires cfg.kind.GrpcKind? && Inv(cfg, s, created) && s.stop && s.owner.None?
    ensures CanReleaseAll(cfg, s) <==> |Sleepers(s)| <= |Notifiers(s)|
  {
    if |Sleepers(s)| <= |Notifiers(s)| {
      EnoughReturnsReleaseAll(cfg, s, created);
    }
    if CanReleaseAll(cfg, s) {
      var es :| Plain(es) && IsRun(cfg, s, es) && Sleepers(After(cfg, s, es)) == {};
      SleepersOutnumberReturns(cfg, s, es, created);
    }
  }

  // ---------------------------------------------------------------- a released getter passes nothing on

  /** In `getConnection`, or out of it with null, and not past its last flag test. */
  predicate IsGetting(p: Phase) {
    || p.Enter? || p.Test? || p.TestQueue? || p.Park? || p.Asleep? || p.Woken? || p.Recheck?
    || (p.Using? && p.got.None?)
  }

  /**
   After the stop a getter stays one until it finishes with null, and nothing it does touches the
   queue or another thread.
  */
  lemma GettingStep(cfg: Config, s: State, e: Event, u: Tid)
    requires s.stop && Enabled(cfg, s, e) && IsGetting(At(s, u)) && !(e.Finish? && e.t == u)
    ensures IsGetting(At(Apply(cfg, s, e), u))
    ensures e.t == u ==> Apply(cfg, s, e).queue == s.queue
    ensures e.t == u ==> forall v: Tid :: v != u ==> At(Apply(cfg, s, e), v) == At(s, v)
  {
  }

  predicate Unfinished(es: seq<Event>, u: Tid) {
    forall i | 0 <= i < |es| :: !(es[i].Finish? && es[i].t == u)
  }

  /** That, at every step of every run after the stop, whatever the others do. */
  lemma ReleasedGetterPassesNothingOn(cfg: Config, s: State, es: seq<Event>, e: Event, u: Tid)
    requires s.stop && IsGetting(At(s, u)) && IsRun(cfg, s, es + [e]) && Unfinished(es + [e], u)
    ensures IsRun(cfg, s, es)
    ensures var r := After(cfg, s, es);
            var r' := After(cfg, s, es + [e]);
            && IsGetting(At(r', u))
            && (e.t == u ==> r'.queue == r.queue && forall v: Tid :: v != u ==> At(r', v) == At(r, v))
  {
    RunSplits(cfg, s, es, [e]);
    assert forall i | 0 <= i < |es| :: (es + [e])[i] == es[i];
    GettingRun(cfg, s, es, u);
    assert (es + [e])[|es|] == e;
    GettingStep(cfg, After(cfg, s, es), e, u);
  }

  lemma {:induction false} GettingRun(cfg: Config, s: State, es: seq<Event>, u: Tid)
    requires s.stop && IsGetting(At(s, u)) && IsRun(cfg, s, es)
    requires Unfinished(es, u)
    ensures After(cfg, s, es).stop && IsGetting(At(After(cfg, s, es), u))
    decreases |es|
  {
    if es != [] {
      GettingStep(cfg, s, es[0], u);
      GettingRun(cfg, Apply(cfg, s, es[0]), es[1..], u);
    }
  }

  /** Once a stub is idle after the stop and nobody is past the last flag test, the queue is never empty again. */
  ghost predicate StaysIdle(s: State) {
    s.stop && s.queue != [] && forall v: Tid :: !At(s, v).Take?
  }

  lemma StaysIdleStep(cfg: Config, s: State, e: Event)
    requires StaysIdle(s) && Enabled(cfg, s, e)
    ensures StaysIdle(Apply(cfg, s, e))
  {
    forall v: Tid
      ensures !At(Apply(cfg, s, e), v).Take?
    {
      assert !At(s, v).Take?;
    }
    assert !At(s, e.t).Take?;
  }

  function OutRank(p: Phase): nat {
    match p
    case Woken(_) => 4
    case Test(_, _) => 3
    case TestQueue(_, _) => 2
    case Recheck(_, _) => 1
    case _ => 0
  }

  predicate IsComingOut(p: Phase) { OutRank(p) > 0 || (p.Using? && p.got.None?) }

  /** A released getter then comes out with null after exactly four actions of its own, whatever the others do. */
  lemma {:induction false} ReleasedGetterComesOut(cfg: Config, s: State, es: seq<Event>, u: Tid)
    requires !WaitHonoursStop(cfg) && StaysIdle(s) && IsRun(cfg, s, es) && Unfinished(es, u)
    requires IsComingOut(At(s, u))
    ensures IsComingOut(At(After(cfg, s, es), u))
    ensures OutRank(At(After(cfg, s, es), u)) + Own(es, u) == OutRank(At(s, u))
    decreases |es|
  {
    if es != [] {
      StaysIdleStep(cfg, s, es[0]);
      assert !(es[0].Finish? && es[0].t == u);
      ReleasedGetterComesOut(cfg, Apply(cfg, s, es[0]), es[1..], u);
    }
  }

  /** And whatever its call would have come to, the client then uses that null. */
  lemma ReleasedGetterUsesNull(cfg: Config, s: State, es: seq<Event>, u: Tid, o: Outcome, created: set<Conn>)
    requires cfg.kind.GrpcKind? && !WaitHonoursStop(cfg) && Inv(cfg, s, created) && StaysIdle(s)
    requires IsComingOut(At(s, u)) && IsRun(cfg, s, es) && Unfinished(es, u) && Own(es, u) == OutRank(At(s, u))
    ensures var r := After(cfg, s, es);
            && Enabled(cfg, r, Finish(u, o))
            && var p := At(Apply(cfg, r, Finish(u, o)), u); p.Faulted? && p.con.None?
  {
    ReleasedGetterComesOut(cfg, s, es, u);
    InvRun(cfg, s, es, created);
    var r := After(cfg, s, es);
    assert PhaseOk(cfg, r.stop, r.queue != [], At(r, u));
  }

  // ---------------------------------------------------------------- a run that strands a getter, for any pool size

  const USER: Client := Rpc(GetVarifyCode)

  /** `n` borrowers from thread k on, and what it makes of the counts. */
  lemma {:induction false} BorrowersCount(s: State, k: Tid, n: nat)
    requires IdleFrom(s, k) && |s.queue| == n && (forall i | 0 <= i < n :: s.queue[i].Some?)
    ensures var cfg := AsWritten(GrpcKind); var es := BorrowRun(k, n, USER);
            && IsRun(cfg, s, es)
            && var r := After(cfg, s, es);
               && IdleFrom(r, k + n) && r.queue == []
               && |Sleepers(r)| == |Sleepers(s)| && |Notifiers(r)| == |Notifiers(s)| + n
    decreases n
  {
    if n > 0 {
      var cfg := AsWritten(GrpcKind);
      GetTakesTheFront(cfg, s, k, USER);
      var r := After(cfg, s, GetRun(k, USER));
      assert forall t: Tid | t >= k + 1 :: At(r, t) == At(s, t);
      SlackMovesBy(s, r, k);
      BorrowersCount(r, k + 1, n - 1);
      RunSplits(cfg, s, GetRun(k, USER), BorrowRun(k + 1, n - 1, USER));
    }
  }

  /** Threads k, k + 1, ... call getConnection one after the other. */
  function BlockRuns(k: Tid, m: nat): seq<Event>
    decreases m
  {
    if m == 0 then [] else BlockRun(k, USER) + BlockRuns(k + 1, m - 1)
  }

  /** One getter more goes to sleep, and the threads beyond it are where they were. */
  lemma OneMoreSleeps(s: State, k: Tid)
    requires s.stop && s.queue == [] && s.owner.None? && At(s, k).Outside?
    ensures var cfg := AsWritten(GrpcKind); var es := BlockRun(k, USER);
            && IsRun(cfg, s, es)
            && var r := After(cfg, s, es);
               && r.stop && r.queue == [] && r.owner.None?
               && |Sleepers(r)| == |Sleepers(s)| + 1 && |Notifiers(r)| == |Notifiers(s)|
               && forall t: Tid | t != k :: At(r, t) == At(s, t)
  {
    var cfg := AsWritten(GrpcKind);
    GetBlocks(cfg, s, k, USER);
    SlackMovesBy(s, After(cfg, s, BlockRun(k, USER)), k);
  }

  lemma {:induction false} GettersCount(s: State, k: Tid, m: nat)
    requires s.stop && s.queue == [] && s.owner.None? && forall t: Tid | t >= k :: At(s, t).Outside?
    ensures var cfg := AsWritten(GrpcKind); var es := BlockRuns(k, m);
            && IsRun(cfg, s, es)
            && var r := After(cfg, s, es);
               && r.stop && r.owner.None?
               && |Sleepers(r)| == |Sleepers(s)| + m && |Notifiers(r)| == |Notifiers(s)|
    decreases m
  {
    if m > 0 {
      var cfg := AsWritten(GrpcKind);
      OneMoreSleeps(s, k);
      var r := After(cfg, s, BlockRun(k, USER));
      GettersCount(r, k + 1, m - 1);
      RunSplits(cfg, s, BlockRun(k, USER), BlockRuns(k + 1, m - 1));
    }
  }

  lemma CloseRuns(s: State, t: Tid)
    requires At(s, t).Outside? && Sleepers(s) == {}
    ensures var cfg := AsWritten(GrpcKind); var es := [StoreStop(t), NotifyAll(t)];
            IsRun(cfg, s, es) && After(cfg, s, es) == Move(s, t, Outside).(stop := true)
  {
    var cfg, es := AsWritten(GrpcKind), [StoreStop(t), NotifyAll(t)];
    var s1 := Apply(cfg, s, es[0]);
    assert forall u | u in s.phase && s.phase[u].Asleep? :: u in Sleepers(s);
    Chain(cfg, s1, es[1..]);
    Chain(cfg, s, es);
    assert Apply(cfg, s1, es[1]).phase == s.phase[t := Outside];
  }

  /** Every stub borrowed, then `close`, then one getter more than there are stubs. */
  function StrandingRun(n: nat): seq<Event> {
    BorrowRun(0, n, USER) + ([StoreStop(n), NotifyAll(n)] + BlockRuns(n, n + 1))
  }

  /** A pool of any size, its flag unset, has a run after which the sleepers outnumber the returns to come. */
  lemma StrandingIsReachable(s: State, created: set<Conn>)
    requires Init(AsWritten(GrpcKind), s, created) && !s.stop
    ensures var cfg := AsWritten(GrpcKind); var es := StrandingRun(|created|);
            && IsRun(cfg, s, es)
            && var r := After(cfg, s, es);
               && r.stop && r.owner.None?
               && |Sleepers(r)| == |created| + 1 && |Notifiers(r)| == |created|
  {
    var cfg, n := AsWritten(GrpcKind), |created|;
    assert Sleepers(s) == {} && Notifiers(s) == {};
    BorrowersCount(s, 0, n);
    var b := After(cfg, s, BorrowRun(0, n, USER));
    CloseRuns(b, n);
    var c := After(cfg, b, [StoreStop(n), NotifyAll(n)]);
    SlackMovesBy(b, c, n);
    assert forall t: Tid | t >= n :: At(b, t).Outside? && At(c, t) == At(b, t);
    GettersCount(c, n, n + 1);
    RunSplits(cfg, b, [StoreStop(n), NotifyAll(n)], BlockRuns(n, n + 1));
    RunSplits(cfg, s, BorrowRun(0, n, USER), [StoreStop(n), NotifyAll(n)] + BlockRuns(n, n + 1));
  }
}
