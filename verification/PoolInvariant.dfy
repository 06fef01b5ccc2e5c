/** Every event of the pool monitor keeps the invariant, so every run does. */
module PoolInvariant {
  import opened Wrappers
  import opened PoolMonitor

  /** An event other than a notification touches the phase of its own thread and of nobody else. */
  lemma OneMoves(cfg: Config, s: State, e: Event)
    requires Enabled(cfg, s, e) && !e.NotifyOne? && !e.NotifyAll?
    ensures Apply(cfg, s, e).phase == s.phase[e.t := At(Apply(cfg, s, e), e.t)]
  {
  }

  // ---------------------------------------------------------------- mutual exclusion

  lemma LockMoves(s: State, s': State, t: Tid)
    requires LockInv(s) && s'.phase == s.phase[t := At(s', t)]
    requires if HoldsLock(At(s', t)) then s'.owner == Some(t) && (s.owner == None || s.owner == Some(t))
             else s'.owner == if s.owner == Some(t) then None else s.owner
    ensures LockInv(s')
  {
    forall u: Tid
      ensures HoldsLock(At(s', u)) <==> s'.owner == Some(u)
    {
      assert HoldsLock(At(s, u)) <==> s.owner == Some(u);
    }
  }

  lemma LockStep(cfg: Config, s: State, e: Event)
    requires LockInv(s) && Enabled(cfg, s, e)
    ensures LockInv(Apply(cfg, s, e))
  {
    var s' := Apply(cfg, s, e);
    assert HoldsLock(At(s, e.t)) <==> s.owner == Some(e.t);
    match e
    case NotifyOne(t, w) =>
      var s1 := Leaves(s, t, Outside);
      LockMoves(s, s1, t);
      if w.Some? {
        assert HoldsLock(At(s1, w.value)) <==> s1.owner == Some(w.value);
        LockMoves(s1, s', w.value);
      }
    case NotifyAll(t) =>
      forall u: Tid
        ensures HoldsLock(At(s', u)) <==> s'.owner == Some(u)
      {
        assert HoldsLock(At(s, u)) <==> s.owner == Some(u);
      }
    case _ =>
      OneMoves(cfg, s, e);
      LockMoves(s, s', e.t);
  }

  // ---------------------------------------------------------------- what threads rely on

  lemma PhaseMoves(cfg: Config, s: State, s': State, t: Tid)
    requires PhaseInv(cfg, s) && LockInv(s)
    requires s'.phase == s.phase[t := At(s', t)]
    requires PhaseOk(cfg, s'.stop, s'.queue != [], At(s', t))
    requires s.stop ==> s'.stop
    requires s'.queue == s.queue || HoldsLock(At(s, t))
    ensures PhaseInv(cfg, s')
  {
    forall u: Tid
      ensures PhaseOk(cfg, s'.stop, s'.queue != [], At(s', u))
    {
      assert PhaseOk(cfg, s.stop, s.queue != [], At(s, u));
      assert HoldsLock(At(s, u)) <==> s.owner == Some(u);
      assert HoldsLock(At(s, t)) <==> s.owner == Some(t);
    }
  }

  lemma PhaseNotify(cfg: Config, s: State, t: Tid, w: Option<Tid>)
    requires PhaseInv(cfg, s) && LockInv(s) && Enabled(cfg, s, NotifyOne(t, w))
    ensures PhaseInv(cfg, Apply(cfg, s, NotifyOne(t, w)))
  {
    var s1 := Leaves(s, t, Outside);
    PhaseMoves(cfg, s, s1, t);
    if w.Some? {
      assert PhaseOk(cfg, s.stop, s.queue != [], At(s, w.value));
      LockMoves(s, s1, t) by { assert HoldsLock(At(s, t)) <==> s.owner == Some(t); }
      PhaseMoves(cfg, s1, Apply(cfg, s, NotifyOne(t, w)), w.value);
    }
  }

  lemma PhaseStep(cfg: Config, s: State, e: Event)
    requires PhaseInv(cfg, s) && LockInv(s) && Enabled(cfg, s, e)
    requires forall i | 0 <= i < |s.queue| :: s.queue[i].Some?
    ensures PhaseInv(cfg, Apply(cfg, s, e))
  {
    var s' := Apply(cfg, s, e);
    assert PhaseOk(cfg, s.stop, s.queue != [], At(s, e.t));
    match e
    case NotifyOne(t, w) => PhaseNotify(cfg, s, t, w);
    case NotifyAll(t) =>
      forall u: Tid
        ensures PhaseOk(cfg, s'.stop, s'.queue != [], At(s', u))
      {
        assert PhaseOk(cfg, s.stop, s.queue != [], At(s, u));
      }
    case _ =>
      OneMoves(cfg, s, e);
      PhaseMoves(cfg, s, s', e.t);
  }

  // ---------------------------------------------------------------- exclusive ownership

  lemma QueueStep(cfg: Config, s: State, e: Event, created: set<Conn>)
    requires PhaseInv(cfg, s) && QueueInv(s, created) && HandsInv(s, created) && Enabled(cfg, s, e)
    ensures QueueInv(Apply(cfg, s, e), created)
  {
    assert PhaseOk(cfg, s.stop, s.queue != [], At(s, e.t));
    assert Holds(At(s, e.t)) ==> Some(Held(At(s, e.t)).value) !in s.queue;
  }

  /** `t` keeps what it holds, or lets it go, or takes something nobody holds. */
  lemma HandsMove(s: State, s': State, t: Tid, created: set<Conn>)
    requires HandsInv(s, created) && s'.phase == s.phase[t := At(s', t)]
    requires var h := Held(At(s', t));
             h.Some? ==> h.value in created && h !in s'.queue && h.value !in s'.lost && h.value !in s'.retired
    requires Held(At(s', t)) != Held(At(s, t)) ==>
               Held(At(s', t)).None? || Held(At(s', t)) in s.queue
    requires forall i | 0 <= i < |s'.queue| :: s'.queue[i] in s.queue || s'.queue[i] == Held(At(s, t))
    requires s'.lost <= s.lost + (if Holds(At(s, t)) then {Held(At(s, t)).value} else {})
    requires s'.retired <= s.retired + (if Holds(At(s, t)) then {Held(At(s, t)).value} else {})
    ensures HandsInv(s', created)
  {
    forall u: Tid | u != t && Holds(At(s', u))
      ensures var c := Held(At(s', u)).value;
              Some(c) !in s'.queue && c !in s'.lost && c !in s'.retired && c in created
      ensures Held(At(s', u)) != Held(At(s', t))
    {
      assert At(s', u) == At(s, u);
      assert Held(At(s, u)) != Held(At(s, t));
    }
    forall u: Tid, v: Tid | u != v && Holds(At(s', u))
      ensures Held(At(s', u)) != Held(At(s', v))
    {
      if u != t && v != t { assert At(s', u) == At(s, u) && At(s', v) == At(s, v); }
      if v != t && Holds(At(s', v)) { assert Held(At(s', v)) != Held(At(s', t)); }
    }
  }

  lemma HandsRun(cfg: Config, s: State, t: Tid, created: set<Conn>)
    requires PhaseInv(cfg, s) && QueueInv(s, created) && HandsInv(s, created) && Enabled(cfg, s, Run(t))
    ensures HandsInv(Apply(cfg, s, Run(t)), created)
  {
    assert PhaseOk(cfg, s.stop, s.queue != [], At(s, t));
    assert Holds(At(s, t)) ==> Some(Held(At(s, t)).value) !in s.queue;
    OneMoves(cfg, s, Run(t));
    HandsMove(s, Apply(cfg, s, Run(t)), t, created);
  }

  lemma HandsNotify(cfg: Config, s: State, t: Tid, w: Option<Tid>, created: set<Conn>)
    requires HandsInv(s, created) && Enabled(cfg, s, NotifyOne(t, w))
    ensures HandsInv(Apply(cfg, s, NotifyOne(t, w)), created)
  {
    HandsMove(s, Leaves(s, t, Outside), t, created);
    if w.Some? { HandsMove(Leaves(s, t, Outside), Apply(cfg, s, NotifyOne(t, w)), w.value, created); }
  }

  /** The events that move one thread and notify nobody. */
  lemma HandsOther(cfg: Config, s: State, e: Event, created: set<Conn>)
    requires PhaseInv(cfg, s) && QueueInv(s, created) && HandsInv(s, created) && Enabled(cfg, s, e)
    requires !e.Run? && !e.NotifyOne? && !e.NotifyAll?
    ensures HandsInv(Apply(cfg, s, e), created)
  {
    assert Holds(At(s, e.t)) ==> Some(Held(At(s, e.t)).value) !in s.queue;
    OneMoves(cfg, s, e);
    HandsMove(s, Apply(cfg, s, e), e.t, created);
  }

  lemma HandsStep(cfg: Config, s: State, e: Event, created: set<Conn>)
    requires PhaseInv(cfg, s) && QueueInv(s, created) && HandsInv(s, created) && Enabled(cfg, s, e)
    ensures HandsInv(Apply(cfg, s, e), created)
  {
    var s' := Apply(cfg, s, e);
    match e
    case Run(t) => HandsRun(cfg, s, t, created);
    case NotifyOne(t, w) => HandsNotify(cfg, s, t, w, created);
    case NotifyAll(t) =>
      assert forall u: Tid :: Held(At(s', u)) == Held(At(s, u));
    case _ => HandsOther(cfg, s, e, created);
  }

  // ---------------------------------------------------------------- conservation

  lemma CountMoves(s: State, s': State, t: Tid, created: set<Conn>)
    requires CountInv(s, created) && s'.phase == s.phase[t := At(s', t)]
    requires |s'.queue| + Tick(Holds(At(s', t))) + |s'.lost| + |s'.retired|
          == |s.queue| + Tick(Holds(At(s, t))) + |s.lost| + |s.retired|
    ensures CountInv(s', created)
  {
    WhereMoves(s, s', t, Holds);
  }

  lemma CountRun(cfg: Config, s: State, t: Tid, created: set<Conn>)
    requires PhaseInv(cfg, s) && QueueInv(s, created) && HandsInv(s, created) && CountInv(s, created)
    requires Enabled(cfg, s, Run(t))
    ensures CountInv(Apply(cfg, s, Run(t)), created)
  {
    assert PhaseOk(cfg, s.stop, s.queue != [], At(s, t));
    OneMoves(cfg, s, Run(t));
    CountMoves(s, Apply(cfg, s, Run(t)), t, created);
  }

  lemma CountNotify(cfg: Config, s: State, t: Tid, w: Option<Tid>, created: set<Conn>)
    requires CountInv(s, created) && Enabled(cfg, s, NotifyOne(t, w))
    ensures CountInv(Apply(cfg, s, NotifyOne(t, w)), created)
  {
    CountMoves(s, Leaves(s, t, Outside), t, created);
    if w.Some? { CountMoves(Leaves(s, t, Outside), Apply(cfg, s, NotifyOne(t, w)), w.value, created); }
  }

  /** A borrower keeps what it holds, unless it drops it. */
  lemma FinishShape(cfg: Config, s: State, t: Tid, o: Outcome)
    requires Enabled(cfg, s, Finish(t, o))
    ensures var s' := Apply(cfg, s, Finish(t, o));
            && s'.phase == s.phase[t := At(s', t)] && s'.queue == s.queue && s'.retired == s.retired
            && if Settle(cfg, At(s, t).c, At(s, t).got, o).Drop?
               then At(s, t).got.Some? && Held(At(s', t)).None? && s'.lost == s.lost + {At(s, t).got.value}
               else Held(At(s', t)) == At(s, t).got && s'.lost == s.lost
  {
  }

  lemma CountFinish(cfg: Config, s: State, t: Tid, o: Outcome, created: set<Conn>)
    requires HandsInv(s, created) && CountInv(s, created) && Enabled(cfg, s, Finish(t, o))
    ensures CountInv(Apply(cfg, s, Finish(t, o)), created)
  {
    assert Holds(At(s, t)) ==> Held(At(s, t)).value !in s.lost;
    FinishShape(cfg, s, t, o);
    CountMoves(s, Apply(cfg, s, Finish(t, o)), t, created);
  }

  lemma CountStep(cfg: Config, s: State, e: Event, created: set<Conn>)
    requires PhaseInv(cfg, s) && QueueInv(s, created) && HandsInv(s, created) && CountInv(s, created)
    requires Enabled(cfg, s, e)
    ensures CountInv(Apply(cfg, s, e), created)
  {
    var s' := Apply(cfg, s, e);
    match e
    case Run(t) => CountRun(cfg, s, t, created);
    case Finish(t, o) => CountFinish(cfg, s, t, o, created);
    case NotifyOne(t, w) => CountNotify(cfg, s, t, w, created);
    case NotifyAll(t) => assert Holders(s') == Holders(s);
    case _ =>
      OneMoves(cfg, s, e);
      CountMoves(s, s', e.t, created);
  }

  // ---------------------------------------------------------------- wakeups

  /** Either the queue is empty, or nobody fell asleep and the pending wakeups kept up with the queue. */
  lemma WakeMoves(s: State, s': State, t: Tid)
    requires WakeInv(s) && s'.phase == s.phase[t := At(s', t)] && (s.stop ==> s'.stop)
    requires s'.queue != [] && !s'.stop ==>
               && (At(s', t).Asleep? ==> At(s, t).Asleep?)
               && |s'.queue| - |s.queue| <= Tick(IsPending(At(s', t))) - Tick(IsPending(At(s, t)))
    ensures WakeInv(s')
  {
    WhereMoves(s, s', t, IsPending);
    WhereMoves(s, s', t, IsAsleep);
  }

  lemma WakeNotify(cfg: Config, s: State, t: Tid, w: Option<Tid>)
    requires WakeInv(s) && Enabled(cfg, s, NotifyOne(t, w))
    ensures WakeInv(Apply(cfg, s, NotifyOne(t, w)))
  {
    var s1, s' := Leaves(s, t, Outside), Apply(cfg, s, NotifyOne(t, w));
    WhereMoves(s, s1, t, IsPending);
    if w.Some? {
      assert w.value in Sleepers(s);
      WhereMoves(s1, s', w.value, IsPending);
    }
  }

  lemma WakeStep(cfg: Config, s: State, e: Event)
    requires PhaseInv(cfg, s) && WakeInv(s) && Enabled(cfg, s, e)
    ensures WakeInv(Apply(cfg, s, e))
  {
    var s' := Apply(cfg, s, e);
    assert PhaseOk(cfg, s.stop, s.queue != [], At(s, e.t));
    match e
    case NotifyOne(t, w) => WakeNotify(cfg, s, t, w);
    case NotifyAll(t) =>
    case _ =>
      OneMoves(cfg, s, e);
      WakeMoves(s, s', e.t);
  }

  // ---------------------------------------------------------------- all together

  lemma InvStep(cfg: Config, s: State, e: Event, created: set<Conn>)
    requires Inv(cfg, s, created) && Enabled(cfg, s, e)
    ensures Inv(cfg, Apply(cfg, s, e), created)
  {
    LockStep(cfg, s, e);
    PhaseStep(cfg, s, e);
    QueueStep(cfg, s, e, created);
    HandsStep(cfg, s, e, created);
    CountStep(cfg, s, e, created);
    WakeStep(cfg, s, e);
  }

  lemma {:induction false} InvRun(cfg: Config, s: State, es: seq<Event>, created: set<Conn>)
    requires Inv(cfg, s, created) && IsRun(cfg, s, es)
    ensures Inv(cfg, After(cfg, s, es), created)
    decreases |es|
  {
    if es != [] {
      InvStep(cfg, s, es[0], created);
      InvRun(cfg, Apply(cfg, s, es[0]), es[1..], created);
    }
  }
}
