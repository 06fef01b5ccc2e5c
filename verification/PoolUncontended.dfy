/** A thread with nobody in its way: whole calls of `getConnection` and `returnConnection` as one run. */
module PoolUncontended {
  import opened Wrappers
  import opened PoolMonitor

  /** One unfolding of a run. */
  lemma Chain(cfg: Config, s: State, es: seq<Event>)
    requires es != [] && Enabled(cfg, s, es[0]) && IsRun(cfg, Apply(cfg, s, es[0]), es[1..])
    ensures IsRun(cfg, s, es) && After(cfg, s, es) == After(cfg, Apply(cfg, s, es[0]), es[1..])
  {
  }

  lemma MoveTwice(s: State, t: Tid, p: Phase, q: Phase)
    ensures Move(Move(s, t, p), t, q) == Move(s, t, q)
  {
    assert s.phase[t := p][t := q] == s.phase[t := q];
  }

  /** `t` inside its critical section. */
  function Inside(s: State, t: Tid, p: Phase): State {
    s.(phase := s.phase[t := p], owner := Some(t))
  }

  predicate Free(s: State, t: Tid) { s.owner.None? && At(s, t).Outside? }

  lemma Enters(cfg: Config, s: State, t: Tid, c: Client)
    requires Free(s, t) && Serves(cfg.kind, c)
    ensures IsRun(cfg, s, [Call(t, c), Lock(t)])
    ensures After(cfg, s, [Call(t, c), Lock(t)]) == Inside(s, t, Test(c, false))
  {
    var es := [Call(t, c), Lock(t)];
    MoveTwice(s, t, Enter(c), Test(c, false));
    Chain(cfg, Apply(cfg, s, es[0]), es[1..]);
    Chain(cfg, s, es);
  }

  /** From the first test to the connection. */
  lemma TestsAndTakes(cfg: Config, s: State, t: Tid, c: Client, w: bool)
    requires s.owner.None? && !s.stop && s.queue != []
    ensures var es := [Run(t), Run(t), Run(t), Run(t)];
            && IsRun(cfg, Inside(s, t, Test(c, w)), es)
            && After(cfg, Inside(s, t, Test(c, w)), es) == Move(s, t, Using(c, s.queue[0])).(queue := s.queue[1..])
  {
    var es := [Run(t), Run(t), Run(t), Run(t)];
    MoveTwice(Inside(s, t, Test(c, w)), t, Test(c, w), TestQueue(c, w));
    MoveTwice(s, t, Test(c, w), TestQueue(c, w));
    MoveTwice(s, t, TestQueue(c, w), Recheck(c, w));
    MoveTwice(s, t, Recheck(c, w), Take(c, w));
    MoveTwice(s, t, Take(c, w), Using(c, s.queue[0]));
    assert Apply(cfg, Inside(s, t, Test(c, w)), Run(t)) == Inside(s, t, TestQueue(c, w));
    assert Apply(cfg, Inside(s, t, TestQueue(c, w)), Run(t)) == Inside(s, t, Recheck(c, w));
    assert Apply(cfg, Inside(s, t, Recheck(c, w)), Run(t)) == Inside(s, t, Take(c, w));
    Chain(cfg, Inside(s, t, Take(c, w)), es[3..]);
    Chain(cfg, Inside(s, t, Recheck(c, w)), es[2..]);
    Chain(cfg, Inside(s, t, TestQueue(c, w)), es[1..]);
    Chain(cfg, Inside(s, t, Test(c, w)), es);
  }

  /** `getConnection` on an open pool with an idle connection hands out the front of the queue. */
  function GetRun(t: Tid, c: Client): seq<Event> {
    [Call(t, c), Lock(t)] + [Run(t), Run(t), Run(t), Run(t)]
  }

  lemma GetTakesTheFront(cfg: Config, s: State, t: Tid, c: Client)
    requires Free(s, t) && Serves(cfg.kind, c) && !s.stop && s.queue != []
    ensures IsRun(cfg, s, GetRun(t, c))
    ensures After(cfg, s, GetRun(t, c)) == Move(s, t, Using(c, s.queue[0])).(queue := s.queue[1..])
  {
    Enters(cfg, s, t, c);
    TestsAndTakes(cfg, s, t, c, false);
    RunSplits(cfg, s, [Call(t, c), Lock(t)], [Run(t), Run(t), Run(t), Run(t)]);
  }

  /** On an empty queue, with the flag unset or untested, it goes to sleep. */
  function BlockRun(t: Tid, c: Client): seq<Event> {
    [Call(t, c), Lock(t)] + [Run(t), Run(t), Run(t)]
  }

  lemma GetBlocks(cfg: Config, s: State, t: Tid, c: Client)
    requires Free(s, t) && Serves(cfg.kind, c) && s.queue == [] && (s.stop ==> !WaitHonoursStop(cfg))
    ensures IsRun(cfg, s, BlockRun(t, c))
    ensures After(cfg, s, BlockRun(t, c)) == Move(s, t, Asleep(c))
  {
    var es := [Run(t), Run(t), Run(t)];
    Enters(cfg, s, t, c);
    MoveTwice(s, t, Test(c, false), TestQueue(c, false));
    MoveTwice(s, t, TestQueue(c, false), Park(c));
    MoveTwice(s, t, Park(c), Asleep(c));
    assert Apply(cfg, Inside(s, t, Test(c, false)), Run(t)) == Inside(s, t, TestQueue(c, false));
    assert Apply(cfg, Inside(s, t, TestQueue(c, false)), Run(t)) == Inside(s, t, Park(c));
    Chain(cfg, Inside(s, t, Park(c)), es[2..]);
    Chain(cfg, Inside(s, t, TestQueue(c, false)), es[1..]);
    Chain(cfg, Inside(s, t, Test(c, false)), es);
    RunSplits(cfg, s, [Call(t, c), Lock(t)], es);
  }

  /** After the stop a wait that honours the flag comes straight out with null. */
  function NullRun(t: Tid, c: Client): seq<Event> {
    [Call(t, c), Lock(t)] + [Run(t), Run(t)]
  }

  lemma GetReturnsNull(cfg: Config, s: State, t: Tid, c: Client)
    requires Free(s, t) && Serves(cfg.kind, c) && s.stop && WaitHonoursStop(cfg)
    ensures IsRun(cfg, s, NullRun(t, c))
    ensures After(cfg, s, NullRun(t, c)) == Move(s, t, Using(c, None))
  {
    var es := [Run(t), Run(t)];
    Enters(cfg, s, t, c);
    MoveTwice(s, t, Test(c, false), Recheck(c, false));
    MoveTwice(s, t, Recheck(c, false), Using(c, None));
    assert Apply(cfg, Inside(s, t, Test(c, false)), Run(t)) == Inside(s, t, Recheck(c, false));
    Chain(cfg, Inside(s, t, Recheck(c, false)), es[1..]);
    Chain(cfg, Inside(s, t, Test(c, false)), es);
    RunSplits(cfg, s, [Call(t, c), Lock(t)], es);
  }

  /** `returnConnection` on an open pool with nobody asleep puts the connection at the back. */
  function GiveRun(t: Tid): seq<Event> {
    [Lock(t), Run(t), NotifyOne(t, None)]
  }

  lemma GiveAppends(cfg: Config, s: State, t: Tid)
    requires s.owner.None? && At(s, t).Give? && (s.stop ==> !ReturnHonoursStop(cfg))
    requires forall u | u in s.phase :: !s.phase[u].Asleep?
    ensures IsRun(cfg, s, GiveRun(t))
    ensures After(cfg, s, GiveRun(t)) == Move(s, t, Outside).(queue := s.queue + [At(s, t).con])
  {
    var es, c, con := GiveRun(t), At(s, t).c, At(s, t).con;
    MoveTwice(s, t, Giving(c, con), Notifying(c));
    MoveTwice(s, t, Notifying(c), Outside);
    var s2 := Inside(s, t, Notifying(c)).(queue := s.queue + [con]);
    assert Apply(cfg, Inside(s, t, Giving(c, con)), Run(t)) == s2;
    Chain(cfg, s2, es[2..]);
    Chain(cfg, Inside(s, t, Giving(c, con)), es[1..]);
    Chain(cfg, s, es);
  }

  /** `returnConnection` with `u` asleep may hand its notification to `u`. */
  function GiveTo(t: Tid, u: Tid): seq<Event> {
    [Lock(t), Run(t), NotifyOne(t, Some(u))]
  }

  lemma GiveWakes(cfg: Config, s: State, t: Tid, u: Tid)
    requires s.owner.None? && At(s, t).Give? && At(s, u).Asleep? && (s.stop ==> !ReturnHonoursStop(cfg))
    ensures IsRun(cfg, s, GiveTo(t, u))
    ensures After(cfg, s, GiveTo(t, u)) ==
            Move(Move(s, t, Outside), u, Woken(At(s, u).c)).(queue := s.queue + [At(s, t).con])
  {
    var es, c, con := GiveTo(t, u), At(s, t).c, At(s, t).con;
    MoveTwice(s, t, Giving(c, con), Notifying(c));
    MoveTwice(s, t, Notifying(c), Outside);
    var s2 := Inside(s, t, Notifying(c)).(queue := s.queue + [con]);
    assert Apply(cfg, Inside(s, t, Giving(c, con)), Run(t)) == s2;
    Chain(cfg, s2, es[2..]);
    Chain(cfg, Inside(s, t, Giving(c, con)), es[1..]);
    Chain(cfg, s, es);
  }
}
