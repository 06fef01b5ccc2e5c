/**
 The pool classes, method by method. A method here is a whole call with nobody in its way, and its
 contract says that it comes to what the monitor's uncontended run comes to; what other threads can
 do in between is the monitor's subject.
*/
module Pools {
  import opened Wrappers
  import opened PoolMonitor
  import opened PoolUncontended

  /** What getConnection comes to: the caller is left asleep, or it gets a pointer. */
  datatype Grant = Blocks | Gives(con: Option<Conn>)

  function UncontendedGet(cfg: Config, s: State, t: Tid, c: Client): seq<Event> {
    if s.stop && WaitHonoursStop(cfg) then NullRun(t, c)
    else if s.queue == [] then BlockRun(t, c)
    else if s.stop then [Call(t, c), Lock(t)] + [Run(t), Run(t), Run(t)]
    else GetRun(t, c)
  }

  /** The method turned `before` into `after` as the monitor does for any one thread and client. */
  ghost predicate GetAgrees(cfg: Config, before: State, g: Grant, after: State) {
    forall t: Tid, c: Client | Serves(cfg.kind, c) && before.phase == map[] ::
      var es := UncontendedGet(cfg, before, t, c);
      IsRun(cfg, before, es) &&
      After(cfg, before, es) == Move(after, t, if g.Blocks? then Asleep(c) else Using(c, g.con))
  }

  function UncontendedGive(cfg: Config, s: State, t: Tid): seq<Event> {
    if s.stop && ReturnHonoursStop(cfg) then [Lock(t), Run(t)] else GiveRun(t)
  }

  ghost predicate GiveAgrees(cfg: Config, before: State, con: Option<Conn>, after: State) {
    forall t: Tid, c: Client | before.phase == map[] ::
      var s := Move(before, t, Give(c, con));
      var es := UncontendedGive(cfg, s, t);
      IsRun(cfg, s, es) && After(cfg, s, es).(retired := {}) == Move(after, t, Outside)
  }

  function Snapshot(queue: seq<Option<Conn>>, stop: bool): State {
    State(queue, stop, None, map[], {}, {})
  }

  lemma GetMatchesMonitor(cfg: Config, queue: seq<Option<Conn>>, stop: bool)
    requires cfg == AsWritten(cfg.kind)
    ensures var g := if stop && (WaitHonoursStop(cfg) || queue != []) then Gives(None)
                     else if queue == [] then Blocks else Gives(queue[0]);
            GetAgrees(cfg, Snapshot(queue, stop), g, Snapshot(if !stop && queue != [] then queue[1..] else queue, stop))
  {
    var s := Snapshot(queue, stop);
    forall t: Tid, c: Client | Serves(cfg.kind, c)
      ensures var g := if stop && (WaitHonoursStop(cfg) || queue != []) then Gives(None)
                       else if queue == [] then Blocks else Gives(queue[0]);
              var es := UncontendedGet(cfg, s, t, c);
              && IsRun(cfg, s, es)
              && After(cfg, s, es) == Move(Snapshot(if !stop && queue != [] then queue[1..] else queue, stop), t,
                                           if g.Blocks? then Asleep(c) else Using(c, g.con))
    {
      if stop && WaitHonoursStop(cfg) { GetReturnsNull(cfg, s, t, c); }
      else if queue == [] { GetBlocks(cfg, s, t, c); }
      else if stop { GetSeesTheStopLate(cfg, s, t, c); }
      else { GetTakesTheFront(cfg, s, t, c); }
    }
  }

  /** A wait that ignores the flag leaves the loop over an idle connection and only then reads it. */
  lemma GetSeesTheStopLate(cfg: Config, s: State, t: Tid, c: Client)
    requires Free(s, t) && Serves(cfg.kind, c) && s.stop && s.queue != [] && !WaitHonoursStop(cfg)
    ensures var es := [Call(t, c), Lock(t)] + [Run(t), Run(t), Run(t)];
            IsRun(cfg, s, es) && After(cfg, s, es) == Move(s, t, Using(c, None))
  {
    var es := [Run(t), Run(t), Run(t)];
    Enters(cfg, s, t, c);
    MoveTwice(s, t, Test(c, false), TestQueue(c, false));
    MoveTwice(s, t, TestQueue(c, false), Recheck(c, false));
    MoveTwice(s, t, Recheck(c, false), Using(c, None));
    assert Apply(cfg, Inside(s, t, Test(c, false)), Run(t)) == Inside(s, t, TestQueue(c, false));
    assert Apply(cfg, Inside(s, t, TestQueue(c, false)), Run(t)) == Inside(s, t, Recheck(c, false));
    Chain(cfg, Inside(s, t, Recheck(c, false)), es[2..]);
    Chain(cfg, Inside(s, t, TestQueue(c, false)), es[1..]);
    Chain(cfg, Inside(s, t, Test(c, false)), es);
    RunSplits(cfg, s, [Call(t, c), Lock(t)], es);
  }

  lemma GiveMatchesMonitor(cfg: Config, queue: seq<Option<Conn>>, stop: bool, con: Option<Conn>)
    ensures GiveAgrees(cfg, Snapshot(queue, stop), con,
                       Snapshot(if stop && ReturnHonoursStop(cfg) then queue else queue + [con], stop))
  {
    forall t: Tid, c: Client
      ensures var s := Move(Snapshot(queue, stop), t, Give(c, con));
              var es := UncontendedGive(cfg, s, t);
              && IsRun(cfg, s, es)
              && After(cfg, s, es).(retired := {}) ==
                 Move(Snapshot(if stop && ReturnHonoursStop(cfg) then queue else queue + [con], stop), t, Outside)
    {
      var s := Move(Snapshot(queue, stop), t, Give(c, con));
      MoveTwice(Snapshot(queue, stop), t, Give(c, con), Outside);
      if stop && ReturnHonoursStop(cfg) {
        MoveTwice(s, t, Giving(c, con), Outside);
        Chain(cfg, Inside(s, t, Giving(c, con)), [Run(t)]);
        Chain(cfg, s, [Lock(t), Run(t)]);
      } else {
        GiveAppends(cfg, s, t);
      }
    }
  }

  // ---------------------------------------------------------------- MysqlPool and RedisConPool

  /** The connections opened before the first failure. */
  function UpToFailure(connects: seq<Option<Conn>>): seq<Option<Conn>> {
    if connects == [] || connects[0].None? then [] else [connects[0]] + UpToFailure(connects[1..])
  }

  /** A prefix of the attempts, all of it good, that stops at the first failure or not at all. */
  lemma {:induction false} FillStopsAtFailure(connects: seq<Option<Conn>>)
    ensures var q := UpToFailure(connects);
            && q <= connects
            && (forall i | 0 <= i < |q| :: q[i].Some?)
            && (|q| == |connects| || connects[|q|].None?)
  {
    if connects != [] && connects[0].Some? { FillStopsAtFailure(connects[1..]); }
  }

  /** One pass of the Redis fill loop; only a refused context is freed. */
  datatype Attempt = Refused | AuthFailed(con: Conn) | Ready(con: Conn)

  /** The contexts of the passes that succeed, in order. */
  function Usable(attempts: seq<Attempt>): seq<Option<Conn>> {
    if attempts == [] then []
    else Usable(attempts[..|attempts| - 1]) +
         if attempts[|attempts| - 1].Ready? then [Some(attempts[|attempts| - 1].con)] else []
  }

  /** `at` names, in order, the passes that came out ready: these, all of these, and no other. */
  ghost predicate Picks(attempts: seq<Attempt>, at: seq<nat>) {
    && (forall i, j | 0 <= i < j < |at| :: at[i] < at[j])
    && (forall k: nat :: k in at <==> k < |attempts| && attempts[k].Ready?)
  }

  lemma {:induction false} FillSkipsFailures(attempts: seq<Attempt>) returns (at: seq<nat>)
    ensures Picks(attempts, at) && |Usable(attempts)| == |at|
    ensures forall i | 0 <= i < |at| ::
              at[i] < |attempts| && attempts[at[i]].Ready? && Usable(attempts)[i] == Some(attempts[at[i]].con)
  {
    if attempts == [] {
      at := [];
    } else {
      var n := |attempts| - 1;
      var init := attempts[..n];
      at := FillSkipsFailures(init);
      forall i | 0 <= i < |at|
        ensures at[i] < n && attempts[at[i]] == init[at[i]]
      {
        assert at[i] in at;
      }
      if attempts[n].Ready? { at := at + [n]; }
    }
  }

  ghost function Connections(queue: seq<Option<Conn>>): set<Conn> {
    set i | 0 <= i < |queue| && queue[i].Some? :: queue[i].value
  }

  lemma {:induction false} CountDistinct(queue: seq<Option<Conn>>)
    requires forall i | 0 <= i < |queue| :: queue[i].Some?
    requires forall i, j | 0 <= i < j < |queue| :: queue[i] != queue[j]
    ensures |Connections(queue)| == |queue|
  {
    if queue != [] {
      var init, last := queue[..|queue| - 1], queue[|queue| - 1].value;
      CountDistinct(init);
      assert Connections(queue) == Connections(init) + {last};
    }
  }

  /** A constructed pool is where the monitor's runs start, as long as the driver never hands out a connection twice. */
  lemma FreshPoolStartsRuns(kind: PoolKind, queue: seq<Option<Conn>>, stop: bool)
    requires forall i | 0 <= i < |queue| :: queue[i].Some?
    requires forall i, j | 0 <= i < j < |queue| :: queue[i] != queue[j]
    requires !kind.GrpcKind? ==> !stop
    ensures Init(AsWritten(kind), Snapshot(queue, stop), Connections(queue))
  {
    CountDistinct(queue);
  }

  /** MysqlPool and RedisConPool, which share everything but how they fill. */
  class BlockingPool {
    const kind: PoolKind
    var queue: seq<Option<Conn>>
    var stop: bool

    ghost predicate Sound()
      reads this
    {
      (kind.MysqlKind? || kind.RedisKind?) && forall i | 0 <= i < |queue| :: queue[i].Some?
    }

    /** `connects[i]` is what the i-th attempt yields; None is an SQLException, which ends the loop. */
    constructor Mysql(poolSize: int, connects: seq<Option<Conn>>)
      requires poolSize <= |connects|
      ensures kind == MysqlKind && Sound() && !stop
      ensures queue == UpToFailure(if poolSize < 0 then [] else connects[..poolSize])
    {
      kind, queue, stop := MysqlKind, [], false;
      new;
      ghost var wanted := if poolSize < 0 then [] else connects[..poolSize];
      var i := 0;
      while i < poolSize
        invariant 0 <= i <= |wanted| && !stop && Sound() && kind == MysqlKind
        invariant UpToFailure(wanted) == queue + UpToFailure(wanted[i..])
      {
        if connects[i].None? { break; }
        assert wanted[i..][1..] == wanted[i + 1..];
        queue := queue + [connects[i]];
        i := i + 1;
      }
    }

    /** A failed attempt is skipped and the loop goes on. */
    constructor Redis(poolSize: nat, attempts: seq<Attempt>)
      requires poolSize <= |attempts|
      ensures kind == RedisKind && Sound() && !stop
      ensures queue == Usable(attempts[..poolSize])
    {
      kind, queue, stop := RedisKind, [], false;
      new;
      for i := 0 to poolSize
        invariant !stop && Sound() && kind == RedisKind
        invariant queue == Usable(attempts[..i])
      {
        assert attempts[..i + 1][..i] == attempts[..i];
        if attempts[i].Refused? || attempts[i].AuthFailed? { continue; }
        queue := queue + [Some(attempts[i].con)];
      }
    }

    method GetConnection() returns (g: Grant)
      requires Sound()
      modifies this`queue
      ensures Sound()
      ensures g == if stop then Gives(None) else if old(queue) == [] then Blocks else Gives(old(queue)[0])
      ensures queue == if !stop && old(queue) != [] then old(queue)[1..] else old(queue)
      ensures GetAgrees(AsWritten(kind), old(Snapshot(queue, stop)), g, Snapshot(queue, stop))
    {
      GetMatchesMonitor(AsWritten(kind), queue, stop);
      var ready := stop || queue != [];
      if !ready {
        return Blocks;
      }
      if stop {
        return Gives(None);
      }
      var con := queue[0];
      queue := queue[1..];
      return Gives(con);
    }

    method ReturnConnection(con: Option<Conn>)
      requires Sound()
      modifies this`queue
      ensures con.Some? || stop ==> Sound()
      ensures queue == if stop then old(queue) else old(queue) + [con]
      ensures GiveAgrees(AsWritten(kind), old(Snapshot(queue, stop)), con, Snapshot(queue, stop))
    {
      GiveMatchesMonitor(AsWritten(kind), queue, stop, con);
      if stop {
        return;
      }
      queue := queue + [con];
    }

    method Close()
      modifies this`stop
      ensures stop
    {
      stop := true;
    }

    /** The destructor's loop. */
    method Drain()
      modifies this`queue
      ensures queue == []
    {
      while queue != []
        decreases |queue|
      {
        queue := queue[1..];
      }
    }
  }

  // ---------------------------------------------------------------- GrpcConnectionPool

  class GrpcConnectionPool {
    var connections: seq<Option<Conn>>
    var stop: bool

    /** `stop0` is whatever the flag happens to hold: the constructor does not set it. */
    constructor (stubs: seq<Conn>, poolSize: nat, stop0: bool)
      requires poolSize <= |stubs|
      ensures |connections| == poolSize && stop == stop0
      ensures forall i | 0 <= i < poolSize :: connections[i] == Some(stubs[i])
    {
      connections, stop := [], stop0;
      new;
      for i := 0 to poolSize
        invariant |connections| == i && stop == stop0
        invariant forall j | 0 <= j < i :: connections[j] == Some(stubs[j])
      {
        connections := connections + [Some(stubs[i])];
      }
    }

    method GetConnection() returns (g: Grant)
      modifies this`connections
      ensures g == if old(connections) == [] then Blocks else if stop then Gives(None) else Gives(old(connections)[0])
      ensures connections == if !stop && old(connections) != [] then old(connections)[1..] else old(connections)
      ensures GetAgrees(AsWritten(GrpcKind), old(Snapshot(connections, stop)), g, Snapshot(connections, stop))
    {
      GetMatchesMonitor(AsWritten(GrpcKind), connections, stop);
      if connections == [] {
        return Blocks;
      }
      if stop {
        return Gives(None);
      }
      var conn := connections[0];
      connections := connections[1..];
      return Gives(conn);
    }

    method ReturnConnection(conn: Option<Conn>)
      modifies this`connections
      ensures connections == old(connections) + [conn]
      ensures GiveAgrees(AsWritten(GrpcKind), old(Snapshot(connections, stop)), conn, Snapshot(connections, stop))
    {
      GiveMatchesMonitor(AsWritten(GrpcKind), connections, stop, conn);
      connections := connections + [conn];
    }
  }
}
