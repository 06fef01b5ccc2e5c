/**
 The three blocking connection pools of the gate server as one step system over any number
 of threads: a mutex, a condition variable, a FIFO queue and an atomic stop flag, together with
 the code that borrows from them.

 Each event below is one atomic action of one thread. A thread that holds the mutex still takes
 several events between locking and unlocking, because `close` stores the flag and notifies
 without the mutex and can fall between any two of them.
*/
module PoolMonitor {
  import opened Wrappers

  type Tid = nat
  type Conn = nat

  datatype PoolKind = MysqlKind | RedisKind | GrpcKind

  /** The repairs default to off; with all three off the system is the code as it is written. */
  datatype Config = Config(
    kind: PoolKind,
    closeLocks: bool,     // repair: `close` takes the mutex to store the flag
    waitSeesStop: bool,   // repair: the gRPC wait loop also tests the flag
    mismatchReturns: bool // repair: `checkUserEmailMatch` gives back on its `return false` paths
  )

  function AsWritten(kind: PoolKind): Config {
    Config(kind, false, false, false)
  }

  datatype DaoMethod = RegUser | CheckUserExist | UpdatePassword | CheckUserPassword | CheckUserEmailMatch
  datatype RedisMethod = Get | Set | LPush | LPop | RPush | RPop | HSet | HSetArgv | HGet | Del | ExistsKey
  datatype RpcMethod = GetVarifyCode | GetChatServer

  datatype Client = Dao(dao: DaoMethod) | Redis(redis: RedisMethod) | Rpc(rpc: RpcMethod)

  predicate Serves(kind: PoolKind, c: Client) {
    match kind
    case MysqlKind => c.Dao?
    case RedisKind => c.Redis?
    case GrpcKind => c.Rpc?
  }

  /** How the work done with a borrowed connection ended. */
  datatype Outcome =
    | Completed  // any other end, catch blocks included
    | NoMatch    // the query of `checkUserEmailMatch` answered that nothing matches
    | NoText     // the reply carries no text where the command copies `reply->str`

  /** What the borrower does next with the pointer `getConnection` gave it. */
  datatype Disposition = GiveBack | Drop | Leave | Misuse

  function Settle(cfg: Config, c: Client, got: Option<Conn>, o: Outcome): Disposition {
    match c
    case Dao(m) =>
      if got.Some? && m.CheckUserEmailMatch? && o.NoMatch? && !cfg.mismatchReturns then Drop else GiveBack
    case Redis(m) =>
      if got.None? then (if m.Get? then Leave else Misuse)
      else if o.NoText? && (m.LPop? || m.RPop? || m.HGet?) then Misuse
      else GiveBack
    case Rpc(_) => if got.None? then Misuse else GiveBack
  }

  /**
   Where a thread is. `woken` marks a getter that came back from `wait` and has not yet
   finished its recheck.
  */
  datatype Phase =
    | Outside
    | Enter(c: Client)                           // in getConnection, wants the mutex
    | Test(c: Client, woken: bool)               // holds the mutex, about to read the flag
    | TestQueue(c: Client, woken: bool)          // holds the mutex, about to test the queue
    | Park(c: Client)                            // holds the mutex, predicate was false, about to sleep
    | Asleep(c: Client)
    | Woken(c: Client)                           // out of wait, wants the mutex again
    | Recheck(c: Client, woken: bool)            // holds the mutex, about to read the flag a last time
    | Take(c: Client, woken: bool)               // holds the mutex, about to front() and pop()
    | Using(c: Client, got: Option<Conn>)        // getConnection has returned `got`
    | Give(c: Client, con: Option<Conn>)         // in returnConnection, wants the mutex
    | Giving(c: Client, con: Option<Conn>)       // holds the mutex, about to read the flag and push
    | Notifying(c: Client)                       // holds the mutex, pushed, about to notify_one
    | Closing                                    // in close, flag stored, about to notify_all
    | Faulted(c: Client, con: Option<Conn>)      // used a null pointer: the code promises nothing more

  datatype State = State(
    queue: seq<Option<Conn>>,
    stop: bool,
    owner: Option<Tid>,
    phase: map<Tid, Phase>,
    lost: set<Conn>,    // destroyed by a borrower that never called returnConnection
    retired: set<Conn>  // destroyed or forgotten by returnConnection after the stop
  )

  function At(s: State, t: Tid): Phase {
    if t in s.phase then s.phase[t] else Outside
  }

  function Move(s: State, t: Tid, p: Phase): State {
    s.(phase := s.phase[t := p])
  }

  /** `t` moves on and its lock goes out of scope. */
  function Leaves(s: State, t: Tid, p: Phase): State {
    s.(phase := s.phase[t := p], owner := None)
  }

  predicate HoldsLock(p: Phase) {
    p.Test? || p.TestQueue? || p.Park? || p.Recheck? || p.Take? || p.Giving? || p.Notifying?
  }

  predicate WantsLock(p: Phase) {
    p.Enter? || p.Woken? || p.Give?
  }

  predicate IsAsleep(p: Phase) { p.Asleep? }

  function Held(p: Phase): Option<Conn> {
    match p
    case Using(_, got) => got
    case Give(_, con) => con
    case Giving(_, con) => con
    case Faulted(_, con) => con
    case _ => None
  }

  predicate Holds(p: Phase) { Held(p).Some? }

  predicate WaitHonoursStop(cfg: Config) { !cfg.kind.GrpcKind? || cfg.waitSeesStop }

  predicate ReturnHonoursStop(cfg: Config) { !cfg.kind.GrpcKind? }

  datatype Event =
    | Call(t: Tid, c: Client)
    | Lock(t: Tid)
    | Run(t: Tid)                       // the mutex holder's next action
    | NotifyOne(t: Tid, w: Option<Tid>)
    | Spurious(t: Tid)
    | Finish(t: Tid, o: Outcome)        // the borrower is done with what it got
    | StoreStop(t: Tid)
    | NotifyAll(t: Tid)

  predicate Enabled(cfg: Config, s: State, e: Event) {
    match e
    case Call(t, c) => At(s, t).Outside? && Serves(cfg.kind, c)
    case Lock(t) => WantsLock(At(s, t)) && s.owner.None?
    case Run(t) => HoldsLock(At(s, t)) && !At(s, t).Notifying?
    case NotifyOne(t, w) =>
      && At(s, t).Notifying?
      && if w.Some? then At(s, w.value).Asleep? else forall u | u in s.phase :: !s.phase[u].Asleep?
    case Spurious(t) => At(s, t).Asleep?
    case Finish(t, _) => At(s, t).Using?
    case StoreStop(t) => At(s, t).Outside? && (cfg.closeLocks ==> s.owner.None?)
    case NotifyAll(t) => At(s, t).Closing?
  }

  /** The action of the thread that holds the mutex. */
  function HolderStep(cfg: Config, s: State, t: Tid): State
    requires HoldsLock(At(s, t)) && !At(s, t).Notifying?
  {
    match At(s, t)
    case Test(c, w) => Move(s, t, if WaitHonoursStop(cfg) && s.stop then Recheck(c, w) else TestQueue(c, w))
    case TestQueue(c, w) => Move(s, t, if s.queue == [] then Park(c) else Recheck(c, w))
    case Park(c) => Leaves(s, t, Asleep(c))
    case Recheck(c, w) => if s.stop then Leaves(s, t, Using(c, None)) else Move(s, t, Take(c, w))
    case Take(c, _) =>
      if s.queue == [] then Leaves(s, t, Faulted(c, None))
      else Leaves(s, t, Using(c, s.queue[0])).(queue := s.queue[1..])
    case Giving(c, con) =>
      if ReturnHonoursStop(cfg) && s.stop then
        Leaves(s, t, Outside).(retired := s.retired + if con.Some? then {con.value} else {})
      else
        Move(s, t, Notifying(c)).(queue := s.queue + [con])
  }

  function Locked(p: Phase): Phase
    requires WantsLock(p)
  {
    match p
    case Enter(c) => Test(c, false)
    case Woken(c) => Test(c, true)
    case Give(c, con) => Giving(c, con)
  }

  function FinishStep(cfg: Config, s: State, t: Tid, o: Outcome): State
    requires At(s, t).Using?
  {
    var Using(c, got) := At(s, t);
    match Settle(cfg, c, got, o)
    case GiveBack => Move(s, t, Give(c, got))
    case Drop => Move(s, t, Outside).(lost := s.lost + if got.Some? then {got.value} else {})
    case Leave => Move(s, t, Outside)
    case Misuse => Move(s, t, Faulted(c, got))
  }

  function Awaken(p: Phase): Phase {
    if p.Asleep? then Woken(p.c) else p
  }

  function Apply(cfg: Config, s: State, e: Event): State
    requires Enabled(cfg, s, e)
  {
    match e
    case Call(t, c) => Move(s, t, Enter(c))
    case Lock(t) => Move(s, t, Locked(At(s, t))).(owner := Some(t))
    case Run(t) => HolderStep(cfg, s, t)
    case NotifyOne(t, w) =>
      var s1 := Leaves(s, t, Outside);
      if w.Some? then Move(s1, w.value, Woken(At(s, w.value).c)) else s1
    case Spurious(t) => Move(s, t, Woken(At(s, t).c))
    case Finish(t, o) => FinishStep(cfg, s, t, o)
    case StoreStop(t) => Move(s, t, Closing).(stop := true)
    case NotifyAll(t) =>
      s.(phase := map u | u in s.phase :: if u == t then Outside else Awaken(s.phase[u]))
  }

  // ---------------------------------------------------------------- runs

  ghost predicate IsRun(cfg: Config, s: State, es: seq<Event>)
    decreases |es|
  {
    es == [] || (Enabled(cfg, s, es[0]) && IsRun(cfg, Apply(cfg, s, es[0]), es[1..]))
  }

  ghost function After(cfg: Config, s: State, es: seq<Event>): State
    requires IsRun(cfg, s, es)
    decreases |es|
  {
    if es == [] then s else After(cfg, Apply(cfg, s, es[0]), es[1..])
  }

  lemma {:induction false} RunSplits(cfg: Config, s: State, a: seq<Event>, b: seq<Event>)
    ensures IsRun(cfg, s, a + b) <==> IsRun(cfg, s, a) && IsRun(cfg, After(cfg, s, a), b)
    ensures IsRun(cfg, s, a + b) ==> After(cfg, s, a + b) == After(cfg, After(cfg, s, a), b)
    decreases |a|
  {
    if a == [] {
      assert a + b == b;
    } else {
      assert (a + b)[1..] == a[1..] + b;
      if Enabled(cfg, s, a[0]) {
        RunSplits(cfg, Apply(cfg, s, a[0]), a[1..], b);
      }
    }
  }

  /** The pool as its constructor leaves it. The gRPC pool never initialises its flag. */
  ghost predicate Init(cfg: Config, s: State, created: set<Conn>) {
    && (forall i | 0 <= i < |s.queue| :: s.queue[i].Some? && s.queue[i].value in created)
    && (forall i, j | 0 <= i < j < |s.queue| :: s.queue[i] != s.queue[j])
    && |s.queue| == |created|
    && (!cfg.kind.GrpcKind? ==> !s.stop)
    && s.owner.None? && s.phase == map[] && s.lost == {} && s.retired == {}
  }

  // ---------------------------------------------------------------- the invariant

  /** The threads of `m` whose phase satisfies `f`. */
  ghost function Where(m: map<Tid, Phase>, f: Phase -> bool): set<Tid> {
    set t | t in m && f(m[t])
  }

  function Tick(b: bool): int { if b then 1 else 0 }

  /** One thread moving changes such a set by that thread only. */
  lemma WhereMoves(s: State, s': State, t: Tid, f: Phase -> bool)
    requires !f(Outside) && s'.phase == s.phase[t := At(s', t)]
    ensures Where(s'.phase, f) == if f(At(s', t)) then Where(s.phase, f) + {t} else Where(s.phase, f) - {t}
    ensures |Where(s'.phase, f)| == |Where(s.phase, f)| + Tick(f(At(s', t))) - Tick(f(At(s, t)))
  {
    assert Where(s'.phase, f) == if f(At(s', t)) then Where(s.phase, f) + {t} else Where(s.phase, f) - {t};
    assert t in Where(s.phase, f) <==> f(At(s, t));
  }

  /** Mutual exclusion: exactly the recorded owner is inside a critical section. */
  ghost predicate LockInv(s: State) {
    forall t: Tid :: HoldsLock(At(s, t)) <==> s.owner == Some(t)
  }

  /** What a thread may still rely on of what it read before, and who may carry a null. */
  predicate PhaseOk(cfg: Config, stop: bool, idle: bool, p: Phase) {
    match p
    case Outside => true
    case Enter(c) => Serves(cfg.kind, c)
    case Test(c, _) => Serves(cfg.kind, c)
    case TestQueue(c, _) => Serves(cfg.kind, c)
    case Park(c) => Serves(cfg.kind, c) && !idle
    case Asleep(c) => Serves(cfg.kind, c)
    case Woken(c) => Serves(cfg.kind, c)
    case Recheck(c, _) => Serves(cfg.kind, c) && (idle || (WaitHonoursStop(cfg) && stop))
    case Take(c, _) => Serves(cfg.kind, c) && idle
    case Using(c, got) => Serves(cfg.kind, c) && (got.None? ==> stop)
    case Give(c, con) => Serves(cfg.kind, c) && (con.None? ==> stop && c.Dao?)
    case Giving(c, con) => Serves(cfg.kind, c) && (con.None? ==> stop && c.Dao?)
    case Notifying(c) => Serves(cfg.kind, c)
    case Closing => stop
    case Faulted(c, con) =>
      Serves(cfg.kind, c) && (if con.None? then stop && c != Redis(Get) && !c.Dao? else c.Redis?)
  }

  ghost predicate PhaseInv(cfg: Config, s: State) {
    forall t: Tid :: PhaseOk(cfg, s.stop, s.queue != [], At(s, t))
  }

  /** The queue holds live connections only, each once. */
  ghost predicate QueueInv(s: State, created: set<Conn>) {
    && (forall i | 0 <= i < |s.queue| :: s.queue[i].Some? && s.queue[i].value in created)
    && (forall i, j | 0 <= i < j < |s.queue| :: s.queue[i] != s.queue[j])
    && (forall i | 0 <= i < |s.queue| :: s.queue[i].value !in s.lost && s.queue[i].value !in s.retired)
    && s.lost <= created && s.retired <= created && s.lost !! s.retired
  }

  /** A connection in some thread's hands is in no other hands and in no other place. */
  ghost predicate HandsInv(s: State, created: set<Conn>) {
    && (forall t: Tid {:trigger At(s, t)} :: Holds(At(s, t)) ==>
          var c := Held(At(s, t)).value;
          Some(c) !in s.queue && c !in s.lost && c !in s.retired && c in created)
    && (forall t: Tid, u: Tid {:trigger At(s, t), At(s, u)} ::
          t != u && Holds(At(s, t)) ==> Held(At(s, t)) != Held(At(s, u)))
  }

  ghost function Holders(s: State): set<Tid> { Where(s.phase, Holds) }

  /** Exact conservation. */
  ghost predicate CountInv(s: State, created: set<Conn>) {
    |s.queue| + |Holders(s)| + |s.lost| + |s.retired| == |created|
  }

  /** A getter that was woken and has not finished its recheck, or a returner about to wake one. */
  predicate IsPending(p: Phase) {
    match p
    case Woken(_) => true
    case Test(_, w) => w
    case TestQueue(_, w) => w
    case Recheck(_, w) => w
    case Take(_, w) => w
    case Notifying(_) => true
    case _ => false
  }

  ghost function Sleepers(s: State): set<Tid> { Where(s.phase, IsAsleep) }

  ghost function Pending(s: State): set<Tid> { Where(s.phase, IsPending) }

  /** No lost wakeup. */
  ghost predicate WakeInv(s: State) {
    !s.stop && Sleepers(s) != {} ==> |s.queue| <= |Pending(s)|
  }

  ghost predicate Inv(cfg: Config, s: State, created: set<Conn>) {
    LockInv(s) && PhaseInv(cfg, s) && QueueInv(s, created) && HandsInv(s, created) && CountInv(s, created) && WakeInv(s)
  }

  lemma InvInit(cfg: Config, s: State, created: set<Conn>)
    requires Init(cfg, s, created)
    ensures Inv(cfg, s, created)
  {
    assert Holders(s) == {} && Sleepers(s) == {};
  }
}
