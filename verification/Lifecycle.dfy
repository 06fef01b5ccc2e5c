/**
 The life of one connection from construction to close, over every order of its completion events,
 with its deadline timer, a clock in milliseconds, and the thread that runs its context. HandleReq
 runs inside the read handler, so it may keep that thread for any length of time, or for good.
*/
module Lifecycle {
  import opened Wrappers
  import opened Server

  /**
   `oneThread`: a single thread runs the context, so nothing of it is dispatched while a handler
   runs. `prompt`: while the thread is free, a timer that is due is dispatched before the clock moves
   on. `armAtStart`: the repair in which `Start` arms the deadline, 60 seconds from the accept.
  */
  datatype Config = Config(oneThread: bool, prompt: bool, armAtStart: bool)

  datatype Stage =
    | Accepting  // constructed, waiting for async_accept
    | Reading    // in async_read
    | Handling   // the read handler runs HandleReq; a request that waits in a pool stays here
    | InHandler  // HandleReq has returned, CheckDeadline still to come
    | Settled    // the read handler has returned
    | Gone       // accept or read failed, or HandleReq threw: nothing further is started

  datatype WriteState = NotStarted | InFlight | Completed

  datatype Wait =
    | Unarmed
    | Armed
    | Fired      // found expired, its handler is queued: cancel comes too late
    | Cancelled
    | Ran        // the handler ran and closed the socket

  datatype Life = Life(
    builtAt: nat, now: nat,
    stage: Stage,
    acceptedAt: Option<nat>, armedAt: Option<nat>, writtenAt: Option<nat>, closedAt: Option<nat>,
    write: WriteState, writes: nat,
    wait: Wait,
    other: bool,    // another connection's handler has the thread
    endedAt: Option<nat>, // when the read handler ended
    freeSince: nat  // when the thread last came free, up to the moment the deadline is decided
  )

  const LIMIT: nat := 60_000

  datatype Event =
    | Tick(d: nat)
    | OtherStarts | OtherEnds     // a handler of another connection of the context
    | Accepted | AcceptFailed
    | ReadArrived | ReadFailed
    | HandleEnd(r: ReqEnd)        // HandleReq returns or throws
    | Arm                         // CheckDeadline, and the end of the read handler
    | WriteDone
    | Expire
    | RunWait

  function Expiry(cfg: Config, c: Life): nat {
    if cfg.armAtStart && c.acceptedAt.Some? then c.acceptedAt.value + LIMIT else c.builtAt + LIMIT
  }

  /** The context's only thread is inside a handler. */
  predicate Busy(cfg: Config, c: Life) {
    cfg.oneThread && (c.other || c.stage.Handling? || c.stage.InHandler?)
  }

  /** With prompt dispatch and a free thread, the clock may not run past a timer that is due. */
  predicate MayWait(cfg: Config, c: Life, d: nat) {
    cfg.prompt && !Busy(cfg, c) ==> !c.wait.Fired? && (c.wait.Armed? ==> c.now + d <= Expiry(cfg, c))
  }

  /** Accepts are handled on the acceptor's own context; everything else needs the thread. */
  predicate Enabled(cfg: Config, c: Life, e: Event) {
    match e
    case Tick(d) => d > 0 && MayWait(cfg, c, d)
    case OtherStarts => !c.other && !Busy(cfg, c)
    case OtherEnds => c.other
    case Accepted => c.stage.Accepting?
    case AcceptFailed => c.stage.Accepting?
    case ReadArrived => c.stage.Reading? && !Busy(cfg, c)
    case ReadFailed => c.stage.Reading? && !Busy(cfg, c)
    case HandleEnd(r) => c.stage.Handling? && !r.Waits?
    case Arm => c.stage.InHandler?
    case WriteDone => c.write.InFlight? && !Busy(cfg, c)
    case Expire => c.wait.Armed? && c.now >= Expiry(cfg, c) && !Busy(cfg, c)
    case RunWait => c.wait.Fired? && !Busy(cfg, c)
  }

  predicate Decided(c: Life) { c.wait.Cancelled? || c.wait.Ran? }

  /** A handler returns and leaves the thread free. */
  function Freed(cfg: Config, c: Life): Life {
    if cfg.oneThread && !Decided(c) then c.(freeSince := c.now) else c
  }

  function WithDeadline(c: Life): Life {
    c.(wait := Armed, armedAt := Some(c.now))
  }

  function Apply(cfg: Config, c: Life, e: Event): Life {
    match e
    case Tick(d) => c.(now := c.now + d)
    case OtherStarts => c.(other := true)
    case OtherEnds => Freed(cfg, c.(other := false))
    case Accepted =>
      var a := c.(stage := Reading, acceptedAt := Some(c.now));
      if cfg.armAtStart then WithDeadline(a) else a
    case AcceptFailed => c.(stage := Gone)
    case ReadArrived => c.(stage := Handling)
    case ReadFailed => c.(stage := Gone)
    case HandleEnd(r) =>
      (match r
       case Writes(_) => c.(stage := InHandler, write := InFlight, writes := c.writes + 1)
       case NoWrite => c.(stage := InHandler)
       case _ => Freed(cfg, c.(stage := Gone, endedAt := Some(c.now))))
    case Arm =>
      var d := c.(stage := Settled, endedAt := Some(c.now));
      Freed(cfg, if cfg.armAtStart then d else WithDeadline(d))
    case WriteDone =>
      c.(write := Completed, writtenAt := Some(c.now), wait := if c.wait.Armed? then Cancelled else c.wait)
    case Expire => c.(wait := Fired)
    case RunWait => c.(wait := Ran, closedAt := Some(c.now))
  }

  ghost predicate IsRun(cfg: Config, c: Life, es: seq<Event>)
    decreases |es|
  {
    es == [] || (Enabled(cfg, c, es[0]) && IsRun(cfg, Apply(cfg, c, es[0]), es[1..]))
  }

  ghost function After(cfg: Config, c: Life, es: seq<Event>): Life
    requires IsRun(cfg, c, es)
    decreases |es|
  {
    if es == [] then c else After(cfg, Apply(cfg, c, es[0]), es[1..])
  }

  function Built(t: nat): Life {
    Life(t, t, Accepting, None, None, None, None, NotStarted, 0, Unarmed, false, None, t)
  }

  // ---------------------------------------------------------------- the invariant

  function Max(a: nat, b: nat): nat { if a > b then a else b }

  /** The expiry, or the arming if that comes later. */
  function Due(cfg: Config, c: Life): nat {
    if c.armedAt.Some? then Max(c.armedAt.value, Expiry(cfg, c)) else Expiry(cfg, c)
  }

  /** When the deadline strikes: once it is due and the thread is free to see it. */
  function Strikes(cfg: Config, c: Life): nat { Max(Due(cfg, c), c.freeSince) }

  predicate TimesInv(cfg: Config, c: Life) {
    && c.builtAt <= c.freeSince <= c.now
    && (c.acceptedAt.Some? ==> c.builtAt <= c.acceptedAt.value <= c.now)
    && (c.armedAt.Some? ==> c.acceptedAt.Some? && c.acceptedAt.value <= c.armedAt.value <= c.now)
    && (c.armedAt.Some? <==> !c.wait.Unarmed?)
    && (c.endedAt.Some? ==> c.endedAt.value <= c.now)
    && (!cfg.oneThread ==> c.freeSince == c.builtAt)
  }

  predicate StageInv(cfg: Config, c: Life) {
    && c.writes == (if c.write.NotStarted? then 0 else 1)
    && (c.writtenAt.Some? <==> c.write.Completed?)
    && (c.stage.Accepting? ==> c.write.NotStarted? && c.wait.Unarmed? && c.acceptedAt.None?)
    && (c.stage.Reading? || c.stage.Handling? ==> c.write.NotStarted? && c.acceptedAt.Some?)
    && (c.stage.InHandler? || c.stage.Settled? ==> c.acceptedAt.Some?)
    && (c.stage.Settled? ==> !c.wait.Unarmed?)
    && (c.stage.Reading? || c.stage.Handling? || c.stage.InHandler? ==> (c.wait.Unarmed? <==> !cfg.armAtStart))
    && (c.stage.Gone? ==> c.write.NotStarted? && (c.wait.Unarmed? || cfg.armAtStart))
    && (c.endedAt.Some? ==> c.stage.Settled? || c.stage.Gone?)
    && (cfg.armAtStart && c.acceptedAt.Some? ==> c.armedAt == c.acceptedAt)
    && (cfg.oneThread && c.write.Completed? ==> c.stage.Settled?)
    && (cfg.oneThread && c.other ==> !c.stage.Handling? && !c.stage.InHandler?)
    && (c.write.Completed? ==> !c.wait.Armed? || (!cfg.oneThread && !cfg.armAtStart))
  }

  predicate DeadlineInv(cfg: Config, c: Life) {
    && (c.closedAt.Some? <==> c.wait.Ran?)
    && (c.wait.Ran? ==>
          Strikes(cfg, c) <= c.closedAt.value <= c.now && (cfg.prompt ==> c.closedAt.value == Strikes(cfg, c)))
    && (c.wait.Fired? ==> Due(cfg, c) <= c.now)
    && (cfg.prompt && (c.wait.Armed? || c.wait.Fired?) && !Busy(cfg, c) ==> c.now <= Strikes(cfg, c))
    && (c.wait.Cancelled? ==> c.writtenAt.Some? && (cfg.prompt ==> c.writtenAt.value <= Strikes(cfg, c)))
  }

  predicate Inv(cfg: Config, c: Life) {
    TimesInv(cfg, c) && StageInv(cfg, c) && DeadlineInv(cfg, c)
  }

  lemma TimesStep(cfg: Config, c: Life, e: Event)
    requires TimesInv(cfg, c) && StageInv(cfg, c) && Enabled(cfg, c, e)
    ensures TimesInv(cfg, Apply(cfg, c, e))
  {
  }

  lemma StageStep(cfg: Config, c: Life, e: Event)
    requires TimesInv(cfg, c) && StageInv(cfg, c) && Enabled(cfg, c, e)
    ensures StageInv(cfg, Apply(cfg, c, e))
  {
  }

  lemma DeadlineArms(cfg: Config, c: Life, e: Event)
    requires Inv(cfg, c) && Enabled(cfg, c, e) && (e.Accepted? || e.Arm? || e.WriteDone? || e.Expire? || e.RunWait?)
    ensures DeadlineInv(cfg, Apply(cfg, c, e))
  {
  }

  lemma DeadlineClock(cfg: Config, c: Life, e: Event)
    requires Inv(cfg, c) && Enabled(cfg, c, e) && (e.Tick? || e.OtherStarts? || e.OtherEnds?)
    ensures DeadlineInv(cfg, Apply(cfg, c, e))
  {
  }

  lemma DeadlineStep(cfg: Config, c: Life, e: Event)
    requires Inv(cfg, c) && Enabled(cfg, c, e)
    ensures DeadlineInv(cfg, Apply(cfg, c, e))
  {
    if e.Accepted? || e.Arm? || e.WriteDone? || e.Expire? || e.RunWait? {
      DeadlineArms(cfg, c, e);
    } else if e.Tick? || e.OtherStarts? || e.OtherEnds? {
      DeadlineClock(cfg, c, e);
    }
  }

  lemma InvStep(cfg: Config, c: Life, e: Event)
    requires Inv(cfg, c) && Enabled(cfg, c, e)
    ensures Inv(cfg, Apply(cfg, c, e)) && Apply(cfg, c, e).builtAt == c.builtAt
  {
    TimesStep(cfg, c, e);
    StageStep(cfg, c, e);
    DeadlineStep(cfg, c, e);
  }

  lemma {:induction false} InvRun(cfg: Config, c: Life, es: seq<Event>)
    requires Inv(cfg, c) && IsRun(cfg, c, es)
    ensures Inv(cfg, After(cfg, c, es)) && After(cfg, c, es).builtAt == c.builtAt
    decreases |es|
  {
    if es != [] {
      InvStep(cfg, c, es[0]);
      InvRun(cfg, Apply(cfg, c, es[0]), es[1..]);
    }
  }

  // ---------------------------------------------------------------- responses

  function WritesStarted(es: seq<Event>): nat {
    if es == [] then 0 else (if es[0].HandleEnd? && es[0].r.Writes? then 1 else 0) + WritesStarted(es[1..])
  }

  lemma {:induction false} WritesCounted(cfg: Config, c: Life, es: seq<Event>)
    requires IsRun(cfg, c, es)
    ensures After(cfg, c, es).writes == c.writes + WritesStarted(es)
    decreases |es|
  {
    if es != [] { WritesCounted(cfg, Apply(cfg, c, es[0]), es[1..]); }
  }

  /** Whatever the order of events and the number of threads, at most one response write is started. */
  lemma AtMostOneWrite(cfg: Config, t: nat, es: seq<Event>)
    requires IsRun(cfg, Built(t), es)
    ensures WritesStarted(es) == After(cfg, Built(t), es).writes <= 1
  {
    InvRun(cfg, Built(t), es);
    WritesCounted(cfg, Built(t), es);
  }

  /**
   With one thread for the context, or armed at `Start`, the deadline is armed before the write
   completion can cancel it.
  */
  lemma ArmedBeforeCancel(cfg: Config, t: nat, es: seq<Event>)
    requires (cfg.oneThread || cfg.armAtStart) && IsRun(cfg, Built(t), es)
    ensures var c := After(cfg, Built(t), es);
            c.write.Completed? ==> c.armedAt.Some? && !c.wait.Armed?
  {
    InvRun(cfg, Built(t), es);
  }

  /** One unfolding of a run. */
  lemma Unfolds(cfg: Config, c: Life, es: seq<Event>)
    requires es != [] && Enabled(cfg, c, es[0]) && IsRun(cfg, Apply(cfg, c, es[0]), es[1..])
    ensures IsRun(cfg, c, es) && After(cfg, c, es) == After(cfg, Apply(cfg, c, es[0]), es[1..])
  {
  }

  lemma {:induction false} RunSplits(cfg: Config, c: Life, a: seq<Event>, b: seq<Event>)
    requires IsRun(cfg, c, a) && IsRun(cfg, After(cfg, c, a), b)
    ensures IsRun(cfg, c, a + b) && After(cfg, c, a + b) == After(cfg, After(cfg, c, a), b)
    decreases |a|
  {
    if a == [] {
      assert a + b == b;
    } else {
      assert (a + b)[1..] == a[1..] + b;
      RunSplits(cfg, Apply(cfg, c, a[0]), a[1..], b);
    }
  }

  /** The accept and the arrival of the request. */
  lemma ArrivalRuns(cfg: Config, t: nat)
    ensures IsRun(cfg, Built(t), [Accepted, ReadArrived])
    ensures After(cfg, Built(t), [Accepted, ReadArrived]) ==
            Apply(cfg, Apply(cfg, Built(t), Accepted), ReadArrived)
  {
    Unfolds(cfg, Apply(cfg, Built(t), Accepted), [ReadArrived]);
    Unfolds(cfg, Built(t), [Accepted, ReadArrived]);
  }

  /**
   With a second thread on the context the completion can come first, and the timer then closes a
   finished connection.
  */
  lemma SecondThreadLosesTheCancel(t: nat)
    ensures var cfg := Config(false, true, false);
            var es := [Accepted, ReadArrived] +
                      ([HandleEnd(Writes(200)), WriteDone, Arm] + [Tick(LIMIT), Expire, RunWait]);
            && IsRun(cfg, Built(t), es)
            && var c := After(cfg, Built(t), es);
               c.writtenAt == Some(t) && c.closedAt == Some(t + 60_000)
  {
    var cfg := Config(false, true, false);
    ArrivalRuns(cfg, t);
    var c0 := After(cfg, Built(t), [Accepted, ReadArrived]);
    var c1 := Apply(cfg, c0, HandleEnd(Writes(200)));
    var c2 := Apply(cfg, c1, WriteDone);
    var c3 := Apply(cfg, c2, Arm);
    Unfolds(cfg, c2, [Arm]);
    Unfolds(cfg, c1, [WriteDone, Arm]);
    Unfolds(cfg, c0, [HandleEnd(Writes(200)), WriteDone, Arm]);
    LateArmCloses(cfg, c3);
    RunSplits(cfg, c0, [HandleEnd(Writes(200)), WriteDone, Arm], [Tick(LIMIT), Expire, RunWait]);
    RunSplits(cfg, Built(t), [Accepted, ReadArrived],
              [HandleEnd(Writes(200)), WriteDone, Arm] + [Tick(LIMIT), Expire, RunWait]);
  }

  lemma LateArmCloses(cfg: Config, c: Life)
    requires cfg == Config(false, true, false) && c.wait.Armed? && c.now == c.builtAt
    ensures IsRun(cfg, c, [Tick(LIMIT), Expire, RunWait])
    ensures var r := After(cfg, c, [Tick(LIMIT), Expire, RunWait]);
            r.writtenAt == c.writtenAt && r.closedAt == Some(c.now + LIMIT)
  {
    var c1 := Apply(cfg, c, Tick(LIMIT));
    var c2 := Apply(cfg, c1, Expire);
    Unfolds(cfg, c2, [RunWait]);
    Unfolds(cfg, c1, [Expire, RunWait]);
    Unfolds(cfg, c, [Tick(LIMIT), Expire, RunWait]);
  }

  // ---------------------------------------------------------------- the order of a connection's own events

  predicate IsStep(e: Event) {
    e.Accepted? || e.AcceptFailed? || e.ReadArrived? || e.ReadFailed? || e.HandleEnd? || e.Arm?
  }

  /** The steps among the events. */
  function Steps(es: seq<Event>): seq<Event> {
    if es == [] then [] else (if IsStep(es[0]) then [es[0]] else []) + Steps(es[1..])
  }

  /** The ways a connection can go, and every one of them left off anywhere. */
  predicate IsCourse(w: seq<Event>) {
    || w <= [AcceptFailed] || w <= [Accepted, ReadFailed] || w <= [Accepted, ReadArrived]
    || (&& 3 <= |w| <= 4 && w[..2] == [Accepted, ReadArrived]
        && w[2].HandleEnd? && !w[2].r.Waits?
        && (|w| == 4 ==> w[3] == Arm && w[2].r != Escaped))
  }

  function StageAfter(w: seq<Event>): Stage
    requires IsCourse(w)
  {
    if w == [] then Accepting
    else if w == [Accepted] then Reading
    else if w == [Accepted, ReadArrived] then Handling
    else if |w| == 3 && w[2].r != Escaped then InHandler
    else if |w| == 4 then Settled
    else Gone
  }

  /** The connection stands where the steps it has taken lead. */
  predicate OnCourse(c: Life, v: seq<Event>) {
    IsCourse(v) && c.stage == StageAfter(v)
  }

  function Extended(v: seq<Event>, e: Event): seq<Event> {
    if IsStep(e) then v + [e] else v
  }

  lemma CourseStep(cfg: Config, c: Life, v: seq<Event>, e: Event)
    requires OnCourse(c, v) && Enabled(cfg, c, e)
    ensures OnCourse(Apply(cfg, c, e), Extended(v, e))
  {
    if |v| == 0 { assert v + [e] == [e]; }
    else if |v| == 1 { assert v + [e] == [v[0], e]; }
    else if |v| == 2 { assert v + [e] == [v[0], v[1], e]; }
  }

  lemma StepsUnfold(v: seq<Event>, es: seq<Event>)
    requires es != []
    ensures v + Steps(es) == Extended(v, es[0]) + Steps(es[1..])
  {
    var rest := Steps(es[1..]);
    if IsStep(es[0]) {
      assert Steps(es) == [es[0]] + rest;
      assert v + ([es[0]] + rest) == v + [es[0]] + rest;
    } else {
      assert Steps(es) == rest;
    }
  }

  lemma {:induction false} CourseFrom(cfg: Config, c: Life, v: seq<Event>, es: seq<Event>)
    requires OnCourse(c, v) && IsRun(cfg, c, es)
    ensures OnCourse(After(cfg, c, es), v + Steps(es))
    decreases |es|
  {
    if es == [] {
      assert v + Steps(es) == v;
    } else {
      CourseStep(cfg, c, v, es[0]);
      CourseFrom(cfg, Apply(cfg, c, es[0]), Extended(v, es[0]), es[1..]);
      StepsUnfold(v, es);
    }
  }

  /** A course is a run, at once and with nothing in between. */
  lemma {:induction false} CourseRuns(cfg: Config, t: nat, w: seq<Event>)
    requires IsCourse(w)
    ensures IsRun(cfg, Built(t), w)
    ensures OnCourse(After(cfg, Built(t), w), w) && !After(cfg, Built(t), w).other
    decreases |w|
  {
    if w != [] {
      var v, e := w[..|w| - 1], w[|w| - 1];
      CourseRuns(cfg, t, v);
      var c := After(cfg, Built(t), v);
      assert Enabled(cfg, c, e);
      CourseStep(cfg, c, v, e);
      Unfolds(cfg, c, [e]);
      RunSplits(cfg, Built(t), v, [e]);
      assert v + [e] == w;
    }
  }

  /**
   Over every run the connection's own events come in one of these orders, and every one of these
   orders is a run: an accept or a read that fails and a handler that throws are the end of it, and a
   response is started only after a read that went well.
  */
  lemma CoursesAreExact(cfg: Config, t: nat, es: seq<Event>)
    ensures IsRun(cfg, Built(t), es) ==> IsCourse(Steps(es))
    ensures IsCourse(es) ==> IsRun(cfg, Built(t), es)
  {
    if IsRun(cfg, Built(t), es) {
      CourseFrom(cfg, Built(t), [], es);
      assert [] + Steps(es) == Steps(es);
    }
    if IsCourse(es) { CourseRuns(cfg, t, es); }
  }

  /** A run passes through the states after its prefixes. */
  lemma {:induction false} RunPasses(cfg: Config, c: Life, es: seq<Event>, k: nat)
    requires IsRun(cfg, c, es) && k <= |es|
    ensures IsRun(cfg, c, es[..k]) && IsRun(cfg, After(cfg, c, es[..k]), es[k..])
    ensures After(cfg, c, es) == After(cfg, After(cfg, c, es[..k]), es[k..])
    decreases k
  {
    if k == 0 {
      assert es[..0] == [] && es[0..] == es;
    } else {
      RunPasses(cfg, Apply(cfg, c, es[0]), es[1..], k - 1);
      assert es[..k][1..] == es[1..][..k - 1] && es[1..][k - 1..] == es[k..];
      Unfolds(cfg, c, es[..k]);
    }
  }

  predicate IsEnd(e: Event) { e.AcceptFailed? || e.ReadFailed? || e == HandleEnd(Escaped) }

  lemma {:induction false} GoneStays(cfg: Config, c: Life, es: seq<Event>)
    requires Inv(cfg, c) && c.stage.Gone? && IsRun(cfg, c, es)
    ensures forall j | 0 <= j < |es| ::
              !IsStep(es[j]) && !es[j].WriteDone? && (!cfg.armAtStart ==> !es[j].Expire? && !es[j].RunWait?)
    ensures After(cfg, c, es).stage.Gone?
    decreases |es|
  {
    if es != [] {
      InvStep(cfg, c, es[0]);
      GoneStays(cfg, Apply(cfg, c, es[0]), es[1..]);
    }
  }

  /**
   After a failed accept, a failed read or a handler that threw, no run has a response started or
   completed, and as written nothing is ever armed and no timer closes anything, before it or after.
  */
  lemma NothingFollowsTheEnd(cfg: Config, t: nat, es: seq<Event>, i: nat)
    requires IsRun(cfg, Built(t), es) && i < |es| && IsEnd(es[i])
    ensures forall j | i < j < |es| ::
              !IsStep(es[j]) && !es[j].WriteDone? && (!cfg.armAtStart ==> !es[j].Expire? && !es[j].RunWait?)
    ensures var c := After(cfg, Built(t), es);
            c.writes == 0 && (!cfg.armAtStart ==> c.armedAt.None? && c.closedAt.None?)
  {
    RunPasses(cfg, Built(t), es, i);
    var c := After(cfg, Built(t), es[..i]);
    assert es[i..][1..] == es[i + 1..];
    InvRun(cfg, Built(t), es[..i]);
    InvStep(cfg, c, es[i]);
    GoneStays(cfg, Apply(cfg, c, es[i]), es[i + 1..]);
    InvRun(cfg, Built(t), es);
    forall j | i < j < |es|
      ensures !IsStep(es[j]) && !es[j].WriteDone? && (!cfg.armAtStart ==> !es[j].Expire? && !es[j].RunWait?)
    {
      assert es[j] == es[i + 1..][j - i - 1];
    }
  }

  lemma {:induction false} Causes(cfg: Config, c: Life, es: seq<Event>)
    requires IsRun(cfg, c, es)
    ensures var r := After(cfg, c, es);
            && (r.stage.Handling? ==> c.stage.Handling? || ReadArrived in es)
            && (r.write.InFlight? ==> c.write.InFlight? || exists n :: HandleEnd(Writes(n)) in es)
            && (r.wait.Armed? ==> c.wait.Armed? || (if cfg.armAtStart then Accepted else Arm) in es)
            && (r.wait.Fired? ==> c.wait.Fired? || Expire in es)
    decreases |es|
  {
    if es != [] { Causes(cfg, Apply(cfg, c, es[0]), es[1..]); }
  }

  /**
   Over every run: a handler returns only after the request was read, a write completes only after a
   handler started it, a deadline expires only after it was armed, and closes only after it expired.
  */
  lemma CausesComeFirst(cfg: Config, t: nat, es: seq<Event>, j: nat)
    requires IsRun(cfg, Built(t), es) && j < |es|
    ensures es[j].HandleEnd? ==> ReadArrived in es[..j]
    ensures es[j].WriteDone? ==> exists n :: HandleEnd(Writes(n)) in es[..j]
    ensures es[j].Expire? ==> (if cfg.armAtStart then Accepted else Arm) in es[..j]
    ensures es[j].RunWait? ==> Expire in es[..j]
  {
    RunPasses(cfg, Built(t), es, j);
    Causes(cfg, Built(t), es[..j]);
  }

  // ---------------------------------------------------------------- the deadline

  /**
   The deadline closes a connection at the latest of its arming, its expiry and the moment the
   thread came free: no earlier in any run, no later under prompt dispatch. Once that moment has
   passed with the thread free, an armed deadline has either closed the connection then or been
   cancelled by a write completed by then.
  */
  lemma CloseTime(cfg: Config, t: nat, es: seq<Event>)
    requires IsRun(cfg, Built(t), es)
    ensures var c := After(cfg, Built(t), es);
            && (c.closedAt.Some? ==> c.armedAt.Some? && c.closedAt.value >= Strikes(cfg, c))
            && (cfg.prompt && c.closedAt.Some? ==> c.closedAt == Some(Strikes(cfg, c)))
            && (cfg.prompt && c.armedAt.Some? && !Busy(cfg, c) && c.now > Strikes(cfg, c) ==>
                  c.closedAt == Some(Strikes(cfg, c)) ||
                  (c.closedAt.None? && c.writtenAt.Some? && c.writtenAt.value <= Strikes(cfg, c)))
            && (!cfg.armAtStart && c.armedAt.Some? ==> Due(cfg, c) == Max(c.armedAt.value, t + 60_000))
            && (cfg.armAtStart && c.acceptedAt.Some? ==> Due(cfg, c) == c.acceptedAt.value + 60_000)
  {
    InvRun(cfg, Built(t), es);
  }

  predicate NoOthers(es: seq<Event>) {
    forall i | 0 <= i < |es| :: !es[i].OtherStarts?
  }

  /** With no other connection on the thread, it last came free when this one's read handler ended. */
  predicate AloneInv(cfg: Config, c: Life) {
    && !c.other
    && (c.endedAt.None? ==> c.freeSince == c.builtAt)
    && (c.endedAt.Some? && !Decided(c) ==> c.freeSince == c.endedAt.value)
    && (c.closedAt.Some? ==>
          Strikes(cfg, c) == if c.endedAt.Some? && c.endedAt.value <= c.closedAt.value
                             then Max(Due(cfg, c), c.endedAt.value) else Due(cfg, c))
  }

  lemma AloneStep(cfg: Config, c: Life, e: Event)
    requires cfg.oneThread && cfg.prompt && Inv(cfg, c) && AloneInv(cfg, c) && Enabled(cfg, c, e) && !e.OtherStarts?
    ensures AloneInv(cfg, Apply(cfg, c, e))
  {
  }

  lemma {:induction false} AloneRun(cfg: Config, c: Life, es: seq<Event>)
    requires cfg.oneThread && cfg.prompt && Inv(cfg, c) && AloneInv(cfg, c) && IsRun(cfg, c, es) && NoOthers(es)
    ensures AloneInv(cfg, After(cfg, c, es))
    decreases |es|
  {
    if es != [] {
      InvStep(cfg, c, es[0]);
      AloneStep(cfg, c, es[0]);
      AloneRun(cfg, Apply(cfg, c, es[0]), es[1..]);
    }
  }

  /**
   The same law for a connection alone on its thread: it is closed at the latest of the arming, the
   expiry and the end of its read handler, where a handler that had not ended by then does not count.
  */
  lemma CloseTimeAlone(cfg: Config, t: nat, es: seq<Event>)
    requires cfg.oneThread && cfg.prompt && IsRun(cfg, Built(t), es) && NoOthers(es)
    ensures var c := After(cfg, Built(t), es);
            c.closedAt.Some? ==>
              c.closedAt.value == if c.endedAt.Some? && c.endedAt.value <= c.closedAt.value
                                  then Max(Due(cfg, c), c.endedAt.value) else Due(cfg, c)
  {
    InvRun(cfg, Built(t), es);
    AloneRun(cfg, Built(t), es);
  }

  /** An accept that took over 60 seconds arms a deadline that has already expired. */
  lemma IdleAcceptArmsExpiredDeadline(cfg: Config, t: nat, es: seq<Event>)
    requires !cfg.armAtStart && IsRun(cfg, Built(t), es)
    requires var c := After(cfg, Built(t), es);
             c.armedAt.Some? && c.acceptedAt.Some? && c.acceptedAt.value >= t + LIMIT
    ensures Due(cfg, After(cfg, Built(t), es)) == After(cfg, Built(t), es).armedAt.value
  {
    InvRun(cfg, Built(t), es);
  }

  /** No deadline covers the read: as written, a connection still reading can go on for any length of time. */
  lemma ReadHasNoDeadline(cfg: Config, t: nat, es: seq<Event>, d: nat)
    requires !cfg.armAtStart && IsRun(cfg, Built(t), es) && After(cfg, Built(t), es).stage.Reading? && d > 0
    ensures var c := After(cfg, Built(t), es);
            && Enabled(cfg, c, Tick(d)) && !Enabled(cfg, c, Expire)
            && Apply(cfg, c, Tick(d)).stage.Reading? && Apply(cfg, c, Tick(d)).closedAt.None?
  {
    InvRun(cfg, Built(t), es);
  }

  // ---------------------------------------------------------------- the repairs

  /**
   Armed at `Start`, the deadline covers the read: under prompt dispatch a connection is closed at
   accept + 60 s or when the thread comes free after that, unless a write completes first. In
   particular one still reading on a free thread is never older than that.
  */
  lemma RepairedDeadlineCoversTheRead(cfg: Config, t: nat, es: seq<Event>)
    requires cfg.armAtStart && cfg.prompt && IsRun(cfg, Built(t), es)
    requires After(cfg, Built(t), es).acceptedAt.Some?
    ensures var c := After(cfg, Built(t), es);
            var strikes := Max(c.acceptedAt.value + 60_000, c.freeSince);
            && (c.closedAt.Some? ==> c.closedAt.value == strikes)
            && (!Busy(cfg, c) && c.now > strikes ==>
                  c.closedAt.Some? || (c.writtenAt.Some? && c.writtenAt.value <= strikes))
            && (c.stage.Reading? && !Busy(cfg, c) && c.closedAt.None? ==> c.now <= strikes)
  {
    InvRun(cfg, Built(t), es);
  }

  /**
   Armed at `Start` and with a second thread to dispatch it, the deadline bounds the handler too, at
   accept + 60 s exactly.
  */
  lemma BothRepairsBoundTheHandler(cfg: Config, t: nat, es: seq<Event>)
    requires cfg.armAtStart && cfg.prompt && !cfg.oneThread && IsRun(cfg, Built(t), es)
    requires After(cfg, Built(t), es).acceptedAt.Some?
    ensures var c := After(cfg, Built(t), es);
            && (c.closedAt.Some? ==> c.closedAt.value == c.acceptedAt.value + 60_000)
            && (c.now > c.acceptedAt.value + LIMIT ==>
                  c.closedAt.Some? || (c.writtenAt.Some? && c.writtenAt.value <= c.acceptedAt.value + LIMIT))
  {
    InvRun(cfg, Built(t), es);
  }

  predicate NeverEnds(es: seq<Event>) {
    forall i | 0 <= i < |es| :: !es[i].HandleEnd?
  }

  lemma {:induction false} HandlerKeepsTheThread(cfg: Config, c: Life, es: seq<Event>)
    requires cfg.oneThread && Inv(cfg, c) && c.stage.Handling? && IsRun(cfg, c, es) && NeverEnds(es)
    ensures var r := After(cfg, c, es);
            r.stage.Handling? && r.wait == c.wait && r.closedAt == c.closedAt && r.writes == c.writes
    decreases |es|
  {
    if es != [] {
      InvStep(cfg, c, es[0]);
      HandlerKeepsTheThread(cfg, Apply(cfg, c, es[0]), es[1..]);
    }
  }

  /**
   On the context's only thread neither version bounds a handler that does not come back, such as
   one asleep in a pool: armed or not, the deadline is not seen, nothing closes the connection in any
   continuation, and the clock can go on by any amount.
  */
  lemma BlockedHandlerIsNeverClosed(cfg: Config, t: nat, es: seq<Event>, es': seq<Event>, d: nat)
    requires cfg.oneThread && IsRun(cfg, Built(t), es) && d > 0
    requires var c := After(cfg, Built(t), es);
             c.stage.Handling? && c.closedAt.None? && IsRun(cfg, c, es') && NeverEnds(es')
    ensures var r := After(cfg, After(cfg, Built(t), es), es');
            r.stage.Handling? && r.closedAt.None? && Enabled(cfg, r, Tick(d)) && !Enabled(cfg, r, RunWait)
  {
    InvRun(cfg, Built(t), es);
    HandlerKeepsTheThread(cfg, After(cfg, Built(t), es), es');
  }

  /** The handler returns after the deadline, and the timer gets in before the write's completion. */
  lemma LateReturnCloses(cfg: Config, c: Life)
    requires cfg == Config(true, true, true) && c.stage.Handling? && c.wait.Armed? && !c.other
    requires c.now >= Expiry(cfg, c)
    ensures var es := [HandleEnd(Writes(200)), Arm, Expire, RunWait];
            IsRun(cfg, c, es) && After(cfg, c, es).closedAt == Some(c.now)
  {
    var c2 := Apply(cfg, c, HandleEnd(Writes(200)));
    var c3 := Apply(cfg, c2, Arm);
    var c4 := Apply(cfg, c3, Expire);
    Unfolds(cfg, c4, [RunWait]);
    Unfolds(cfg, c3, [Expire, RunWait]);
    Unfolds(cfg, c2, [Arm, Expire, RunWait]);
    Unfolds(cfg, c, [HandleEnd(Writes(200)), Arm, Expire, RunWait]);
  }

  /**
   Repaired, a handler that takes longer than the limit is found out when it returns: `d` after the
   accept, not 60 s.
  */
  lemma RepairedCloseAfterSlowHandler(t: nat, d: nat)
    requires d >= LIMIT
    ensures var cfg := Config(true, true, true);
            var es := [Accepted, ReadArrived] + [Tick(d), HandleEnd(Writes(200)), Arm, Expire, RunWait];
            IsRun(cfg, Built(t), es) && After(cfg, Built(t), es).closedAt == Some(t + d)
  {
    var cfg := Config(true, true, true);
    var es := [Tick(d), HandleEnd(Writes(200)), Arm, Expire, RunWait];
    ArrivalRuns(cfg, t);
    var c0 := After(cfg, Built(t), [Accepted, ReadArrived]);
    LateReturnCloses(cfg, Apply(cfg, c0, Tick(d)));
    Unfolds(cfg, c0, es);
    RunSplits(cfg, Built(t), [Accepted, ReadArrived], es);
  }
}
