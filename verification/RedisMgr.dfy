/** The eleven command methods of RedisMgr as borrowers that hold raw pointers. */
module RedisMgrs {
  import opened Wrappers
  import opened PoolMonitor
  import opened Pools
  import opened MysqlDaos
  import opened Handlers

  datatype RedisReply =
    | NoReply            // the null pointer redisCommand returns on an I/O error
    | StatusReply(text: string) | ErrorReply(text: string) | StringReply(text: string)
    | IntegerReply(n: int) | NilReply | ArrayReply

  /** How a command method ends. */
  datatype CommandEnd =
    | Waits                        // asleep in getConnection
    | NullUse                      // redisCommand on the null that a closed pool gives
    | NoTextUse                    // std::string from the null `str` of a reply that has no text
    | Ends(ok: bool, text: string) // the result and what was copied to the out parameter

  predicate HasText(reply: RedisReply) {
    reply.StatusReply? || reply.ErrorReply? || reply.StringReply?
  }

  /** The methods that copy `reply->str`. */
  predicate Copies(m: RedisMethod) { m.Get? || m.LPop? || m.RPop? || m.HGet? }

  /** The reply passes the method's own test. */
  predicate Accepts(m: RedisMethod, reply: RedisReply) {
    match m
    case Get => reply.StringReply?
    case Set => reply.StatusReply? && (CStr(reply.text) == "OK" || CStr(reply.text) == "ok")
    case LPush => reply.IntegerReply? && reply.n > 0
    case RPush => reply.IntegerReply? && reply.n > 0
    case LPop => !reply.NoReply? && !reply.NilReply?
    case RPop => !reply.NoReply? && !reply.NilReply?
    case HGet => !reply.NoReply? && !reply.NilReply?
    case HSet => reply.IntegerReply?
    case HSetArgv => reply.IntegerReply?
    case Del => reply.IntegerReply?
    case ExistsKey => reply.IntegerReply? && reply.n != 0
  }

  /** The method's end on a connection that is there. */
  function Ended(m: RedisMethod, reply: RedisReply): CommandEnd {
    if !Accepts(m, reply) then Ends(false, "")
    else if !Copies(m) then Ends(true, "")
    else if HasText(reply) then Ends(true, CStr(reply.text))
    else NoTextUse
  }

  /**
   One call of method `m`: what it comes to on an open pool with a connection in it, on an empty
   one and on a closed one, and where the connection is afterwards. A connection that was borrowed
   is at the back of the queue, once, unless the call came to a reply without text.
  */
  predicate Did(m: RedisMethod, reply: RedisReply, before: seq<Option<Conn>>, stop: bool,
                e: CommandEnd, after: seq<Option<Conn>>)
  {
    if stop then e == (if m.Get? then Ends(false, "") else NullUse) && after == before
    else if before == [] then e == Waits && after == before
    else e == Ended(m, reply) && after == before[1..] + if e.NoTextUse? then [] else [before[0]]
  }

  class RedisMgr {
    const pool: BlockingPool
    var store: map<string, string>

    ghost predicate Open()
      reads pool
    {
      pool.Sound() && pool.kind.RedisKind?
    }

    constructor (pool: BlockingPool, store: map<string, string>)
      ensures this.pool == pool && this.store == store
    {
      this.pool, this.store := pool, store;
    }

    /** The only method that tests the pointer it borrowed. */
    method Get(reply: RedisReply) returns (e: CommandEnd)
      requires Open()
      modifies pool`queue
      ensures Open() && Did(RedisMethod.Get, reply, old(pool.queue), pool.stop, e, pool.queue)
      ensures !pool.stop && old(pool.queue) != [] ==>
                (e.Ends? && e.ok <==> reply.StringReply?)
      ensures e.Ends? && e.ok ==> UpToNul(reply.text, e.text)
    {
      var connection := pool.GetConnection();
      if connection.Blocks? { return Waits; }
      if connection.con.None? { return Ends(false, ""); }
      if reply.NoReply? {
        pool.ReturnConnection(connection.con);
        return Ends(false, "");
      }
      if !reply.StringReply? {
        pool.ReturnConnection(connection.con);
        return Ends(false, "");
      }
      var value := CStr(reply.text);
      CStrIsUpToNul(reply.text, value);
      pool.ReturnConnection(connection.con);
      return Ends(true, value);
    }

    method Set(reply: RedisReply) returns (e: CommandEnd)
      requires Open()
      modifies pool`queue
      ensures Open() && Did(RedisMethod.Set, reply, old(pool.queue), pool.stop, e, pool.queue)
      ensures !pool.stop && old(pool.queue) != [] ==>
                (e.Ends? && e.ok <==> reply.StatusReply? && (UpToNul(reply.text, "OK") || UpToNul(reply.text, "ok")))
    {
      var connection := pool.GetConnection();
      if connection.Blocks? { return Waits; }
      if connection.con.None? { return NullUse; }
      if reply.NoReply? {
        pool.ReturnConnection(connection.con);
        return Ends(false, "");
      }
      if reply.StatusReply? {
        CStrIsUpToNul(reply.text, "OK");
        CStrIsUpToNul(reply.text, "ok");
      }
      if !(reply.StatusReply? && (CStr(reply.text) == "OK" || CStr(reply.text) == "ok")) {
        pool.ReturnConnection(connection.con);
        return Ends(false, "");
      }
      pool.ReturnConnection(connection.con);
      return Ends(true, "");
    }

    method LPush(reply: RedisReply) returns (e: CommandEnd)
      requires Open()
      modifies pool`queue
      ensures Open() && Did(RedisMethod.LPush, reply, old(pool.queue), pool.stop, e, pool.queue)
      ensures !pool.stop && old(pool.queue) != [] ==>
                (e.Ends? && e.ok <==> reply.IntegerReply? && reply.n >= 1)
    {
      var connection := pool.GetConnection();
      if connection.Blocks? { return Waits; }
      if connection.con.None? { return NullUse; }
      if reply.NoReply? {
        pool.ReturnConnection(connection.con);
        return Ends(false, "");
      }
      if !reply.IntegerReply? || reply.n <= 0 {
        pool.ReturnConnection(connection.con);
        return Ends(false, "");
      }
      pool.ReturnConnection(connection.con);
      return Ends(true, "");
    }

    /** Only null and nil are turned away; anything else is copied as text. */
    method LPop(reply: RedisReply) returns (e: CommandEnd)
      requires Open()
      modifies pool`queue
      ensures Open() && Did(RedisMethod.LPop, reply, old(pool.queue), pool.stop, e, pool.queue)
      ensures !pool.stop && old(pool.queue) != [] ==>
                (e.Ends? && e.ok <==> reply.StringReply? || reply.StatusReply? || reply.ErrorReply?)
      ensures !pool.stop && old(pool.queue) != [] ==> (e == NoTextUse <==> reply.IntegerReply? || reply.ArrayReply?)
      ensures e.Ends? && e.ok ==> UpToNul(reply.text, e.text)
    {
      var connection := pool.GetConnection();
      if connection.Blocks? { return Waits; }
      if connection.con.None? { return NullUse; }
      if reply.NoReply? || reply.NilReply? {
        pool.ReturnConnection(connection.con);
        return Ends(false, "");
      }
      if !HasText(reply) { return NoTextUse; }
      var value := CStr(reply.text);
      CStrIsUpToNul(reply.text, value);
      pool.ReturnConnection(connection.con);
      return Ends(true, value);
    }

    method RPush(reply: RedisReply) returns (e: CommandEnd)
      requires Open()
      modifies pool`queue
      ensures Open() && Did(RedisMethod.RPush, reply, old(pool.queue), pool.stop, e, pool.queue)
      ensures !pool.stop && old(pool.queue) != [] ==>
                (e.Ends? && e.ok <==> reply.IntegerReply? && reply.n >= 1)
    {
      var connection := pool.GetConnection();
      if connection.Blocks? { return Waits; }
      if connection.con.None? { return NullUse; }
      if reply.NoReply? {
        pool.ReturnConnection(connection.con);
        return Ends(false, "");
      }
      if !reply.IntegerReply? || reply.n <= 0 {
        pool.ReturnConnection(connection.con);
        return Ends(false, "");
      }
      pool.ReturnConnection(connection.con);
      return Ends(true, "");
    }

    method RPop(reply: RedisReply) returns (e: CommandEnd)
      requires Open()
      modifies pool`queue
      ensures Open() && Did(RedisMethod.RPop, reply, old(pool.queue), pool.stop, e, pool.queue)
      ensures !pool.stop && old(pool.queue) != [] ==>
                (e.Ends? && e.ok <==> reply.StringReply? || reply.StatusReply? || reply.ErrorReply?)
      ensures !pool.stop && old(pool.queue) != [] ==> (e == NoTextUse <==> reply.IntegerReply? || reply.ArrayReply?)
      ensures e.Ends? && e.ok ==> UpToNul(reply.text, e.text)
    {
      var connection := pool.GetConnection();
      if connection.Blocks? { return Waits; }
      if connection.con.None? { return NullUse; }
      if reply.NoReply? || reply.NilReply? {
        pool.ReturnConnection(connection.con);
        return Ends(false, "");
      }
      if !HasText(reply) { return NoTextUse; }
      var value := CStr(reply.text);
      CStrIsUpToNul(reply.text, value);
      pool.ReturnConnection(connection.con);
      return Ends(true, value);
    }

    method HSet(reply: RedisReply) returns (e: CommandEnd)
      requires Open()
      modifies pool`queue
      ensures Open() && Did(RedisMethod.HSet, reply, old(pool.queue), pool.stop, e, pool.queue)
      ensures !pool.stop && old(pool.queue) != [] ==>
                (e.Ends? && e.ok <==> reply.IntegerReply?)
    {
      var connection := pool.GetConnection();
      if connection.Blocks? { return Waits; }
      if connection.con.None? { return NullUse; }
      if reply.NoReply? || !reply.IntegerReply? {
        pool.ReturnConnection(connection.con);
        return Ends(false, "");
      }
      pool.ReturnConnection(connection.con);
      return Ends(true, "");
    }

    /** The overload that takes a length with the value. */
    method HSetArgv(reply: RedisReply) returns (e: CommandEnd)
      requires Open()
      modifies pool`queue
      ensures Open() && Did(RedisMethod.HSetArgv, reply, old(pool.queue), pool.stop, e, pool.queue)
      ensures !pool.stop && old(pool.queue) != [] ==>
                (e.Ends? && e.ok <==> reply.IntegerReply?)
    {
      var connection := pool.GetConnection();
      if connection.Blocks? { return Waits; }
      if connection.con.None? { return NullUse; }
      if reply.NoReply? || !reply.IntegerReply? {
        pool.ReturnConnection(connection.con);
        return Ends(false, "");
      }
      pool.ReturnConnection(connection.con);
      return Ends(true, "");
    }

    method HGet(reply: RedisReply) returns (e: CommandEnd)
      requires Open()
      modifies pool`queue
      ensures Open() && Did(RedisMethod.HGet, reply, old(pool.queue), pool.stop, e, pool.queue)
      ensures !pool.stop && old(pool.queue) != [] ==>
                (e.Ends? && e.ok <==> reply.StringReply? || reply.StatusReply? || reply.ErrorReply?)
      ensures !pool.stop && old(pool.queue) != [] ==> (e == NoTextUse <==> reply.IntegerReply? || reply.ArrayReply?)
      ensures e.Ends? && e.ok ==> UpToNul(reply.text, e.text)
    {
      var connection := pool.GetConnection();
      if connection.Blocks? { return Waits; }
      if connection.con.None? { return NullUse; }
      if reply.NoReply? || reply.NilReply? {
        pool.ReturnConnection(connection.con);
        return Ends(false, "");
      }
      if !HasText(reply) { return NoTextUse; }
      var value := CStr(reply.text);
      CStrIsUpToNul(reply.text, value);
      pool.ReturnConnection(connection.con);
      return Ends(true, value);
    }

    method Del(reply: RedisReply) returns (e: CommandEnd)
      requires Open()
      modifies pool`queue
      ensures Open() && Did(RedisMethod.Del, reply, old(pool.queue), pool.stop, e, pool.queue)
      ensures !pool.stop && old(pool.queue) != [] ==>
                (e.Ends? && e.ok <==> reply.IntegerReply?)
    {
      var connection := pool.GetConnection();
      if connection.Blocks? { return Waits; }
      if connection.con.None? { return NullUse; }
      if reply.NoReply? || !reply.IntegerReply? {
        pool.ReturnConnection(connection.con);
        return Ends(false, "");
      }
      pool.ReturnConnection(connection.con);
      return Ends(true, "");
    }

    method ExistsKey(reply: RedisReply) returns (e: CommandEnd)
      requires Open()
      modifies pool`queue
      ensures Open() && Did(RedisMethod.ExistsKey, reply, old(pool.queue), pool.stop, e, pool.queue)
      ensures !pool.stop && old(pool.queue) != [] ==>
                (e.Ends? && e.ok <==> reply.IntegerReply? && reply.n != 0)
    {
      var connection := pool.GetConnection();
      if connection.Blocks? { return Waits; }
      if connection.con.None? { return NullUse; }
      if reply.NoReply? || !reply.IntegerReply? || reply.n == 0 {
        pool.ReturnConnection(connection.con);
        return Ends(false, "");
      }
      pool.ReturnConnection(connection.con);
      return Ends(true, "");
    }

    /** `get` against the store; `fails` stands for every reply that is not the server's answer. */
    method Lookup(key: string, fails: bool) returns (r: Reply<Option<string>>)
      requires Open()
      modifies pool`queue
      ensures Open()
      ensures r.Stuck? <==> !pool.stop && old(pool.queue) == []
      ensures r.Returned? ==>
                r.value == if pool.stop || fails || CStr(key) !in store then None else Some(CStr(store[CStr(key)]))
      ensures r.Returned? && r.value.Some? ==>
                exists k | k in store :: UpToNul(key, k) && UpToNul(store[k], r.value.value)
      ensures r.Returned? && !pool.stop && !fails ==>
                (r.value.None? <==> forall k | k in store :: !UpToNul(key, k))
      ensures pool.queue == Settled(old(pool.queue), pool.stop, GiveBack)
    {
      var reply := if fails then NoReply
                   else if CStr(key) in store then StringReply(store[CStr(key)]) else NilReply;
      var e := Get(reply);
      forall k { CStrIsUpToNul(key, k); }
      if e.Waits? { return Stuck; }
      return Returned(if e.ok then Some(e.text) else None);
    }
  }

  /**
   What the methods do is what the monitor takes its Redis borrowers to do: they give back what
   they borrowed, leave a null alone, or misuse a pointer, and in no other case than the monitor's.
  */
  lemma CommandsSettleAsMonitor(m: RedisMethod, reply: RedisReply, before: seq<Option<Conn>>, stop: bool,
                                e: CommandEnd, after: seq<Option<Conn>>)
    requires forall i | 0 <= i < |before| :: before[i].Some?
    requires Did(m, reply, before, stop, e, after) && !e.Waits?
    ensures var d := Settle(AsWritten(RedisKind), Redis(m), if stop then None else before[0],
                            if e.NoTextUse? then NoText else Completed);
            && after == Settled(before, stop, d)
            && (d.GiveBack? <==> e.Ends? && !stop)
            && (d.Leave? <==> e.Ends? && stop)
            && (d.Misuse? <==> e.NullUse? || e.NoTextUse?)
  {
  }
}
