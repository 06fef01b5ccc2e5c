/**
 The five queries of MysqlDao, as borrowers of the pool and as operations on the user table.
 A call is told how its statement fares; `break Try` is the jump to the catch block.
*/
module MysqlDaos {
  import opened Wrappers
  import opened PoolMonitor
  import opened Pools
  import opened UserTable

  class Database {
    var rows: seq<Row>

    constructor ()
      ensures rows == []
    {
      rows := [];
    }
  }

  /** `Stuck`: the calling thread is asleep in getConnection. */
  datatype Reply<+T> = Stuck | Returned(value: T)

  /** An int returned from a function declared bool. */
  function AsBool(x: int): bool { x != 0 }

  /** With the pool closed no statement runs, so nothing else about it matters. */
  function Seen(stop: bool, f: Fault): Fault {
    if stop then PoolClosed else f
  }

  /** What the settlement of the front connection leaves in an open pool. */
  function Settled(queue: seq<Option<Conn>>, stop: bool, d: Disposition): seq<Option<Conn>> {
    if stop || queue == [] then queue
    else if d.GiveBack? then queue[1..] + [queue[0]]
    else queue[1..]
  }

  /** How the monitor settles what method `m` got from a pool in this state. */
  function DaoSettles(queue: seq<Option<Conn>>, stop: bool, m: DaoMethod, o: Outcome): Disposition {
    Settle(AsWritten(MysqlKind), Dao(m), if stop || queue == [] then None else queue[0], o)
  }

  class MysqlDao {
    const pool: BlockingPool
    const db: Database
    const countsMatched: bool

    ghost predicate Open()
      reads pool
    {
      pool.Sound() && pool.kind.MysqlKind?
    }

    function AsIs(): Rules { Rules(countsMatched, false) }

    constructor (pool: BlockingPool, db: Database, countsMatched: bool)
      ensures this.pool == pool && this.db == db && this.countsMatched == countsMatched
    {
      this.pool, this.db, this.countsMatched := pool, db, countsMatched;
    }

    /** `uid` is the id the procedure would give a new row. */
    method RegUser(name: string, email: string, pwd: string, fault: Fault, uid: int) returns (r: Reply<int>)
      requires Open() && !fault.PoolClosed?
      modifies pool`queue, db
      ensures Open()
      ensures r.Stuck? <==> !pool.stop && old(pool.queue) == []
      ensures r.Returned? ==> r.value == RegUserResult(old(db.rows), name, email, uid, Seen(pool.stop, fault))
      ensures db.rows == if r.Stuck? then old(db.rows)
                         else RegUserRows(old(db.rows), name, email, pwd, uid, Seen(pool.stop, fault))
      ensures pool.queue ==
              Settled(old(pool.queue), pool.stop,
                      DaoSettles(old(pool.queue), pool.stop, DaoMethod.RegUser, Completed))
      ensures pool.queue == if pool.stop || old(pool.queue) == [] then old(pool.queue)
                            else old(pool.queue)[1..] + [old(pool.queue)[0]]
    {
      var g := pool.GetConnection();
      if g.Blocks? { return Stuck; }
      var con := g.con;
      label Try: {
        if con.None? {
          pool.ReturnConnection(con);
          return Returned(0);
        }
        if fault.ThrowBefore? { break Try; }
        var result := CallRegUser(name, email, pwd, fault, uid);
        if fault.ThrowAfter? { break Try; }
        if !fault.NoRow? {
          pool.ReturnConnection(con);
          return Returned(result);
        }
        pool.ReturnConnection(con);
        return Returned(-1);
      }
      pool.ReturnConnection(con);
      return Returned(-1);
    }

    /** The stored procedure, by its assumed contract. */
    method CallRegUser(name: string, email: string, pwd: string, fault: Fault, uid: int) returns (result: int)
      modifies db
      ensures db.rows == if fault.ProcedureError? || Occurs(old(db.rows), name, email) then old(db.rows)
                         else old(db.rows) + [Row(uid, name, email, pwd)]
      ensures result == if fault.ProcedureError? then -1 else if Occurs(old(db.rows), name, email) then 0 else uid
    {
      CountsDecide(db.rows, name, email);
      if fault.ProcedureError? { return -1; }
      if CountEither(db.rows, name, email) != 0 { return 0; }
      db.rows := db.rows + [Row(uid, name, email, pwd)];
      return uid;
    }

    method CheckUserExist(name: string, email: string, fault: Fault) returns (r: Reply<bool>)
      requires Open() && !fault.PoolClosed?
      modifies pool`queue
      ensures Open()
      ensures r.Stuck? <==> !pool.stop && old(pool.queue) == []
      ensures r.Returned? ==> r.value == CheckUserExistResult(AsIs(), db.rows, name, email, Seen(pool.stop, fault))
      ensures pool.queue ==
              Settled(old(pool.queue), pool.stop,
                      DaoSettles(old(pool.queue), pool.stop, DaoMethod.CheckUserExist, Completed))
      ensures pool.queue == if pool.stop || old(pool.queue) == [] then old(pool.queue)
                            else old(pool.queue)[1..] + [old(pool.queue)[0]]
    {
      CountsDecide(db.rows, name, email);
      var g := pool.GetConnection();
      if g.Blocks? { return Stuck; }
      var con := g.con;
      label Try: {
        if con.None? {
          pool.ReturnConnection(con);
          return Returned(false);
        }
        if Throws(fault) { break Try; }
        if !fault.NoRow? {
          var count := CountEither(db.rows, name, email);
          if count != 0 {
            pool.ReturnConnection(con);
            return Returned(false);
          }
        }
        pool.ReturnConnection(con);
        return Returned(true);
      }
      pool.ReturnConnection(con);
      return Returned(AsBool(-1));
    }

    method UpdatePassword(name: string, email: string, newPasswd: string, fault: Fault) returns (r: Reply<bool>)
      requires Open() && !fault.PoolClosed?
      modifies pool`queue, db
      ensures Open()
      ensures r.Stuck? <==> !pool.stop && old(pool.queue) == []
      ensures r.Returned? ==>
                r.value == UpdatePasswordResult(AsIs(), old(db.rows), name, email, newPasswd, Seen(pool.stop, fault))
      ensures db.rows == if r.Stuck? then old(db.rows)
                         else UpdatePasswordRows(old(db.rows), name, email, newPasswd, Seen(pool.stop, fault))
      ensures pool.queue ==
              Settled(old(pool.queue), pool.stop,
                      DaoSettles(old(pool.queue), pool.stop, DaoMethod.UpdatePassword, Completed))
      ensures pool.queue == if pool.stop || old(pool.queue) == [] then old(pool.queue)
                            else old(pool.queue)[1..] + [old(pool.queue)[0]]
    {
      var g := pool.GetConnection();
      if g.Blocks? { return Stuck; }
      var con := g.con;
      label Try: {
        if con.None? {
          pool.ReturnConnection(con);
          return Returned(false);
        }
        if fault.ThrowBefore? { break Try; }
        var count := ExecuteUpdate(name, email, newPasswd);
        if fault.ThrowAfter? { break Try; }
        if count == 0 {
          pool.ReturnConnection(con);
          return Returned(false);
        }
        pool.ReturnConnection(con);
        return Returned(true);
      }
      pool.ReturnConnection(con);
      return Returned(AsBool(-1));
    }

    /** The server's part of the update: row by row, counting as the connection is configured. */
    method ExecuteUpdate(name: string, email: string, pwd: string) returns (count: nat)
      modifies db
      ensures db.rows == SetPassword(old(db.rows), name, email, pwd)
      ensures count != 0 <==> Affects(AsIs(), old(db.rows), name, email, pwd)
    {
      var before := db.rows;
      count := 0;
      for i := 0 to |before|
        invariant |db.rows| == |before|
        invariant forall j | 0 <= j < |before| ::
                    db.rows[j] == if j < i && Both(before[j], name, email) then before[j].(pwd := pwd) else before[j]
        invariant count != 0 <==>
                    exists j | 0 <= j < i :: Both(before[j], name, email) && (countsMatched || before[j].pwd != pwd)
      {
        if Both(before[i], name, email) {
          if countsMatched || before[i].pwd != pwd { count := count + 1; }
          db.rows := db.rows[i := before[i].(pwd := pwd)];
        }
      }
    }

    /** `r.value.info` is what `userInfo` is filled with; None leaves it as the caller declared it. */
    method CheckUserPassword(name: string, passwd: string, fault: Fault) returns (r: Reply<PasswordCheck>)
      requires Open() && !fault.PoolClosed?
      modifies pool`queue
      ensures Open()
      ensures r.Stuck? <==> !pool.stop && old(pool.queue) == []
      ensures r.Returned? ==> r.value == CheckUserPasswordResult(AsIs(), db.rows, name, passwd, Seen(pool.stop, fault))
      ensures pool.queue ==
              Settled(old(pool.queue), pool.stop,
                      DaoSettles(old(pool.queue), pool.stop, DaoMethod.CheckUserPassword, Completed))
      ensures pool.queue == if pool.stop || old(pool.queue) == [] then old(pool.queue)
                            else old(pool.queue)[1..] + [old(pool.queue)[0]]
    {
      var g := pool.GetConnection();
      if g.Blocks? { return Stuck; }
      var con := g.con;
      label Try: {
        if con.None? {
          pool.ReturnConnection(con);
          return Returned(PasswordCheck(false, None));
        }
        if Throws(fault) { break Try; }
        var res := if fault.NoRow? then None else FindLogin(db.rows, name, passwd);
        if res.Some? {
          FindLoginFinds(db.rows, name, passwd);
          var userInfo := Row(res.value.uid, name, res.value.email, passwd);
          pool.ReturnConnection(con);
          return Returned(PasswordCheck(true, Some(userInfo)));
        } else {
          pool.ReturnConnection(con);
          return Returned(PasswordCheck(false, None));
        }
      }
      pool.ReturnConnection(con);
      return Returned(PasswordCheck(AsBool(-1), None));
    }

    /** The two `return false` paths after the query keep the connection: its owner is destroyed with it. */
    method CheckUserEmailMatch(user: string, email: string, fault: Fault) returns (r: Reply<bool>)
      requires Open() && !fault.PoolClosed?
      modifies pool`queue
      ensures Open()
      ensures r.Stuck? <==> !pool.stop && old(pool.queue) == []
      ensures r.Returned? ==> r.value == CheckUserEmailMatchResult(AsIs(), db.rows, user, email, Seen(pool.stop, fault))
      ensures pool.queue ==
              Settled(old(pool.queue), pool.stop,
                      DaoSettles(old(pool.queue), pool.stop, DaoMethod.CheckUserEmailMatch,
                                 if r == Returned(false) then NoMatch else Completed))
      ensures var threw := fault.ThrowBefore? || fault.ThrowAfter?;
              var matched := !fault.NoRow? &&
                             exists i | 0 <= i < |db.rows| :: db.rows[i].name == user && db.rows[i].email == email;
              && (r.Returned? ==> (r.value <==> !pool.stop && (threw || matched)))
              && (!pool.stop && old(pool.queue) != [] ==>
                    pool.queue == old(pool.queue)[1..] + if threw || matched then [old(pool.queue)[0]] else [])
              && (pool.stop || old(pool.queue) == [] ==> pool.queue == old(pool.queue))
    {
      CountsDecide(db.rows, user, email);
      assert Matches(db.rows, user, email) <==> exists i | 0 <= i < |db.rows| :: Both(db.rows[i], user, email);
      var g := pool.GetConnection();
      if g.Blocks? { return Stuck; }
      var con := g.con;
      label Try: {
        if con.None? {
          pool.ReturnConnection(con);
          return Returned(false);
        }
        if Throws(fault) { break Try; }
        if !fault.NoRow? {
          var count := CountBoth(db.rows, user, email);
          if count != 0 {
            pool.ReturnConnection(con);
            return Returned(true);
          } else {
            return Returned(false);
          }
        }
        return Returned(false);
      }
      pool.ReturnConnection(con);
      return Returned(AsBool(-1));
    }
  }
}
