/**
 HttpConnection and LogicSystem: routing, the five handlers, and the response of one request, run
 with nobody in between. The RPC services are abstract: a call's `Env` says how it answers.
*/
module Server {
  import opened Wrappers
  import opened PoolMonitor
  import opened UserTable
  import opened MysqlDaos
  import opened RedisMgrs
  import opened Handlers

  datatype Verb = GetVerb | PostVerb | OtherVerb

  /** What is appended to the response body. */
  datatype Chunk = TestText | NotFoundText | Json(answer: Answer)

  /** How a handler or a routed request ends; `Waiting` is asleep in a pool. */
  datatype Handling = Waiting | Unrouted | Handled | Raised

  /** How the request ends: no response at all, or a write started with this status. */
  datatype ReqEnd = Waits | NoWrite | Escaped | Writes(status: nat)

  const GET_TARGETS: set<string> := {"/get_test"}

  const POST_TARGETS: map<string, Route> := map[
    "/get_varifycode_register" := CodeForRegister,
    "/get_varifycode_reset" := CodeForReset,
    "/user_register" := Register,
    "/user_reset_password" := Reset,
    "/user_login" := Login
  ]

  /** The surroundings as the calls of a handler see them: a closed pool overrides everything else. */
  function SeenEnvs(route: Route, redisStop: bool, mysqlStop: bool, envs: seq<Env>): (r: seq<Env>)
    requires |envs| >= 3
    ensures |r| == 3
  {
    [ envs[0].(fault := Seen(if route.Register? || route.Reset? then redisStop else mysqlStop, envs[0].fault)),
      envs[1].(fault := Seen(mysqlStop, envs[1].fault)),
      envs[2].(fault := Seen(mysqlStop, envs[2].fault)) ]
  }

  /** A getter on this pool comes back without waiting. */
  predicate Flows(queue: seq<Option<Conn>>, stop: bool) { stop || queue != [] }

  /** The stored code as the handler's read answers it. */
  function CodeRead(store: map<string, string>, email: string, redisStop: bool, fails: bool): Option<string> {
    if redisStop || fails then None else StoredCode(store, email)
  }

  /** Which requests wait in a pool: those whose next call needs a pool that does not flow. */
  predicate WouldWait(route: Route, body: Body, redisFlows: bool, mysqlFlows: bool, codeRead: Option<string>) {
    && body.Fields?
    && if route.Register? || route.Reset? then !redisFlows || (codeRead == Some(body.form.code) && !mysqlFlows)
       else !mysqlFlows
  }

  // ---------------------------------------------------------------- what each target promises

  /** The number a client finds in `error_code`. */
  function Sent(a: Answer): int {
    if a.Replied? then Wire(a.code) else 0
  }

  /** What registration promises when no call fails. */
  predicate Registration(before: seq<Row>, stored: Option<string>, f: Form, uid: int, a: Answer, after: seq<Row>) {
    && (Sent(a) == 1004 <==> stored.None?)
    && (Sent(a) == 1005 <==> stored.Some? && stored.value != f.code)
    && (Sent(a) == 1006 <==> stored == Some(f.code) && Occurs(before, f.user, f.email))
    && (Sent(a) == 0 <==> stored == Some(f.code) && !Occurs(before, f.user, f.email))
    && after == before + if Sent(a) == 0 then [Row(uid, f.user, f.email, f.passwd)] else []
  }

  /** What a reset promises when no call fails. */
  predicate Resetting(countsMatched: bool, before: seq<Row>, stored: Option<string>, f: Form, a: Answer,
                      after: seq<Row>)
  {
    var counts := exists i | 0 <= i < |before| ::
                    before[i].name == f.user && before[i].email == f.email &&
                    (countsMatched || before[i].pwd != f.passwd);
    && (Sent(a) == 1004 <==> stored.None?)
    && (Sent(a) == 1005 <==> stored.Some? && stored.value != f.code)
    && (Sent(a) == 1007 <==> stored == Some(f.code) && !Occurs(before, f.user, f.email))
    && (Sent(a) == 1008 <==> stored == Some(f.code) && Occurs(before, f.user, f.email) && !counts)
    && (Sent(a) == 0 <==> stored == Some(f.code) && counts)
    && |after| == |before|
    && forall i | 0 <= i < |before| ::
         after[i] == if Sent(a) == 0 && before[i].name == f.user && before[i].email == f.email
                     then Row(before[i].uid, f.user, f.email, f.passwd) else before[i]
  }

  /** What a login promises when no call fails. */
  predicate LoggingIn(before: seq<Row>, f: Form, rpcError: bool, a: Answer) {
    var known := exists i | 0 <= i < |before| :: before[i].name == f.user && before[i].pwd == f.passwd;
    && (Sent(a) == 1009 <==> !known)
    && (Sent(a) == 1002 <==> known && rpcError)
    && (Sent(a) == 0 <==> known && !rpcError)
    && (Sent(a) == 0 ==> exists i | 0 <= i < |before| ::
          before[i].name == f.user && before[i].pwd == f.passwd && a == LoggedIn(f.user, Some(before[i].uid)))
  }

  /** The promise made at each literal target for a request whose calls all go well. */
  predicate Promised(target: string, countsMatched: bool, before: seq<Row>, stored: Option<string>, f: Form,
                     envs: seq<Env>, a: Answer, after: seq<Row>)
    requires |envs| >= 3
  {
    && (target == "/user_register" ==> Registration(before, stored, f, envs[1].uid, a, after))
    && (target == "/user_reset_password" ==> Resetting(countsMatched, before, stored, f, a, after))
    && (target == "/user_login" ==> LoggingIn(before, f, envs[1].rpcError, a))
    && (target == "/get_varifycode_register" ==> Sent(a) == if Occurs(before, f.user, f.email) then 1006 else 0)
    && (target == "/get_varifycode_reset" ==>
          Sent(a) == if Matches(before, f.user, f.email) then 0 else 1010)
  }

  /** The promise made at each literal target whatever fails: which requests can touch which rows. */
  predicate Spares(target: string, body: Body, before: seq<Row>, a: Answer, after: seq<Row>) {
    && (target == "/user_register" || |after| == |before|)
    && (target == "/user_register" || target == "/user_reset_password" || after == before)
    && (target == "/user_register" ==> before <= after && |after| <= |before| + 1)
    && (target == "/user_reset_password" && |after| == |before| ==> forall i | 0 <= i < |before| ::
          after[i] == before[i] ||
          (body.Fields? && before[i].name == body.form.user && before[i].email == body.form.email &&
           after[i] == Row(before[i].uid, body.form.user, body.form.email, body.form.passwd)))
    && (body.NotJson? ==> Sent(a) == 1001 && after == before)
  }

  lemma RegistrationKeepsItsPromise(rules: Rules, rows: seq<Row>, codes: map<string, string>, f: Form, envs: seq<Env>)
    requires |envs| >= 3 && Healthy(envs) && FreshUid(rows, envs[1].uid)
    ensures var s := Handle(rules, rows, codes, Request(POST_TARGETS["/user_register"], Fields(f)), envs);
            Registration(rows, StoredCode(codes, f.email), f, envs[1].uid, s.answer, s.rows)
  {
    RegisterClassified(rules, rows, codes, f, envs);
  }

  lemma ResetKeepsItsPromise(rules: Rules, rows: seq<Row>, codes: map<string, string>, f: Form, envs: seq<Env>)
    requires |envs| >= 3 && Healthy(envs)
    ensures var s := Handle(rules, rows, codes, Request(POST_TARGETS["/user_reset_password"], Fields(f)), envs);
            Resetting(rules.countsMatched, rows, StoredCode(codes, f.email), f, s.answer, s.rows)
  {
    ResetClassified(rules, rows, codes, f, envs);
    assert Affects(rules, rows, f.user, f.email, f.passwd) <==>
           exists i | 0 <= i < |rows| ::
             Both(rows[i], f.user, f.email) && (rules.countsMatched || rows[i].pwd != f.passwd);
  }

  lemma LoginKeepsItsPromise(rules: Rules, rows: seq<Row>, codes: map<string, string>, f: Form, envs: seq<Env>)
    requires |envs| >= 3 && Healthy(envs)
    ensures var a := Handle(rules, rows, codes, Request(POST_TARGETS["/user_login"], Fields(f)), envs).answer;
            LoggingIn(rows, f, envs[1].rpcError, a)
  {
    LoginClassified(rules, rows, codes, f, envs);
    LoginPassesUnderFaults(rules, rows, codes, f, envs);
  }

  /** Each target's handler keeps the promise of that target. */
  lemma TargetsKeepTheirPromise(target: string, rules: Rules, rows: seq<Row>, codes: map<string, string>, f: Form,
                                envs: seq<Env>)
    requires target in POST_TARGETS && |envs| >= 3 && Healthy(envs) && FreshUid(rows, envs[1].uid)
    ensures var s := Handle(rules, rows, codes, Request(POST_TARGETS[target], Fields(f)), envs);
            Promised(target, rules.countsMatched, rows, StoredCode(codes, f.email), f, envs, s.answer, s.rows)
  {
    if target == "/user_register" { RegistrationKeepsItsPromise(rules, rows, codes, f, envs); }
    else if target == "/user_reset_password" { ResetKeepsItsPromise(rules, rows, codes, f, envs); }
    else if target == "/user_login" { LoginKeepsItsPromise(rules, rows, codes, f, envs); }
    else {
      RegisterCodeUnderFaults(rules, rows, codes, f, envs);
      ResetCodeUnderFaults(rules, rows, codes, f, envs);
    }
  }

  lemma TargetsSpare(target: string, rules: Rules, rows: seq<Row>, codes: map<string, string>, body: Body,
                     envs: seq<Env>)
    requires target in POST_TARGETS && |envs| >= 3 && !body.BadFields?
    ensures var s := Handle(rules, rows, codes, Request(POST_TARGETS[target], body), envs);
            Spares(target, body, rows, s.answer, s.rows)
  {
    if body.Fields? {
      var f := body.form;
      if target == "/user_register" {
        AloneUnfolds(rules, rows, codes, ReadCode(Register, f), envs);
        AloneUnfolds(rules, rows, codes, Insert(f), envs[1..]);
      } else if target == "/user_reset_password" {
        ResetUnfolds(rules, rows, codes, f, envs);
      } else if target == "/user_login" {
        LoginPassesUnderFaults(rules, rows, codes, f, envs);
      } else {
        RegisterCodeUnderFaults(rules, rows, codes, f, envs);
        ResetCodeUnderFaults(rules, rows, codes, f, envs);
      }
    }
  }

  /** The two promises of a target, seen from a request's own surroundings. */
  lemma KeepsPromise(rules: Rules, rows: seq<Row>, codes: map<string, string>, target: string, body: Body,
                     redisStop: bool, mysqlStop: bool, envs: seq<Env>)
    requires target in POST_TARGETS && |envs| >= 3 && !body.BadFields?
    ensures var route := POST_TARGETS[target];
            var s := Handle(rules, rows, codes, Request(route, body), SeenEnvs(route, redisStop, mysqlStop, envs));
            && Spares(target, body, rows, s.answer, s.rows)
            && (body.Fields? && Healthy(envs) && FreshUid(rows, envs[1].uid) && !redisStop && !mysqlStop ==>
                  Promised(target, rules.countsMatched, rows, StoredCode(codes, body.form.email), body.form, envs,
                           s.answer, s.rows))
  {
    var seen := SeenEnvs(POST_TARGETS[target], redisStop, mysqlStop, envs);
    TargetsSpare(target, rules, rows, codes, body, seen);
    if body.Fields? && Healthy(envs) && FreshUid(rows, envs[1].uid) && !redisStop && !mysqlStop {
      TargetsKeepTheirPromise(target, rules, rows, codes, body.form, seen);
    }
  }

  function EmailOf(body: Body): string {
    if body.Fields? then body.form.email else ""
  }

  predicate Usual(envs: seq<Env>) {
    |envs| >= 3 && forall i | 0 <= i < |envs| :: !envs[i].fault.PoolClosed?
  }

  function Said(a: Answer): seq<Chunk> {
    if a.Threw? then [] else [Json(a)]
  }

  class HttpConnection {
    const verb: Verb
    const target: string
    const body: Body
    var out: seq<Chunk>
    var status: nat
    var contentType: string
    var writes: nat

    constructor (verb: Verb, target: string, body: Body)
      ensures this.verb == verb && this.target == target && this.body == body
      ensures out == [] && status == 200 && writes == 0
    {
      this.verb, this.target, this.body := verb, target, body;
      out, status, contentType, writes := [], 200, "", 0;
    }

    method WriteResponse()
      modifies this`writes
      ensures writes == old(writes) + 1
    {
      writes := writes + 1;
    }

    /**
     A GET or POST whose handler comes back starts exactly one write: 404 with the not-found text
     exactly when its target is unregistered, otherwise 200. One whose handler throws, and any other
     method, starts none.
    */
    method HandleReq(logic: LogicSystem, envs: seq<Env>) returns (r: ReqEnd)
      requires logic.Ready() && Usual(envs)
      modifies this, logic.dao.pool`queue, logic.redis.pool`queue, logic.dao.db
      ensures logic.Ready()
      ensures writes == old(writes) + if r.Writes? then 1 else 0
      ensures verb.OtherVerb? <==> r == NoWrite
      ensures verb.GetVerb? ==> r == Writes(if target == "/get_test" then 200 else 404)
      ensures verb.PostVerb? ==> (r == Writes(404) <==>
                target != "/get_varifycode_register" && target != "/get_varifycode_reset" &&
                target != "/user_register" && target != "/user_reset_password" && target != "/user_login")
      ensures verb.PostVerb? ==> (r == Writes(404) <==> target !in POST_TARGETS)
      ensures verb.PostVerb? && target in POST_TARGETS ==>
                && (r == Writes(200) || r == Escaped || r == ReqEnd.Waits)
                && (r == Escaped <==> body.BadFields?)
      ensures verb.PostVerb? && target in POST_TARGETS ==>
                (r == ReqEnd.Waits <==>
                 WouldWait(POST_TARGETS[target], body, old(Flows(logic.redis.pool.queue, logic.redis.pool.stop)),
                           old(Flows(logic.dao.pool.queue, logic.dao.pool.stop)),
                           CodeRead(logic.redis.store, EmailOf(body), logic.redis.pool.stop, !envs[0].fault.NoFault?)))
      ensures verb.GetVerb? || r != Writes(200) ==> logic.dao.db.rows == old(logic.dao.db.rows)
      ensures r.Writes? ==> status == r.status
      ensures !r.Writes? ==> out == old(out)
      ensures verb.PostVerb? && r == Writes(200) ==> contentType == "text/json"
      ensures verb.GetVerb? && r == Writes(200) ==> out == old(out) + [TestText]
      ensures r == Writes(404) ==> out == old(out) + [NotFoundText] && contentType == "text/plain"
      ensures verb.PostVerb? && r == Writes(200) ==>
                var s := Handle(logic.dao.AsIs(), old(logic.dao.db.rows), logic.redis.store,
                                Request(POST_TARGETS[target], body),
                                SeenEnvs(POST_TARGETS[target], logic.redis.pool.stop, logic.dao.pool.stop, envs));
                out == old(out) + [Json(s.answer)] && logic.dao.db.rows == s.rows
      ensures verb.PostVerb? && r == Writes(200) ==>
                out[|old(out)|].Json? &&
                var a := out[|old(out)|].answer;
                && Spares(target, body, old(logic.dao.db.rows), a, logic.dao.db.rows)
                && (body.Fields? && Healthy(envs) && FreshUid(old(logic.dao.db.rows), envs[1].uid) &&
                    !logic.dao.pool.stop && !logic.redis.pool.stop ==>
                      Promised(target, logic.dao.countsMatched, old(logic.dao.db.rows),
                               StoredCode(logic.redis.store, body.form.email), body.form, envs, a, logic.dao.db.rows))
    {
      if verb.GetVerb? {
        var success := logic.HandleGet(target, this);
        if !success {
          NotFound();
          return Writes(404);
        }
        status := 200;
        WriteResponse();
        return Writes(200);
      }
      if verb.PostVerb? {
        var h := logic.HandlePost(target, this, envs);
        if h.Waiting? { return ReqEnd.Waits; }
        if h.Raised? { return Escaped; }
        if h.Unrouted? {
          NotFound();
          return Writes(404);
        }
        status := 200;
        WriteResponse();
        KeepsPromise(logic.dao.AsIs(), old(logic.dao.db.rows), logic.redis.store, target, body,
                     logic.redis.pool.stop, logic.dao.pool.stop, envs);
        return Writes(200);
      }
      return NoWrite;
    }

    method NotFound()
      modifies this
      ensures status == 404 && contentType == "text/plain" && out == old(out) + [NotFoundText]
      ensures writes == old(writes) + 1
    {
      status := 404;
      contentType := "text/plain";
      out := out + [NotFoundText];
      WriteResponse();
    }
  }

  class LogicSystem {
    const dao: MysqlDao
    const redis: RedisMgr
    var getHandlers: set<string>
    var postHandlers: map<string, Route>

    ghost predicate Ready()
      reads this, dao.pool, redis.pool
    {
      dao.Open() && redis.Open() && getHandlers == GET_TARGETS && postHandlers == POST_TARGETS
    }

    constructor (dao: MysqlDao, redis: RedisMgr)
      requires dao.Open() && redis.Open()
      ensures Ready() && this.dao == dao && this.redis == redis
    {
      this.dao, this.redis, getHandlers, postHandlers := dao, redis, {}, map[];
      new;
      RegGet("/get_test");
      RegPost("/get_varifycode_register", CodeForRegister);
      RegPost("/get_varifycode_reset", CodeForReset);
      RegPost("/user_register", Register);
      RegPost("/user_reset_password", Reset);
      RegPost("/user_login", Login);
    }

    method RegGet(url: string)
      modifies this`getHandlers
      ensures getHandlers == old(getHandlers) + {url}
    {
      getHandlers := getHandlers + {url};
    }

    /** `insert` keeps the handler a url already has. */
    method RegPost(url: string, handler: Route)
      modifies this`postHandlers
      ensures postHandlers == if url in old(postHandlers) then old(postHandlers) else old(postHandlers)[url := handler]
    {
      if url !in postHandlers {
        postHandlers := postHandlers[url := handler];
      }
    }

    method HandleGet(path: string, con: HttpConnection) returns (found: bool)
      modifies con`out
      ensures found <==> path in getHandlers
      ensures con.out == old(con.out) + if found then [TestText] else []
    {
      if path !in getHandlers {
        return false;
      }
      con.out := con.out + [TestText];
      return true;
    }

    /** What every handler promises: its one answer and the table are those of the handler run alone. */
    ghost predicate Does(route: Route, body: Body, before: seq<Row>, redisFlows: bool, mysqlFlows: bool,
                         envs: seq<Env>, h: Handling, said: seq<Chunk>)
      requires |envs| >= 3
      reads dao.pool, redis.pool, dao.db, redis
    {
      var codeRead := CodeRead(redis.store, EmailOf(body), redis.pool.stop, !envs[0].fault.NoFault?);
      var s := Handle(dao.AsIs(), before, redis.store, Request(route, body),
                      SeenEnvs(route, redis.pool.stop, dao.pool.stop, envs));
      if WouldWait(route, body, redisFlows, mysqlFlows, codeRead) then
        h == Waiting && said == [] && dao.db.rows == before
      else
        h == (if s.answer.Threw? then Raised else Handled) && said == Said(s.answer) && dao.db.rows == s.rows
    }

    method HandlePost(path: string, con: HttpConnection, envs: seq<Env>) returns (h: Handling)
      requires Ready() && Usual(envs)
      modifies con`out, con`contentType, dao.pool`queue, redis.pool`queue, dao.db
      ensures Ready() && (h.Unrouted? <==> path !in POST_TARGETS)
      ensures h.Unrouted? ==> con.out == old(con.out) && dao.db.rows == old(dao.db.rows)
      ensures path in POST_TARGETS ==>
                |con.out| >= |old(con.out)| && con.out[..|old(con.out)|] == old(con.out) &&
                Does(POST_TARGETS[path], con.body, old(dao.db.rows), old(Flows(redis.pool.queue, redis.pool.stop)),
                   old(Flows(dao.pool.queue, dao.pool.stop)), envs, h, con.out[|old(con.out)|..])
      ensures h.Raised? <==> path in POST_TARGETS && con.body.BadFields?
      ensures path in POST_TARGETS ==> con.contentType == "text/json"
    {
      if path !in postHandlers {
        return Unrouted;
      }
      match postHandlers[path]
      case CodeForRegister => h := HandleGetVarifyCodeRegister(con, envs);
      case CodeForReset => h := HandleGetVarifyCodeReset(con, envs);
      case Register => h := HandleUserRegister(con, envs);
      case Reset => h := HandleUserResetPassword(con, envs);
      case Login => h := HandleUserLogin(con, envs);
    }

    method Respond(con: HttpConnection, a: Answer)
      requires !a.Threw?
      modifies con`out
      ensures con.out == old(con.out) + [Json(a)]
    {
      con.out := con.out + [Json(a)];
    }

    /** The opening of every handler; only the parse error is caught and answered. */
    method Parse(con: HttpConnection) returns (form: Option<Form>)
      modifies con`out, con`contentType
      ensures form == if con.body.Fields? then Some(con.body.form) else None
      ensures con.out == old(con.out) + (if con.body.NotJson? then [Json(Replied(ErrorJson))] else [])
      ensures con.contentType == "text/json"
    {
      con.contentType := "text/json";
      if con.body.NotJson? {
        Respond(con, Replied(ErrorJson));
        return None;
      }
      if con.body.BadFields? { return None; }
      return Some(con.body.form);
    }

    method HandleGetVarifyCodeRegister(con: HttpConnection, envs: seq<Env>) returns (h: Handling)
      requires Ready() && Usual(envs)
      modifies con`out, con`contentType, dao.pool`queue, redis.pool`queue, dao.db
      ensures Ready() && !h.Unrouted? && (h.Raised? <==> con.body.BadFields?)
      ensures old(con.out) <= con.out
      ensures con.contentType == "text/json" && redis.pool.queue == old(redis.pool.queue)
      ensures |dao.pool.queue| == |old(dao.pool.queue)|
      ensures Does(CodeForRegister, con.body, old(dao.db.rows), old(Flows(redis.pool.queue, redis.pool.stop)),
                   old(Flows(dao.pool.queue, dao.pool.stop)), envs, h, con.out[|old(con.out)|..])
    {
      var form := Parse(con);
      if form.None? { return if con.body.NotJson? then Handled else Raised; }
      var f := form.value;
      ghost var rules, seen := dao.AsIs(), SeenEnvs(CodeForRegister, redis.pool.stop, dao.pool.stop, envs);
      AloneUnfolds(rules, dao.db.rows, redis.store, CheckFree(f), seen);
      var free := dao.CheckUserExist(f.user, f.email, envs[0].fault);
      if free.Stuck? { return Waiting; }
      if !free.value {
        Respond(con, Replied(ErrorUserExist));
        return Handled;
      }
      AloneUnfolds(rules, dao.db.rows, redis.store, AskCode(f), seen[1..]);
      Respond(con, Replied(Success));
      return Handled;
    }

    /** Each request that matches nobody costs the open pool one connection. */
    method HandleGetVarifyCodeReset(con: HttpConnection, envs: seq<Env>) returns (h: Handling)
      requires Ready() && Usual(envs)
      modifies con`out, con`contentType, dao.pool`queue, redis.pool`queue, dao.db
      ensures Ready() && !h.Unrouted? && (h.Raised? <==> con.body.BadFields?)
      ensures old(con.out) <= con.out
      ensures con.contentType == "text/json" && redis.pool.queue == old(redis.pool.queue)
      ensures |dao.pool.queue| == |old(dao.pool.queue)| -
                if con.body.Fields? && !dao.pool.stop && old(dao.pool.queue) != [] &&
                   !CheckUserEmailMatchResult(dao.AsIs(), dao.db.rows, con.body.form.user, con.body.form.email,
                                              envs[0].fault)
                then 1 else 0
      ensures Does(CodeForReset, con.body, old(dao.db.rows), old(Flows(redis.pool.queue, redis.pool.stop)),
                   old(Flows(dao.pool.queue, dao.pool.stop)), envs, h, con.out[|old(con.out)|..])
    {
      var form := Parse(con);
      if form.None? { return if con.body.NotJson? then Handled else Raised; }
      var f := form.value;
      ghost var rules, seen := dao.AsIs(), SeenEnvs(CodeForReset, redis.pool.stop, dao.pool.stop, envs);
      AloneUnfolds(rules, dao.db.rows, redis.store, CheckMatch(f), seen);
      var matches := dao.CheckUserEmailMatch(f.user, f.email, envs[0].fault);
      if matches.Stuck? { return Waiting; }
      if !matches.value {
        Respond(con, Replied(ErrorUserEmailNotMatch));
        return Handled;
      }
      AloneUnfolds(rules, dao.db.rows, redis.store, AskCode(f), seen[1..]);
      Respond(con, Replied(Success));
      return Handled;
    }

    /** The stored code read and compared: how registration and reset both begin. */
    method CheckCode(con: HttpConnection, f: Form, fails: bool) returns (r: Reply<bool>)
      requires Ready()
      modifies con`out, redis.pool`queue
      ensures Ready()
      ensures r.Stuck? <==> !old(Flows(redis.pool.queue, redis.pool.stop))
      ensures |redis.pool.queue| == |old(redis.pool.queue)|
      ensures var stored := CodeRead(redis.store, f.email, redis.pool.stop, fails);
              if r.Stuck? then con.out == old(con.out)
              else (r.value <==> stored == Some(f.code)) &&
                   con.out == old(con.out) + if r.value then [] else
                     [Json(Replied(if stored.None? then VarifyCodeExpired else VarifyCodeNotEqual))]
    {
      var varifyCode := redis.Lookup(REDIS_EMAIL_CODE_PREFIX + f.email, fails);
      if varifyCode.Stuck? { return Stuck; }
      if varifyCode.value.None? {
        Respond(con, Replied(VarifyCodeExpired));
        return Returned(false);
      }
      if varifyCode.value.value != f.code {
        Respond(con, Replied(VarifyCodeNotEqual));
        return Returned(false);
      }
      return Returned(true);
    }

    /** A reset past its code: the existence check and the update. */
    method FinishReset(con: HttpConnection, f: Form, check: Fault, e: Env) returns (h: Handling)
      requires Ready() && !check.PoolClosed? && !e.fault.PoolClosed?
      modifies con`out, dao.pool`queue, dao.db
      ensures Ready() && (h.Waiting? <==> !old(Flows(dao.pool.queue, dao.pool.stop)))
      ensures |dao.pool.queue| == |old(dao.pool.queue)|
      ensures var before := old(dao.db.rows);
              if h.Waiting? then con.out == old(con.out) && dao.db.rows == before
              else if CheckUserExistResult(dao.AsIs(), before, f.user, f.email, Seen(dao.pool.stop, check)) then
                h == Handled && con.out == old(con.out) + [Json(Replied(ErrorUserNotExist))] && dao.db.rows == before
              else
                var x := Updates(dao.AsIs(), before, f, e.(fault := Seen(dao.pool.stop, e.fault)));
                h == Handled && con.out == old(con.out) + [Json(x.pc.answer)] && dao.db.rows == x.rows
    {
      var nobody := dao.CheckUserExist(f.user, f.email, check);
      if nobody.Stuck? { return Waiting; }
      if nobody.value {
        Respond(con, Replied(ErrorUserNotExist));
        return Handled;
      }
      var updated := dao.UpdatePassword(f.user, f.email, f.passwd, e.fault);
      if updated.Stuck? { return Waiting; }
      if updated.value {
        Respond(con, Replied(Success));
      } else {
        Respond(con, Replied(ErrorUpdatePassword));
      }
      return Handled;
    }

    /** A registration past its code: the call of the stored procedure. */
    method FinishRegister(con: HttpConnection, f: Form, e: Env) returns (h: Handling)
      requires Ready() && !e.fault.PoolClosed?
      modifies con`out, dao.pool`queue, dao.db
      ensures Ready() && (h.Waiting? <==> !old(Flows(dao.pool.queue, dao.pool.stop)))
      ensures |dao.pool.queue| == |old(dao.pool.queue)|
      ensures var before := old(dao.db.rows);
              if h.Waiting? then con.out == old(con.out) && dao.db.rows == before
              else
                var x := Registers(before, f, e.(fault := Seen(dao.pool.stop, e.fault)));
                h == Handled && con.out == old(con.out) + [Json(x.pc.answer)] && dao.db.rows == x.rows
    {
      var uid := dao.RegUser(f.user, f.email, f.passwd, e.fault, e.uid);
      if uid.Stuck? { return Waiting; }
      if uid.value == 0 || uid.value == -1 {
        Respond(con, Replied(ErrorUserExist));
        return Handled;
      }
      Respond(con, Replied(Success));
      return Handled;
    }

    method HandleUserRegister(con: HttpConnection, envs: seq<Env>) returns (h: Handling)
      requires Ready() && Usual(envs)
      modifies con`out, con`contentType, dao.pool`queue, redis.pool`queue, dao.db
      ensures Ready() && !h.Unrouted? && (h.Raised? <==> con.body.BadFields?)
      ensures old(con.out) <= con.out
      ensures con.contentType == "text/json" && |redis.pool.queue| == |old(redis.pool.queue)|
      ensures |dao.pool.queue| == |old(dao.pool.queue)|
      ensures Does(Register, con.body, old(dao.db.rows), old(Flows(redis.pool.queue, redis.pool.stop)),
                   old(Flows(dao.pool.queue, dao.pool.stop)), envs, h, con.out[|old(con.out)|..])
    {
      var form := Parse(con);
      if form.None? { return if con.body.NotJson? then Handled else Raised; }
      var f := form.value;
      ghost var rules, seen := dao.AsIs(), SeenEnvs(Register, redis.pool.stop, dao.pool.stop, envs);
      AloneUnfolds(rules, dao.db.rows, redis.store, ReadCode(Register, f), seen);
      var matched := CheckCode(con, f, !envs[0].fault.NoFault?);
      if matched.Stuck? { return Waiting; }
      if !matched.value { return Handled; }
      AloneUnfolds(rules, dao.db.rows, redis.store, Insert(f), seen[1..]);
      h := FinishRegister(con, f, envs[1]);
    }

    method HandleUserResetPassword(con: HttpConnection, envs: seq<Env>) returns (h: Handling)
      requires Ready() && Usual(envs)
      modifies con`out, con`contentType, dao.pool`queue, redis.pool`queue, dao.db
      ensures Ready() && !h.Unrouted? && (h.Raised? <==> con.body.BadFields?)
      ensures old(con.out) <= con.out
      ensures con.contentType == "text/json" && |redis.pool.queue| == |old(redis.pool.queue)|
      ensures |dao.pool.queue| == |old(dao.pool.queue)|
      ensures Does(Reset, con.body, old(dao.db.rows), old(Flows(redis.pool.queue, redis.pool.stop)),
                   old(Flows(dao.pool.queue, dao.pool.stop)), envs, h, con.out[|old(con.out)|..])
    {
      var form := Parse(con);
      if form.None? { return if con.body.NotJson? then Handled else Raised; }
      var f := form.value;
      ghost var seen := SeenEnvs(Reset, redis.pool.stop, dao.pool.stop, envs);
      ResetUnfolds(dao.AsIs(), dao.db.rows, redis.store, f, seen);
      var matched := CheckCode(con, f, !envs[0].fault.NoFault?);
      if matched.Stuck? { return Waiting; }
      if !matched.value { return Handled; }
      h := FinishReset(con, f, envs[1].fault, envs[2]);
    }

    /** The chat server's reply to a login that passed its check. */
    method AnswerLogin(con: HttpConnection, f: Form, uid: Option<int>, rpcError: bool)
      modifies con`out
      ensures con.out == old(con.out) + [Json(if rpcError then Replied(RPCFailed) else LoggedIn(f.user, uid))]
    {
      if rpcError {
        Respond(con, Replied(RPCFailed));
        return;
      }
      Respond(con, LoggedIn(f.user, uid));
    }

    method HandleUserLogin(con: HttpConnection, envs: seq<Env>) returns (h: Handling)
      requires Ready() && Usual(envs)
      modifies con`out, con`contentType, dao.pool`queue, redis.pool`queue, dao.db
      ensures Ready() && !h.Unrouted? && (h.Raised? <==> con.body.BadFields?)
      ensures old(con.out) <= con.out
      ensures con.contentType == "text/json" && redis.pool.queue == old(redis.pool.queue)
      ensures |dao.pool.queue| == |old(dao.pool.queue)|
      ensures Does(Login, con.body, old(dao.db.rows), old(Flows(redis.pool.queue, redis.pool.stop)),
                   old(Flows(dao.pool.queue, dao.pool.stop)), envs, h, con.out[|old(con.out)|..])
    {
      var form := Parse(con);
      if form.None? { return if con.body.NotJson? then Handled else Raised; }
      var f := form.value;
      ghost var rules, seen := dao.AsIs(), SeenEnvs(Login, redis.pool.stop, dao.pool.stop, envs);
      AloneUnfolds(rules, dao.db.rows, redis.store, CheckPassword(f), seen);
      var login := dao.CheckUserPassword(f.user, f.passwd, envs[0].fault);
      if login.Stuck? { return Waiting; }
      if !login.value.valid {
        Respond(con, Replied(ErrorPasswordNotCorrect));
        return Handled;
      }
      var uid := UidOfRow(login.value.info);
      AloneUnfolds(rules, dao.db.rows, redis.store, AskStatus(f, uid), seen[1..]);
      AnswerLogin(con, f, uid, envs[1].rpcError);
      return Handled;
    }
  }
}
