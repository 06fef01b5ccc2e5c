/**
 The five POST handlers of LogicSystem as sequences of atomic Redis, SQL and RPC calls. What a
 handler does between two calls touches nothing shared, so it is part of the call before it.
*/
module Handlers {
  import opened Wrappers
  import opened UserTable

  datatype Route = CodeForRegister | CodeForReset | Register | Reset | Login

  datatype Form = Form(email: string, user: string, passwd: string, code: string)

  /** `BadFields` parses, but a field the handler reads is missing or is not a string. */
  datatype Body = NotJson | BadFields | Fields(form: Form)

  datatype Request = Request(route: Route, body: Body)

  datatype ErrorCode =
    | Success | ErrorJson | RPCFailed | PasswordNotEqual | VarifyCodeExpired | VarifyCodeNotEqual
    | ErrorUserExist | ErrorUserNotExist | ErrorUpdatePassword | ErrorPasswordNotCorrect | ErrorUserEmailNotMatch

  /** The number sent as `error_code`. */
  function Wire(c: ErrorCode): int {
    match c
    case Success => 0
    case ErrorJson => 1001
    case RPCFailed => 1002
    case PasswordNotEqual => 1003
    case VarifyCodeExpired => 1004
    case VarifyCodeNotEqual => 1005
    case ErrorUserExist => 1006
    case ErrorUserNotExist => 1007
    case ErrorUpdatePassword => 1008
    case ErrorPasswordNotCorrect => 1009
    case ErrorUserEmailNotMatch => 1010
  }

  /** A client can tell the answers apart by their number. */
  lemma WireDistinguishes(a: ErrorCode, b: ErrorCode)
    ensures Wire(a) == Wire(b) ==> a == b
    ensures Wire(a) == 0 <==> a.Success?
    ensures a.Success? || 1001 <= Wire(a) <= 1010
  {
  }

  datatype Answer =
    | Replied(code: ErrorCode)
    | LoggedIn(user: string, uid: Option<int>) // error_code 0 and the uid; None where it was never set
    | Threw                                    // a JSON type error leaves the handler, nothing is written

  /** The next call a handler will make, or its end. */
  datatype Pc =
    | ReadCode(route: Route, form: Form) // RedisMgr::get
    | Insert(form: Form)                 // RegUser
    | CheckExist(form: Form)             // checkUserExist
    | Update(form: Form)                 // updatePassword
    | CheckPassword(form: Form)          // checkUserPassword
    | AskStatus(form: Form, uid: Option<int>) // GetChatServer
    | CheckFree(form: Form)              // checkUserExist, before a registration code is sent
    | CheckMatch(form: Form)             // checkUserEmailMatch
    | AskCode(form: Form)                // GetVarifyCode
    | Finished(answer: Answer)

  function Start(req: Request): Pc {
    match req.body
    case NotJson => Finished(Replied(ErrorJson))
    case BadFields => Finished(Threw)
    case Fields(form) =>
      match req.route
      case CodeForRegister => CheckFree(form)
      case CodeForReset => CheckMatch(form)
      case Register => ReadCode(Register, form)
      case Reset => ReadCode(Reset, form)
      case Login => CheckPassword(form)
  }

  // ---------------------------------------------------------------- the code store

  /** A string as C sees it: up to the first NUL. Keys and values cross to Redis this way. */
  function CStr(s: string): string {
    if s == "" || s[0] == '\0' then "" else [s[0]] + CStr(s[1..])
  }

  /** `p` is `s` up to its first NUL, or all of `s` if it has none. */
  predicate UpToNul(s: string, p: string) {
    p <= s && '\0' !in p && (p == s || s[|p|] == '\0')
  }

  /** `CStr` cuts at the first NUL and nowhere else. */
  lemma {:induction false} CStrIsUpToNul(s: string, p: string)
    ensures UpToNul(s, p) <==> p == CStr(s)
  {
    if s != "" && s[0] != '\0' {
      if p != "" {
        CStrIsUpToNul(s[1..], p[1..]);
        assert p == [p[0]] + p[1..];
        assert p <= s <==> p[0] == s[0] && p[1..] <= s[1..];
      } else {
        assert CStr(s) != "";
      }
    }
  }

  const REDIS_EMAIL_CODE_PREFIX: string := "code_"

  function Key(email: string): string { CStr(REDIS_EMAIL_CODE_PREFIX + email) }

  /** What RedisMgr::get gives for the email's code when the command goes through. */
  function StoredCode(codes: map<string, string>, email: string): Option<string> {
    if Key(email) in codes then Some(CStr(codes[Key(email)])) else None
  }

  /**
   The code read is the text stored under "code_" and the email, key and text each up to its first
   NUL: all of it where they have none.
  */
  lemma StoredCodeReads(codes: map<string, string>, email: string, code: string)
    ensures StoredCode(codes, email) == Some(code) <==>
              exists key | key in codes :: UpToNul("code_" + email, key) && UpToNul(codes[key], code)
    ensures '\0' !in email && '\0' !in code && "code_" + email in codes && codes["code_" + email] == code ==>
              StoredCode(codes, email) == Some(code)
    ensures '\0' !in email && "code_" + email !in codes ==> StoredCode(codes, email).None?
  {
    var key := "code_" + email;
    CStrIsUpToNul(key, Key(email));
    forall k { CStrIsUpToNul(key, k); }
    if Key(email) in codes { CStrIsUpToNul(codes[Key(email)], code); }
    if '\0' !in email { CStrIsUpToNul(key, key); }
    assert '\0' !in code ==> UpToNul(code, code);
  }

  // ---------------------------------------------------------------- one call

  datatype Write =
    | Registered(uid: int, name: string, email: string, pwd: string)
    | PasswordSet(name: string, email: string, pwd: string)

  /** How the surroundings answer one call: `uid` is the row id a registration would get. */
  datatype Env = Env(fault: Fault, uid: int, rpcError: bool)

  /** One call: where the handler stands after it, the table after it, and the write it made if any. */
  datatype Effect = Effect(pc: Pc, rows: seq<Row>, write: Option<Write>)

  function AfterCode(route: Route, form: Form, stored: Option<string>): Pc {
    if stored.None? then Finished(Replied(VarifyCodeExpired))
    else if stored.value != form.code then Finished(Replied(VarifyCodeNotEqual))
    else if route.Register? then Insert(form)
    else CheckExist(form)
  }

  function Registers(rows: seq<Row>, f: Form, e: Env): Effect {
    var rows' := RegUserRows(rows, f.user, f.email, f.passwd, e.uid, e.fault);
    var r := RegUserResult(rows, f.user, f.email, e.uid, e.fault);
    Effect(
      Finished(Replied(if r == 0 || r == -1 then ErrorUserExist else Success)),
      rows',
      if rows' != rows then Some(Registered(e.uid, f.user, f.email, f.passwd)) else None)
  }

  function Updates(rules: Rules, rows: seq<Row>, f: Form, e: Env): Effect {
    Effect(
      Finished(Replied(if UpdatePasswordResult(rules, rows, f.user, f.email, f.passwd, e.fault)
                       then Success else ErrorUpdatePassword)),
      UpdatePasswordRows(rows, f.user, f.email, f.passwd, e.fault),
      if TakesEffect(e.fault) && Affects(rules, rows, f.user, f.email, f.passwd)
      then Some(PasswordSet(f.user, f.email, f.passwd)) else None)
  }

  function UidOfRow(r: Option<Row>): Option<int> {
    if r.None? then None else Some(r.value.uid)
  }

  /** The calls that change nothing. */
  function Looks(rules: Rules, rows: seq<Row>, codes: map<string, string>, pc: Pc, e: Env): Pc
    requires !pc.Finished? && !pc.Insert? && !pc.Update?
  {
    match pc
    case ReadCode(route, f) => AfterCode(route, f, if e.fault.NoFault? then StoredCode(codes, f.email) else None)
    case CheckExist(f) =>
      if CheckUserExistResult(rules, rows, f.user, f.email, e.fault) then Finished(Replied(ErrorUserNotExist))
      else Update(f)
    case CheckPassword(f) =>
      var login := CheckUserPasswordResult(rules, rows, f.user, f.passwd, e.fault);
      if login.valid then AskStatus(f, UidOfRow(login.info)) else Finished(Replied(ErrorPasswordNotCorrect))
    case AskStatus(f, uid) =>
      Finished(if e.rpcError then Replied(RPCFailed) else LoggedIn(f.user, uid))
    case CheckFree(f) =>
      if CheckUserExistResult(rules, rows, f.user, f.email, e.fault) then AskCode(f)
      else Finished(Replied(ErrorUserExist))
    case CheckMatch(f) =>
      if CheckUserEmailMatchResult(rules, rows, f.user, f.email, e.fault) then AskCode(f)
      else Finished(Replied(ErrorUserEmailNotMatch))
    case AskCode(_) => Finished(Replied(Success)) // rsp.error() is read and not used
  }

  function Progress(rules: Rules, rows: seq<Row>, codes: map<string, string>, pc: Pc, e: Env): Effect
    requires !pc.Finished?
  {
    if pc.Insert? then Registers(rows, pc.form, e)
    else if pc.Update? then Updates(rules, rows, pc.form, e)
    else Effect(Looks(rules, rows, codes, pc, e), rows, None)
  }

  // ---------------------------------------------------------------- one handler by itself

  function Remaining(pc: Pc): nat {
    match pc
    case ReadCode(route, _) => if route.Register? then 2 else 3
    case CheckExist(_) => 2
    case CheckPassword(_) => 2
    case CheckFree(_) => 2
    case CheckMatch(_) => 2
    case Finished(_) => 0
    case _ => 1
  }

  datatype Solo = Solo(answer: Answer, rows: seq<Row>)

  /** The handler run to its end with nobody in between; `envs[i]` answers its i-th call. */
  function Alone(rules: Rules, rows: seq<Row>, codes: map<string, string>, pc: Pc, envs: seq<Env>): Solo
    requires |envs| >= Remaining(pc)
    decreases Remaining(pc)
  {
    if pc.Finished? then Solo(pc.answer, rows)
    else
      var e := Progress(rules, rows, codes, pc, envs[0]);
      Alone(rules, e.rows, codes, e.pc, envs[1..])
  }

  /** The first call of a run, and the first two of a registration or reset that gets past its code. */
  lemma AloneUnfolds(rules: Rules, rows: seq<Row>, codes: map<string, string>, pc: Pc, envs: seq<Env>)
    requires !pc.Finished? && |envs| >= Remaining(pc)
    ensures var e := Progress(rules, rows, codes, pc, envs[0]);
            && Remaining(e.pc) < Remaining(pc)
            && Alone(rules, rows, codes, pc, envs) == Alone(rules, e.rows, codes, e.pc, envs[1..])
  {
  }

  predicate Healthy(envs: seq<Env>) {
    forall i | 0 <= i < |envs| :: envs[i].fault.NoFault?
  }

  function Handle(rules: Rules, rows: seq<Row>, codes: map<string, string>, req: Request, envs: seq<Env>): Solo
    requires |envs| >= 3
  {
    Alone(rules, rows, codes, Start(req), envs)
  }

  /** Registration without faults: each answer exactly when the stored code and the table call for it. */
  lemma RegisterClassified(rules: Rules, rows: seq<Row>, codes: map<string, string>, f: Form, envs: seq<Env>)
    requires |envs| >= 3 && Healthy(envs) && FreshUid(rows, envs[1].uid)
    ensures var s := Handle(rules, rows, codes, Request(Register, Fields(f)), envs);
            var stored := StoredCode(codes, f.email);
            && (s.answer == Replied(VarifyCodeExpired) <==> stored.None?)
            && (s.answer == Replied(VarifyCodeNotEqual) <==> stored.Some? && stored.value != f.code)
            && (s.answer == Replied(ErrorUserExist) <==> stored == Some(f.code) && Occurs(rows, f.user, f.email))
            && (s.answer == Replied(Success) <==> stored == Some(f.code) && !Occurs(rows, f.user, f.email))
            && s.rows == if s.answer == Replied(Success)
                         then rows + [Row(envs[1].uid, f.user, f.email, f.passwd)] else rows
  {
    AloneUnfolds(rules, rows, codes, ReadCode(Register, f), envs);
    if StoredCode(codes, f.email) == Some(f.code) {
      AloneUnfolds(rules, rows, codes, Insert(f), envs[1..]);
      assert envs[1..][0] == envs[1];
    }
  }

  /**
   Registration when calls may fail. A row is inserted in more cases than Success is answered: an
   exception after the call took effect, or a result set without a row, is answered as a user that
   exists beside the row just inserted.
  */
  lemma RegisterUnderFaults(rules: Rules, rows: seq<Row>, codes: map<string, string>, f: Form, envs: seq<Env>)
    requires |envs| >= 3 && FreshUid(rows, envs[1].uid)
    ensures var s := Handle(rules, rows, codes, Request(Register, Fields(f)), envs);
            var matched := envs[0].fault.NoFault? && StoredCode(codes, f.email) == Some(f.code);
            var fault := envs[1].fault;
            var inserted := s.rows == rows + [Row(envs[1].uid, f.user, f.email, f.passwd)];
            && (inserted || s.rows == rows)
            && (s.answer == Replied(Success) <==> matched && fault.NoFault? && !Occurs(rows, f.user, f.email))
            && (inserted <==> matched && !Occurs(rows, f.user, f.email) &&
                              (fault.NoFault? || fault.ThrowAfter? || fault.NoRow?))
            && (inserted && !fault.NoFault? ==> s.answer == Replied(ErrorUserExist))
  {
    AloneUnfolds(rules, rows, codes, ReadCode(Register, f), envs);
    if envs[0].fault.NoFault? && StoredCode(codes, f.email) == Some(f.code) {
      AloneUnfolds(rules, rows, codes, Insert(f), envs[1..]);
      assert envs[1..][0] == envs[1];
    }
  }

  /** The three calls of a reset. */
  lemma ResetUnfolds(rules: Rules, rows: seq<Row>, codes: map<string, string>, f: Form, envs: seq<Env>)
    requires |envs| >= 3
    ensures var s := Handle(rules, rows, codes, Request(Reset, Fields(f)), envs);
            var pc := Looks(rules, rows, codes, ReadCode(Reset, f), envs[0]);
            if pc != CheckExist(f) then pc.Finished? && s == Solo(pc.answer, rows)
            else if CheckUserExistResult(rules, rows, f.user, f.email, envs[1].fault) then
              s == Solo(Replied(ErrorUserNotExist), rows)
            else var e := Updates(rules, rows, f, envs[2]); s == Solo(e.pc.answer, e.rows)
  {
    AloneUnfolds(rules, rows, codes, ReadCode(Reset, f), envs);
    var pc := Looks(rules, rows, codes, ReadCode(Reset, f), envs[0]);
    if pc == CheckExist(f) {
      AloneUnfolds(rules, rows, codes, pc, envs[1..]);
      if !CheckUserExistResult(rules, rows, f.user, f.email, envs[1].fault) {
        AloneUnfolds(rules, rows, codes, Update(f), envs[2..]);
        assert envs[1..][1..] == envs[2..];
      }
    }
  }

  /** Reset without faults; the last two classes depend on what the update counts. */
  lemma ResetClassified(rules: Rules, rows: seq<Row>, codes: map<string, string>, f: Form, envs: seq<Env>)
    requires |envs| >= 3 && Healthy(envs)
    ensures var s := Handle(rules, rows, codes, Request(Reset, Fields(f)), envs);
            var stored := StoredCode(codes, f.email);
            var affects := Affects(rules, rows, f.user, f.email, f.passwd);
            && (s.answer == Replied(VarifyCodeExpired) <==> stored.None?)
            && (s.answer == Replied(VarifyCodeNotEqual) <==> stored.Some? && stored.value != f.code)
            && (s.answer == Replied(ErrorUserNotExist) <==> stored == Some(f.code) && !Occurs(rows, f.user, f.email))
            && (s.answer == Replied(ErrorUpdatePassword) <==>
                  stored == Some(f.code) && Occurs(rows, f.user, f.email) && !affects)
            && (s.answer == Replied(Success) <==> stored == Some(f.code) && affects)
            && s.rows == if s.answer == Replied(Success)
                         then SetPassword(rows, f.user, f.email, f.passwd) else rows
  {
    ResetUnfolds(rules, rows, codes, f, envs);
    if Matches(rows, f.user, f.email) {
      var i :| 0 <= i < |rows| && Both(rows[i], f.user, f.email);
      assert Either(rows[i], f.user, f.email);
    }
    if !Affects(rules, rows, f.user, f.email, f.passwd) {
      assert SetPassword(rows, f.user, f.email, f.passwd) == rows;
    }
  }

  /**
   What Success means when calls may fail. As written, reset answers it exactly when the code
   matched, the existence check found a row without throwing (or was cut off by the closed pool),
   and the update reported a row or threw. Repaired, an update that threw never counts.
  */
  lemma ResetSuccessUnderFaults(rules: Rules, rows: seq<Row>, codes: map<string, string>, f: Form, envs: seq<Env>)
    requires |envs| >= 3
    ensures var s := Handle(rules, rows, codes, Request(Reset, Fields(f)), envs);
            var matched := envs[0].fault.NoFault? && StoredCode(codes, f.email) == Some(f.code);
            var found := envs[1].fault.PoolClosed? ||
                         if Throws(envs[1].fault) then rules.throwIsFalse
                         else !envs[1].fault.NoRow? && Occurs(rows, f.user, f.email);
            && (s.answer == Replied(Success) <==>
                  && matched && found && !envs[2].fault.PoolClosed?
                  && if Throws(envs[2].fault) then !rules.throwIsFalse
                     else Affects(rules, rows, f.user, f.email, f.passwd))
            && (s.answer == Replied(ErrorUserNotExist) <==> matched && !found)
    ensures var s := Handle(rules, rows, codes, Request(Reset, Fields(f)), envs);
            s.rows == if (s.answer == Replied(Success) || s.answer == Replied(ErrorUpdatePassword))
                         && !envs[2].fault.ThrowBefore? && !envs[2].fault.PoolClosed?
                      then SetPassword(rows, f.user, f.email, f.passwd) else rows
  {
    ResetUnfolds(rules, rows, codes, f, envs);
  }

  /** Login passes its password check exactly when a row matched or, as written, the query threw. */
  lemma LoginPassesUnderFaults(rules: Rules, rows: seq<Row>, codes: map<string, string>, f: Form, envs: seq<Env>)
    requires |envs| >= 3
    ensures var s := Handle(rules, rows, codes, Request(Login, Fields(f)), envs);
            s.answer != Replied(ErrorPasswordNotCorrect) <==>
              if Throws(envs[0].fault) then !rules.throwIsFalse
              else !envs[0].fault.PoolClosed? && !envs[0].fault.NoRow?
                   && exists i | 0 <= i < |rows| :: rows[i].name == f.user && rows[i].pwd == f.passwd
    ensures var s := Handle(rules, rows, codes, Request(Login, Fields(f)), envs);
            && s.rows == rows
            && (s.answer.LoggedIn? <==> s.answer != Replied(ErrorPasswordNotCorrect) && !envs[1].rpcError)
            && (s.answer == Replied(RPCFailed) <==> s.answer != Replied(ErrorPasswordNotCorrect) && envs[1].rpcError)
            && (s.answer.LoggedIn? ==>
                  (s.answer.uid.None? <==> envs[0].fault.ThrowBefore? || envs[0].fault.ThrowAfter?))
  {
    FindLoginFinds(rows, f.user, f.passwd);
    AloneUnfolds(rules, rows, codes, CheckPassword(f), envs);
    var pc := Looks(rules, rows, codes, CheckPassword(f), envs[0]);
    if !pc.Finished? { AloneUnfolds(rules, rows, codes, pc, envs[1..]); }
  }

  /** Login without faults: by the password check and then by the status service alone. */
  lemma LoginClassified(rules: Rules, rows: seq<Row>, codes: map<string, string>, f: Form, envs: seq<Env>)
    requires |envs| >= 3 && Healthy(envs)
    ensures var a := Handle(rules, rows, codes, Request(Login, Fields(f)), envs).answer;
            var known := exists i | 0 <= i < |rows| :: rows[i].name == f.user && rows[i].pwd == f.passwd;
            && (a == Replied(ErrorPasswordNotCorrect) <==> !known)
            && (a == Replied(RPCFailed) <==> known && envs[1].rpcError)
            && (a.LoggedIn? <==> known && !envs[1].rpcError)
            && (a.LoggedIn? ==> a.user == f.user && exists i | 0 <= i < |rows| ::
                  rows[i].name == f.user && rows[i].pwd == f.passwd && a.uid == Some(rows[i].uid))
  {
    FindLoginFinds(rows, f.user, f.passwd);
    AloneUnfolds(rules, rows, codes, CheckPassword(f), envs);
    var pc := Looks(rules, rows, codes, CheckPassword(f), envs[0]);
    if !pc.Finished? { AloneUnfolds(rules, rows, codes, pc, envs[1..]); }
  }

  /** The two code requests answer by their table lookup alone: a failed call to the code service still answers 0. */
  lemma CodeRequestsClassified(rules: Rules, rows: seq<Row>, codes: map<string, string>, f: Form, envs: seq<Env>)
    requires |envs| >= 3 && Healthy(envs)
    ensures var a := Handle(rules, rows, codes, Request(CodeForRegister, Fields(f)), envs).answer;
            a == Replied(if Occurs(rows, f.user, f.email) then ErrorUserExist else Success)
    ensures var a := Handle(rules, rows, codes, Request(CodeForReset, Fields(f)), envs).answer;
            a == Replied(if Matches(rows, f.user, f.email) then Success else ErrorUserEmailNotMatch)
  {
    AloneUnfolds(rules, rows, codes, CheckFree(f), envs);
    AloneUnfolds(rules, rows, codes, CheckMatch(f), envs);
    AloneUnfolds(rules, rows, codes, AskCode(f), envs[1..]);
  }

  /** The request for a registration code when calls may fail: it passes too when its query threw. */
  lemma RegisterCodeUnderFaults(rules: Rules, rows: seq<Row>, codes: map<string, string>, f: Form, envs: seq<Env>)
    requires |envs| >= 3
    ensures var fault := envs[0].fault;
            var s := Handle(rules, rows, codes, Request(CodeForRegister, Fields(f)), envs);
            && s.rows == rows
            && s.answer == Replied(
                 if !fault.PoolClosed? &&
                    if fault.ThrowBefore? || fault.ThrowAfter? then !rules.throwIsFalse
                    else fault.NoRow? ||
                         forall i | 0 <= i < |rows| :: rows[i].name != f.user && rows[i].email != f.email
                 then Success else ErrorUserExist)
  {
    AloneUnfolds(rules, rows, codes, CheckFree(f), envs);
    AloneUnfolds(rules, rows, codes, AskCode(f), envs[1..]);
    assert Occurs(rows, f.user, f.email) <==> exists i | 0 <= i < |rows| :: Either(rows[i], f.user, f.email);
  }

  /**
   The request for a reset code when calls may fail: it passes exactly when a row matched or, as
   written, the query threw.
  */
  lemma ResetCodeUnderFaults(rules: Rules, rows: seq<Row>, codes: map<string, string>, f: Form, envs: seq<Env>)
    requires |envs| >= 3
    ensures var fault := envs[0].fault;
            var s := Handle(rules, rows, codes, Request(CodeForReset, Fields(f)), envs);
            && s.rows == rows
            && s.answer == Replied(
                 if !fault.PoolClosed? &&
                    if fault.ThrowBefore? || fault.ThrowAfter? then !rules.throwIsFalse
                    else !fault.NoRow? &&
                         exists i | 0 <= i < |rows| :: rows[i].name == f.user && rows[i].email == f.email
                 then Success else ErrorUserEmailNotMatch)
  {
    AloneUnfolds(rules, rows, codes, CheckMatch(f), envs);
    AloneUnfolds(rules, rows, codes, AskCode(f), envs[1..]);
    assert Matches(rows, f.user, f.email) <==> exists i | 0 <= i < |rows| :: Both(rows[i], f.user, f.email);
  }

  /**
   The intended reading fails: with one exception a reset of nobody's password answers Success and
   changes nothing.
  */
  lemma ExceptionCountsAsSuccess(rules: Rules, f: Form)
    requires CStr(f.code) == f.code && !rules.throwIsFalse
    ensures var rows := [Row(1, f.user + "'", f.email, "")];
            var envs := [Env(NoFault, 0, false), Env(NoFault, 0, false), Env(ThrowBefore, 0, false)];
            var s := Handle(rules, rows, map[Key(f.email) := f.code], Request(Reset, Fields(f)), envs);
            s.answer == Replied(Success) && s.rows == rows && !Matches(rows, f.user, f.email)
  {
    var rows := [Row(1, f.user + "'", f.email, "")];
    var envs := [Env(NoFault, 0, false), Env(NoFault, 0, false), Env(ThrowBefore, 0, false)];
    assert |f.user + "'"| == |f.user| + 1;
    assert Either(rows[0], f.user, f.email);
    assert Occurs(rows, f.user, f.email);
    ResetSuccessUnderFaults(rules, rows, map[Key(f.email) := f.code], f, envs);
    ResetUnfolds(rules, rows, map[Key(f.email) := f.code], f, envs);
  }
}
