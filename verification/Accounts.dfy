/**
 The handlers of any number of requests interleaved call by call over one user table and one code
 store, and the simple account map that every such run refines.
*/
module Accounts {
  import opened Wrappers
  import opened UserTable
  import opened Handlers

  type Hid = nat

  datatype Entry = Entry(h: Hid, w: Write)

  datatype State = State(
    rows: seq<Row>,
    codes: map<string, string>,
    requests: map<Hid, Request>,
    pcs: map<Hid, Pc>,
    log: seq<Entry> // the writes in the order the table took them, each with the handler that made it
  )

  datatype Event =
    | Arrive(h: Hid, req: Request)
    | Call(h: Hid, env: Env)
    | PutCode(key: string, value: string) // the verification service stores a code
    | DropCode(key: string)               // a code expires

  ghost predicate Enabled(s: State, e: Event) {
    match e
    case Arrive(h, _) => h !in s.pcs
    case Call(h, env) =>
      h in s.pcs && !s.pcs[h].Finished? && (s.pcs[h].Insert? ==> FreshUid(s.rows, env.uid))
    case _ => true
  }

  function Logged(h: Hid, w: Option<Write>): seq<Entry> {
    if w.Some? then [Entry(h, w.value)] else []
  }

  function Apply(rules: Rules, s: State, e: Event): State
    requires e.Call? ==> e.h in s.pcs && !s.pcs[e.h].Finished?
  {
    match e
    case Arrive(h, req) => s.(requests := s.requests[h := req], pcs := s.pcs[h := Start(req)])
    case Call(h, env) =>
      var f := Progress(rules, s.rows, s.codes, s.pcs[h], env);
      s.(rows := f.rows, pcs := s.pcs[h := f.pc], log := s.log + Logged(h, f.write))
    case PutCode(key, value) => s.(codes := s.codes[key := value])
    case DropCode(key) => s.(codes := s.codes - {key})
  }

  ghost predicate IsRun(rules: Rules, s: State, es: seq<Event>)
    decreases |es|, 0
  {
    es == [] ||
    (IsRun(rules, s, es[..|es| - 1]) && Enabled(After(rules, s, es[..|es| - 1]), es[|es| - 1]))
  }

  ghost function After(rules: Rules, s: State, es: seq<Event>): State
    requires IsRun(rules, s, es)
    decreases |es|, 1
  {
    if es == [] then s else Apply(rules, After(rules, s, es[..|es| - 1]), es[|es| - 1])
  }

  ghost predicate Init(s: State) {
    Keyed(s.rows) && s.requests == map[] && s.pcs == map[] && s.log == []
  }

  predicate FaultFree(es: seq<Event>) {
    forall i | 0 <= i < |es| && es[i].Call? :: es[i].env.fault.NoFault?
  }

  // ---------------------------------------------------------------- the account map

  datatype Account = Account(uid: int, email: string, pwd: string)

  type Book = map<string, Account>

  function AccountOf(r: Row): Account { Account(r.uid, r.email, r.pwd) }

  /** The table read as a map from names. */
  function View(rows: seq<Row>): Book {
    if rows == [] then map[]
    else View(rows[..|rows| - 1])[rows[|rows| - 1].name := AccountOf(rows[|rows| - 1])]
  }

  /** The account map's own operations: open an account, change the password of one. */
  function Performed(b: Book, w: Write): Book {
    match w
    case Registered(uid, name, email, pwd) => b[name := Account(uid, email, pwd)]
    case PasswordSet(name, _, pwd) => if name in b then b[name := b[name].(pwd := pwd)] else b
  }

  function Replay(base: Book, log: seq<Entry>): Book {
    if log == [] then base else Performed(Replay(base, log[..|log| - 1]), log[|log| - 1].w)
  }

  /** A registration opens a new account, and a reset names an account and its own email. */
  predicate Meaningful(b: Book, w: Write) {
    match w
    case Registered(uid, name, _, _) => name !in b
    case PasswordSet(name, email, _) => name in b && b[name].email == email
  }

  ghost predicate LogOk(base: Book, log: seq<Entry>) {
    forall i | 0 <= i < |log| :: Meaningful(Replay(base, log[..i]), log[i].w)
  }

  lemma {:induction false} ViewLooksUp(rows: seq<Row>)
    requires Keyed(rows)
    ensures forall i | 0 <= i < |rows| :: rows[i].name in View(rows) && View(rows)[rows[i].name] == AccountOf(rows[i])
    ensures forall n | n in View(rows) :: exists i | 0 <= i < |rows| :: rows[i].name == n
  {
    if rows != [] {
      ViewLooksUp(rows[..|rows| - 1]);
    }
  }

  lemma ViewOfInsert(rows: seq<Row>, r: Row)
    ensures View(rows + [r]) == View(rows)[r.name := AccountOf(r)]
  {
    assert (rows + [r])[..|rows|] == rows;
  }

  /** Every row has its account in `b`, and `b` has no other. */
  ghost predicate Mirrors(rows: seq<Row>, b: Book) {
    && (forall i | 0 <= i < |rows| :: rows[i].name in b && b[rows[i].name] == AccountOf(rows[i]))
    && (forall n | n in b :: exists i | 0 <= i < |rows| :: rows[i].name == n)
  }

  lemma MirrorsIsView(rows: seq<Row>, b: Book)
    requires Keyed(rows) && Mirrors(rows, b)
    ensures View(rows) == b
  {
    ViewLooksUp(rows);
    forall n | n in b || n in View(rows)
      ensures n in b && n in View(rows) && View(rows)[n] == b[n]
    {
      var i :| 0 <= i < |rows| && rows[i].name == n;
      assert rows[i].name in b && rows[i].name in View(rows);
    }
  }

  lemma UpdateMirrors(rows: seq<Row>, b: Book, name: string, email: string, pwd: string, k: int)
    requires Keyed(rows) && Mirrors(rows, b) && 0 <= k < |rows| && Both(rows[k], name, email)
    ensures name in b && b[name].email == email
    ensures Mirrors(SetPassword(rows, name, email, pwd), b[name := b[name].(pwd := pwd)])
  {
    var after := SetPassword(rows, name, email, pwd);
    assert rows[k].name in b && b[rows[k].name] == AccountOf(rows[k]);
    var b' := b[name := b[name].(pwd := pwd)];
    forall i | 0 <= i < |after|
      ensures after[i].name in b' && b'[after[i].name] == AccountOf(after[i])
    {
      assert b[rows[i].name] == AccountOf(rows[i]);
      if i != k { assert rows[i].name != name; }
    }
    forall n | n in b'
      ensures exists i | 0 <= i < |after| :: after[i].name == n
    {
      var i :| 0 <= i < |rows| && rows[i].name == n;
      assert after[i].name == n;
    }
  }

  lemma ViewOfUpdate(rows: seq<Row>, name: string, email: string, pwd: string)
    requires Keyed(rows) && Matches(rows, name, email)
    ensures name in View(rows) && View(rows)[name].email == email
    ensures View(SetPassword(rows, name, email, pwd)) == View(rows)[name := View(rows)[name].(pwd := pwd)]
  {
    ViewLooksUp(rows);
    var k :| 0 <= k < |rows| && Both(rows[k], name, email);
    var b := View(rows);
    UpdateMirrors(rows, b, name, email, pwd, k);
    ResetTouchesOneRow(rows, name, email, pwd);
    MirrorsIsView(SetPassword(rows, name, email, pwd), b[name := b[name].(pwd := pwd)]);
  }

  lemma ReplayOfOne(base: Book, log: seq<Entry>, x: Entry)
    requires LogOk(base, log) && Meaningful(Replay(base, log), x.w)
    ensures Replay(base, log + [x]) == Performed(Replay(base, log), x.w)
    ensures LogOk(base, log + [x])
  {
    assert (log + [x])[..|log|] == log;
    forall i | 0 <= i < |log + [x]|
      ensures Meaningful(Replay(base, (log + [x])[..i]), (log + [x])[i].w)
    {
      if i < |log| { assert (log + [x])[..i] == log[..i]; }
    }
  }

  // ---------------------------------------------------------------- refinement

  ghost predicate TableInv(base: Book, s: State) {
    Keyed(s.rows) && View(s.rows) == Replay(base, s.log) && LogOk(base, s.log)
  }

  lemma InsertRefines(base: Book, s: State, f: Form, e: Env, h: Hid)
    requires TableInv(base, s) && FreshUid(s.rows, e.uid)
    ensures var x := Registers(s.rows, f, e);
            TableInv(base, s.(rows := x.rows, log := s.log + Logged(h, x.write)))
  {
    var x := Registers(s.rows, f, e);
    if x.rows != s.rows {
      var r := Row(e.uid, f.user, f.email, f.passwd);
      ViewOfInsert(s.rows, r);
      ViewLooksUp(s.rows);
      forall i | 0 <= i < |s.rows|
        ensures s.rows[i].name != r.name && s.rows[i].email != r.email
      {
        assert Either(s.rows[i], f.user, f.email) ==> Occurs(s.rows, f.user, f.email);
      }
      ReplayOfOne(base, s.log, Entry(h, x.write.value));
    } else {
      assert s.log + Logged(h, x.write) == s.log;
    }
  }

  lemma UpdateRefines(rules: Rules, base: Book, s: State, f: Form, e: Env, h: Hid)
    requires TableInv(base, s)
    ensures var x := Updates(rules, s.rows, f, e);
            TableInv(base, s.(rows := x.rows, log := s.log + Logged(h, x.write)))
  {
    var x := Updates(rules, s.rows, f, e);
    if x.write.Some? {
      var k :| 0 <= k < |s.rows| && Both(s.rows[k], f.user, f.email);
      assert Matches(s.rows, f.user, f.email);
      ViewOfUpdate(s.rows, f.user, f.email, f.passwd);
      ResetTouchesOneRow(s.rows, f.user, f.email, f.passwd);
      ReplayOfOne(base, s.log, Entry(h, x.write.value));
    } else {
      assert s.log + Logged(h, x.write) == s.log;
      if TakesEffect(e.fault) {
        assert SetPassword(s.rows, f.user, f.email, f.passwd) == s.rows;
      }
    }
  }

  lemma TableStep(rules: Rules, base: Book, s: State, e: Event)
    requires TableInv(base, s) && Enabled(s, e)
    ensures TableInv(base, Apply(rules, s, e))
  {
    if e.Call? {
      var pc := s.pcs[e.h];
      if pc.Insert? {
        InsertRefines(base, s, pc.form, e.env, e.h);
      } else if pc.Update? {
        UpdateRefines(rules, base, s, pc.form, e.env, e.h);
      } else {
        assert s.log + Logged(e.h, None) == s.log;
      }
    }
  }

  /**
   In every interleaving, faults included, the table read as a map is the replay of the writes
   logged so far over the map it started from; names, emails and uids stay unique; and every
   logged write made sense when it was made.
  */
  lemma {:induction false} TableRefinesReplay(rules: Rules, s: State, es: seq<Event>)
    requires Init(s) && IsRun(rules, s, es)
    ensures TableInv(View(s.rows), After(rules, s, es))
    decreases |es|
  {
    if es != [] {
      TableRefinesReplay(rules, s, es[..|es| - 1]);
      TableStep(rules, View(s.rows), After(rules, s, es[..|es| - 1]), es[|es| - 1]);
    }
  }

  // ---------------------------------------------------------------- each Success is one write

  /** A handler between calls stands where its own request leads. */
  predicate PcOk(req: Request, pc: Pc) {
    pc.Finished? ||
    (req.body.Fields? && pc.form == req.body.form &&
     match pc
     case ReadCode(route, _) => req.route == route && (route.Register? || route.Reset?)
     case Insert(_) => req.route.Register?
     case CheckExist(_) => req.route.Reset?
     case Update(_) => req.route.Reset?
     case CheckPassword(_) => req.route.Login?
     case AskStatus(_, _) => req.route.Login?
     case CheckFree(_) => req.route.CodeForRegister?
     case CheckMatch(_) => req.route.CodeForReset?
     case AskCode(_) => req.route.CodeForRegister? || req.route.CodeForReset?)
  }

  /** The write that this request asks for. */
  predicate Asks(req: Request, w: Write) {
    && req.body.Fields?
    && var f := req.body.form;
       match w
       case Registered(_, name, email, pwd) =>
         req.route.Register? && name == f.user && email == f.email && pwd == f.passwd
       case PasswordSet(name, email, pwd) => req.route.Reset? && name == f.user && email == f.email && pwd == f.passwd
  }

  ghost predicate Wrote(log: seq<Entry>, h: Hid) {
    exists i | 0 <= i < |log| :: log[i].h == h
  }

  ghost predicate LogInv(s: State) {
    && s.requests.Keys == s.pcs.Keys
    && (forall h | h in s.pcs :: PcOk(s.requests[h], s.pcs[h]))
    && (forall i | 0 <= i < |s.log| ::
          s.log[i].h in s.pcs && s.pcs[s.log[i].h].Finished? && Asks(s.requests[s.log[i].h], s.log[i].w))
    && (forall i, j | 0 <= i < j < |s.log| :: s.log[i].h != s.log[j].h)
  }

  lemma LogStep(rules: Rules, s: State, e: Event)
    requires LogInv(s) && Enabled(s, e)
    ensures LogInv(Apply(rules, s, e))
  {
  }

  predicate IsWriter(r: Route) { r.Register? || r.Reset? }

  /** Success of a register or reset request, and a write under its name. */
  ghost predicate Accounted(s: State, h: Hid)
    requires h in s.pcs && h in s.requests
  {
    Wrote(s.log, h) <==> IsWriter(s.requests[h].route) && s.pcs[h] == Finished(Replied(Success))
  }

  ghost predicate AllAccounted(s: State) {
    s.requests.Keys == s.pcs.Keys && forall h | h in s.pcs :: Accounted(s, h)
  }

  lemma WroteGrows(log: seq<Entry>, h: Hid, w: Option<Write>, g: Hid)
    ensures Wrote(log + Logged(h, w), g) <==> Wrote(log, g) || (g == h && w.Some?)
  {
    if Wrote(log, g) {
      var i :| 0 <= i < |log| && log[i].h == g;
      assert (log + Logged(h, w))[i].h == g;
    }
    if g == h && w.Some? {
      assert (log + Logged(h, w))[|log|].h == g;
    }
  }

  lemma AccountStep(rules: Rules, s: State, e: Event)
    requires LogInv(s) && AllAccounted(s) && Enabled(s, e)
    requires e.Call? ==> e.env.fault.NoFault?
    ensures AllAccounted(Apply(rules, s, e))
  {
    var s' := Apply(rules, s, e);
    forall g | g in s'.pcs
      ensures Accounted(s', g)
    {
      if g in s.pcs { assert Accounted(s, g); }
      if e.Call? {
        WroteGrows(s.log, e.h, Progress(rules, s.rows, s.codes, s.pcs[e.h], e.env).write, g);
      }
    }
  }

  lemma {:induction false} LogRun(rules: Rules, s: State, es: seq<Event>)
    requires Init(s) && IsRun(rules, s, es)
    ensures LogInv(After(rules, s, es))
    decreases |es|
  {
    if es != [] {
      LogRun(rules, s, es[..|es| - 1]);
      LogStep(rules, After(rules, s, es[..|es| - 1]), es[|es| - 1]);
    }
  }

  /**
   In every fault-free interleaving, a register or reset request has been answered Success exactly
   when the log holds a write of that request; the log never holds two of one request, and what it
   holds is what the request asked for. Every other answer accounts for no write.
  */
  lemma {:induction false} SuccessIsOneWrite(rules: Rules, s: State, es: seq<Event>)
    requires Init(s) && IsRun(rules, s, es) && FaultFree(es)
    ensures LogInv(After(rules, s, es)) && AllAccounted(After(rules, s, es))
    decreases |es|
  {
    LogRun(rules, s, es);
    if es != [] {
      SuccessIsOneWrite(rules, s, es[..|es| - 1]);
      AccountStep(rules, After(rules, s, es[..|es| - 1]), es[|es| - 1]);
    }
  }

  /** With the catch blocks repaired, Success never comes without its write, whatever fails. */
  ghost predicate SuccessWrote(s: State) {
    s.requests.Keys == s.pcs.Keys &&
    forall h | h in s.pcs && IsWriter(s.requests[h].route) && s.pcs[h] == Finished(Replied(Success)) :: Wrote(s.log, h)
  }

  lemma RepairedStep(rules: Rules, s: State, e: Event)
    requires rules.throwIsFalse && LogInv(s) && SuccessWrote(s) && Enabled(s, e)
    ensures SuccessWrote(Apply(rules, s, e))
  {
    var s' := Apply(rules, s, e);
    forall g | g in s'.pcs && IsWriter(s'.requests[g].route) && s'.pcs[g] == Finished(Replied(Success))
      ensures Wrote(s'.log, g)
    {
      if e.Call? {
        WroteGrows(s.log, e.h, Progress(rules, s.rows, s.codes, s.pcs[e.h], e.env).write, g);
      }
    }
  }

  lemma {:induction false} RepairedSuccessAlwaysWrites(rules: Rules, s: State, es: seq<Event>)
    requires rules.throwIsFalse && Init(s) && IsRun(rules, s, es)
    ensures SuccessWrote(After(rules, s, es))
    decreases |es|
  {
    if es != [] {
      LogRun(rules, s, es[..|es| - 1]);
      RepairedSuccessAlwaysWrites(rules, s, es[..|es| - 1]);
      RepairedStep(rules, After(rules, s, es[..|es| - 1]), es[|es| - 1]);
    }
  }

  /**
   As written, with faults, in every interleaving: a writer is answered Success without a write of
   its own exactly when its last call is an update that threw, unless the exception came after the
   statement had changed something.
  */
  lemma SuccessWithoutWrite(rules: Rules, s: State, es: seq<Event>, h: Hid, env: Env)
    requires Init(s) && IsRun(rules, s, es)
    requires var r := After(rules, s, es);
             Enabled(r, Call(h, env)) && h in r.requests && IsWriter(r.requests[h].route)
    ensures var r := After(rules, s, es);
            var r' := Apply(rules, r, Call(h, env));
            r'.pcs[h] == Finished(Replied(Success)) && !Wrote(r'.log, h) <==>
              && r.pcs[h].Update? && Throws(env.fault) && !rules.throwIsFalse
              && !(env.fault.ThrowAfter? &&
                   Affects(rules, r.rows, r.pcs[h].form.user, r.pcs[h].form.email, r.pcs[h].form.passwd))
  {
    var r := After(rules, s, es);
    LogRun(rules, s, es);
    WroteGrows(r.log, h, Progress(rules, r.rows, r.codes, r.pcs[h], env).write, h);
  }

  // ---------------------------------------------------------------- every write was authorised

  /** The table never changes without a log entry of the handler whose call changed it. */
  lemma RowChangesAreLogged(rules: Rules, s: State, e: Event)
    requires Enabled(s, e) && Apply(rules, s, e).rows != s.rows
    ensures e.Call? && exists w :: Apply(rules, s, e).log == s.log + [Entry(e.h, w)]
  {
    if e.Call? && s.pcs[e.h].Update? { UnaffectedIsUnchanged(rules, s.rows, s.pcs[e.h].form); }
    var x := Progress(rules, s.rows, s.codes, s.pcs[e.h], e.env);
    assert Logged(e.h, x.write) == [Entry(e.h, x.write.value)];
  }

  lemma UnaffectedIsUnchanged(rules: Rules, rows: seq<Row>, f: Form)
    ensures !Affects(rules, rows, f.user, f.email, f.passwd) ==> SetPassword(rows, f.user, f.email, f.passwd) == rows
  {
  }

  /** Event k of the run is `h` reading, without fault, a stored code equal to the one in its form. */
  ghost predicate MatchedAt(rules: Rules, s: State, es: seq<Event>, h: Hid, k: nat)
    requires IsRun(rules, s, es)
  {
    && k < |es| && es[k].Call? && es[k].h == h && es[k].env.fault.NoFault?
    && IsRun(rules, s, es[..k])
    && var r := After(rules, s, es[..k]);
       && h in r.pcs && r.pcs[h].ReadCode?
       && StoredCode(r.codes, r.pcs[h].form.email) == Some(r.pcs[h].form.code)
       && h in r.requests && r.requests[h].body == Fields(r.pcs[h].form)
  }

  ghost predicate Matched(rules: Rules, s: State, es: seq<Event>, h: Hid)
    requires IsRun(rules, s, es)
  {
    exists k: nat :: MatchedAt(rules, s, es, h, k)
  }

  predicate PastCode(pc: Pc) { pc.Insert? || pc.CheckExist? || pc.Update? }

  /** The handler is past its code, or has written. */
  ghost predicate IsPast(s: State, h: Hid) {
    (h in s.pcs && PastCode(s.pcs[h])) || Wrote(s.log, h)
  }

  /** A handler gets past its code by reading one that matches. */
  lemma PastCodeStep(rules: Rules, s: State, e: Event, h: Hid)
    requires LogInv(s) && Enabled(s, e) && !IsPast(s, h) && IsPast(Apply(rules, s, e), h)
    ensures e.Call? && e.h == h && e.env.fault.NoFault? && h in s.pcs && s.pcs[h].ReadCode?
    ensures StoredCode(s.codes, s.pcs[h].form.email) == Some(s.pcs[h].form.code)
    ensures h in s.requests && s.requests[h].body == Fields(s.pcs[h].form)
  {
    if e.Call? {
      WroteGrows(s.log, e.h, Progress(rules, s.rows, s.codes, s.pcs[e.h], e.env).write, h);
    }
  }

  lemma MatchedLater(rules: Rules, s: State, es: seq<Event>, h: Hid)
    requires es != [] && IsRun(rules, s, es) && Matched(rules, s, es[..|es| - 1], h)
    ensures Matched(rules, s, es, h)
  {
    var n := |es| - 1;
    var k: nat :| MatchedAt(rules, s, es[..n], h, k);
    assert es[..n][..k] == es[..k];
    assert MatchedAt(rules, s, es, h, k);
  }

  lemma {:induction false} PastCodeMatched(rules: Rules, s: State, es: seq<Event>, h: Hid)
    requires Init(s) && IsRun(rules, s, es)
    requires IsPast(After(rules, s, es), h)
    ensures Matched(rules, s, es, h)
    decreases |es|
  {
    if es != [] {
      var n := |es| - 1;
      var p := After(rules, s, es[..n]);
      LogRun(rules, s, es[..n]);
      if IsPast(p, h) {
        PastCodeMatched(rules, s, es[..n], h);
        MatchedLater(rules, s, es, h);
      } else {
        PastCodeStep(rules, p, es[n], h);
        assert MatchedAt(rules, s, es, h, n);
      }
    }
  }

  /** A row is inserted or changed only by a request whose code equalled the stored code when it was read. */
  lemma WritesAreAuthorised(rules: Rules, s: State, es: seq<Event>, i: nat)
    requires Init(s) && IsRun(rules, s, es) && i < |After(rules, s, es).log|
    ensures Matched(rules, s, es, After(rules, s, es).log[i].h)
  {
    assert Wrote(After(rules, s, es).log, After(rules, s, es).log[i].h);
    PastCodeMatched(rules, s, es, After(rules, s, es).log[i].h);
  }

  /** The service stores under the key, or the key expires. */
  predicate Touches(e: Event, key: string) {
    (e.PutCode? || e.DropCode?) && e.key == key
  }

  ghost predicate Untouched(es: seq<Event>, key: string, from: nat) {
    forall j | from <= j < |es| :: !Touches(es[j], key)
  }

  /** The latest event on the key put `value` there, or it was there before the run and none touched it. */
  ghost predicate Stands(s: State, es: seq<Event>, key: string, value: string) {
    || (exists k | 0 <= k < |es| :: es[k] == PutCode(key, value) && Untouched(es, key, k + 1))
    || (key in s.codes && s.codes[key] == value && Untouched(es, key, 0))
  }

  lemma StandsStep(s: State, es: seq<Event>, key: string, value: string)
    requires es != []
    ensures var e := es[|es| - 1];
            Stands(s, es, key, value) <==>
              if Touches(e, key) then e == PutCode(key, value) else Stands(s, es[..|es| - 1], key, value)
  {
    var n := |es| - 1;
    var p := es[..n];
    assert forall k: nat | k <= n :: Untouched(es, key, k) <==> Untouched(p, key, k) && !Touches(es[n], key);
    assert Untouched(es, key, n + 1);
    if k :| 0 <= k < n && p[k] == PutCode(key, value) && Untouched(p, key, k + 1) && !Touches(es[n], key) {
      assert es[k] == PutCode(key, value) && Untouched(es, key, k + 1);
    }
    if k :| 0 <= k < n && es[k] == PutCode(key, value) && Untouched(es, key, k + 1) {
      assert p[k] == PutCode(key, value) && Untouched(p, key, k + 1);
    }
  }

  /** In every run the store holds under a key what the latest event on that key left there. */
  lemma {:induction false} CodesStand(rules: Rules, s: State, es: seq<Event>, key: string, value: string)
    requires IsRun(rules, s, es)
    ensures var codes := After(rules, s, es).codes;
            key in codes && codes[key] == value <==> Stands(s, es, key, value)
    decreases |es|
  {
    if es != [] {
      CodesStand(rules, s, es[..|es| - 1], key, value);
      StandsStep(s, es, key, value);
    }
  }

  /** The code was issued to the email and has not expired or been replaced since. */
  ghost predicate Issued(s: State, es: seq<Event>, email: string, code: string) {
    exists key, value :: UpToNul("code_" + email, key) && UpToNul(value, code) && Stands(s, es, key, value)
  }

  lemma StoredIsIssued(rules: Rules, s: State, es: seq<Event>, email: string, code: string)
    requires IsRun(rules, s, es)
    ensures StoredCode(After(rules, s, es).codes, email) == Some(code) <==> Issued(s, es, email, code)
  {
    var codes := After(rules, s, es).codes;
    StoredCodeReads(codes, email, code);
    if key, value :| UpToNul("code_" + email, key) && UpToNul(value, code) && Stands(s, es, key, value) {
      CodesStand(rules, s, es, key, value);
    }
    if key :| key in codes && UpToNul("code_" + email, key) && UpToNul(codes[key], code) {
      CodesStand(rules, s, es, key, codes[key]);
    }
  }

  lemma {:induction false} RequestsStay(rules: Rules, s: State, es: seq<Event>, k: nat, h: Hid)
    requires Init(s) && IsRun(rules, s, es) && k <= |es| && IsRun(rules, s, es[..k])
    requires h in After(rules, s, es[..k]).requests
    ensures var r, p := After(rules, s, es), After(rules, s, es[..k]);
            h in r.requests && r.requests[h] == p.requests[h]
    decreases |es|
  {
    if k == |es| {
      assert es[..k] == es;
    } else {
      var n := |es| - 1;
      assert es[..n][..k] == es[..k];
      RequestsStay(rules, s, es[..n], k, h);
      LogRun(rules, s, es[..n]);
    }
  }

  /**
   Behind every write there is an earlier moment at which its handler found, issued to the email it
   writes and still standing, the very code that its request carries.
  */
  lemma WritesFollowTheirCode(rules: Rules, s: State, es: seq<Event>, i: nat)
    requires Init(s) && IsRun(rules, s, es) && i < |After(rules, s, es).log|
    ensures var r := After(rules, s, es);
            var x := r.log[i];
            && x.h in r.requests && r.requests[x.h].body.Fields?
            && exists k: nat :: k < |es| && es[k].Call? && es[k].h == x.h &&
                 Issued(s, es[..k], x.w.email, r.requests[x.h].body.form.code)
  {
    var r := After(rules, s, es);
    var x := r.log[i];
    LogRun(rules, s, es);
    WritesAreAuthorised(rules, s, es, i);
    var k: nat :| MatchedAt(rules, s, es, x.h, k);
    var f := After(rules, s, es[..k]).pcs[x.h].form;
    RequestsStay(rules, s, es, k, x.h);
    StoredIsIssued(rules, s, es[..k], f.email, f.code);
    assert Asks(r.requests[x.h], x.w);
  }

  // ---------------------------------------------------------------- login

  /** The password that the most recent write for the name set. */
  function LatestPassword(base: Book, log: seq<Entry>, name: string): Option<string> {
    if log == [] then (if name in base then Some(base[name].pwd) else None)
    else
      match log[|log| - 1].w
      case Registered(_, n, _, pwd) => if n == name then Some(pwd) else LatestPassword(base, log[..|log| - 1], name)
      case PasswordSet(n, _, pwd) => if n == name then Some(pwd) else LatestPassword(base, log[..|log| - 1], name)
  }

  /** The uid that the name's registration assigned. */
  function AssignedUid(base: Book, log: seq<Entry>, name: string): Option<int> {
    if log == [] then (if name in base then Some(base[name].uid) else None)
    else
      match log[|log| - 1].w
      case Registered(uid, n, _, _) => if n == name then Some(uid) else AssignedUid(base, log[..|log| - 1], name)
      case PasswordSet(_, _, _) => AssignedUid(base, log[..|log| - 1], name)
  }

  lemma {:induction false} ReplayIsLatest(base: Book, log: seq<Entry>, name: string)
    requires LogOk(base, log)
    ensures name in Replay(base, log) <==> LatestPassword(base, log, name).Some?
    ensures name in Replay(base, log) <==> AssignedUid(base, log, name).Some?
    ensures name in Replay(base, log) ==>
              && LatestPassword(base, log, name).value == Replay(base, log)[name].pwd
              && AssignedUid(base, log, name).value == Replay(base, log)[name].uid
    decreases |log|
  {
    if log != [] {
      var n := |log| - 1;
      assert Meaningful(Replay(base, log[..n]), log[n].w);
      forall i | 0 <= i < n
        ensures Meaningful(Replay(base, log[..n][..i]), log[..n][i].w)
      {
        assert log[..n][..i] == log[..i];
      }
      ReplayIsLatest(base, log[..n], name);
    }
  }

  /**
   At any moment of any run, a login whose query goes through passes exactly when the most recent
   write for that name set that password, and the uid it goes on with is the one assigned at
   registration.
  */
  lemma LoginSeesTheLatestWrite(rules: Rules, s: State, es: seq<Event>, name: string, pwd: string)
    requires Init(s) && IsRun(rules, s, es)
    ensures var r := After(rules, s, es);
            var login := CheckUserPasswordResult(rules, r.rows, name, pwd, NoFault);
            && (login.valid <==> LatestPassword(View(s.rows), r.log, name) == Some(pwd))
            && (login.valid ==> UidOfRow(login.info) == AssignedUid(View(s.rows), r.log, name))
            && (login.valid ==> UidOfRow(login.info).Some?)
  {
    var r := After(rules, s, es);
    TableRefinesReplay(rules, s, es);
    ReplayIsLatest(View(s.rows), r.log, name);
    ViewLooksUp(r.rows);
    FindLoginFinds(r.rows, name, pwd);
    if name in View(r.rows) {
      var i :| 0 <= i < |r.rows| && r.rows[i].name == name;
      assert View(r.rows)[name] == AccountOf(r.rows[i]);
    }
  }

  /** The uid a login carries, and later answers with, is the one its name has in the book. */
  predicate UidOk(b: Book, pc: Pc) {
    match pc
    case AskStatus(f, uid) => f.user in b && uid == Some(b[f.user].uid)
    case Finished(LoggedIn(user, uid)) => user in b && uid == Some(b[user].uid)
    case _ => true
  }

  ghost predicate UidInv(base: Book, s: State) {
    forall h | h in s.pcs :: UidOk(Replay(base, s.log), s.pcs[h])
  }

  /** No write moves an account to another uid. */
  lemma UidsStay(b: Book, w: Write, name: string)
    requires Meaningful(b, w) && name in b
    ensures name in Performed(b, w) && Performed(b, w)[name].uid == b[name].uid
  {
  }

  lemma BookGrows(rules: Rules, base: Book, s: State, e: Event, name: string)
    requires TableInv(base, s) && Enabled(s, e) && name in Replay(base, s.log)
    ensures var after := Apply(rules, s, e).log;
            name in Replay(base, after) && Replay(base, after)[name].uid == Replay(base, s.log)[name].uid
  {
    TableStep(rules, base, s, e);
    var after := Apply(rules, s, e).log;
    if after != s.log {
      assert after[..|s.log|] == s.log;
      UidsStay(Replay(base, s.log), after[|s.log|].w, name);
    }
  }

  lemma PasswordCheckFindsUid(base: Book, s: State, f: Form, rules: Rules)
    requires TableInv(base, s)
    ensures var login := CheckUserPasswordResult(rules, s.rows, f.user, f.passwd, NoFault);
            login.valid ==>
              f.user in Replay(base, s.log) && UidOfRow(login.info) == Some(Replay(base, s.log)[f.user].uid)
  {
    FindLoginFinds(s.rows, f.user, f.passwd);
    ViewLooksUp(s.rows);
  }

  lemma UidCall(rules: Rules, base: Book, s: State, h: Hid, env: Env)
    requires TableInv(base, s) && UidInv(base, s) && Enabled(s, Call(h, env)) && env.fault.NoFault?
    ensures UidOk(Replay(base, s.log), Progress(rules, s.rows, s.codes, s.pcs[h], env).pc)
  {
    assert UidOk(Replay(base, s.log), s.pcs[h]);
    if s.pcs[h].CheckPassword? {
      PasswordCheckFindsUid(base, s, s.pcs[h].form, rules);
    }
  }

  lemma UidStep(rules: Rules, base: Book, s: State, e: Event)
    requires TableInv(base, s) && UidInv(base, s) && Enabled(s, e)
    requires e.Call? ==> e.env.fault.NoFault?
    ensures UidInv(base, Apply(rules, s, e))
  {
    var s' := Apply(rules, s, e);
    if e.Call? { UidCall(rules, base, s, e.h, e.env); }
    forall h | h in s'.pcs
      ensures UidOk(Replay(base, s'.log), s'.pcs[h])
    {
      assert UidOk(Replay(base, s.log), s'.pcs[h]);
      var p := s'.pcs[h];
      if p.AskStatus? { BookGrows(rules, base, s, e, p.form.user); }
      else if p.Finished? && p.answer.LoggedIn? { BookGrows(rules, base, s, e, p.answer.user); }
    }
  }

  lemma {:induction false} LoginAnswersTheAssignedUid(rules: Rules, s: State, es: seq<Event>)
    requires Init(s) && IsRun(rules, s, es) && FaultFree(es)
    ensures UidInv(View(s.rows), After(rules, s, es))
    decreases |es|
  {
    if es != [] {
      TableRefinesReplay(rules, s, es[..|es| - 1]);
      LoginAnswersTheAssignedUid(rules, s, es[..|es| - 1]);
      UidStep(rules, View(s.rows), After(rules, s, es[..|es| - 1]), es[|es| - 1]);
    }
  }
}
