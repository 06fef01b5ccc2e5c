/**
 The `user` table as the five queries see it, and what each query answers and leaves behind under
 every way its call can end. Strings are compared exactly.
*/
module UserTable {
  import opened Wrappers

  datatype Row = Row(uid: int, name: string, email: string, pwd: string)

  /** How a query's call ends. */
  datatype Fault =
    | NoFault
    | ThrowBefore     // SQLException before the statement took effect
    | ThrowAfter      // SQLException once it had taken effect
    | NoRow           // a result set whose first next() is false
    | ProcedureError  // reg_user reports an error of its own, -1
    | PoolClosed      // getConnection returned null

  /**
   `countsMatched`: executeUpdate() counts the rows matched rather than the rows changed, as the
   connection is configured. `throwIsFalse`: the repair in which the catch blocks of the bool
   queries return false; as written they return -1, which is true.
  */
  datatype Rules = Rules(countsMatched: bool, throwIsFalse: bool)

  predicate Throws(f: Fault) { f.ThrowBefore? || f.ThrowAfter? }

  /** The statement reached the server and took effect. */
  predicate TakesEffect(f: Fault) { !f.ThrowBefore? && !f.PoolClosed? }

  predicate Either(r: Row, name: string, email: string) { r.name == name || r.email == email }

  predicate Both(r: Row, name: string, email: string) { r.name == name && r.email == email }

  predicate Occurs(rows: seq<Row>, name: string, email: string) {
    exists i | 0 <= i < |rows| :: Either(rows[i], name, email)
  }

  predicate Matches(rows: seq<Row>, name: string, email: string) {
    exists i | 0 <= i < |rows| :: Both(rows[i], name, email)
  }

  /** WHERE name = ? or email = ? */
  function CountEither(rows: seq<Row>, name: string, email: string): nat {
    if rows == [] then 0
    else CountEither(rows[..|rows| - 1], name, email) + if Either(rows[|rows| - 1], name, email) then 1 else 0
  }

  /** WHERE name = ? and email = ? */
  function CountBoth(rows: seq<Row>, name: string, email: string): nat {
    if rows == [] then 0
    else CountBoth(rows[..|rows| - 1], name, email) + if Both(rows[|rows| - 1], name, email) then 1 else 0
  }

  lemma {:induction false} CountsDecide(rows: seq<Row>, name: string, email: string)
    ensures CountEither(rows, name, email) != 0 <==> Occurs(rows, name, email)
    ensures CountBoth(rows, name, email) != 0 <==> Matches(rows, name, email)
  {
    if rows != [] {
      var init, last := rows[..|rows| - 1], rows[|rows| - 1];
      CountsDecide(init, name, email);
      assert Occurs(rows, name, email) <==> Occurs(init, name, email) || Either(last, name, email);
      assert Matches(rows, name, email) <==> Matches(init, name, email) || Both(last, name, email);
    }
  }

  /** SET pwd = ? WHERE name = ? and email = ? */
  function SetPassword(rows: seq<Row>, name: string, email: string, pwd: string): seq<Row> {
    seq(|rows|, i requires 0 <= i < |rows| =>
      if Both(rows[i], name, email) then rows[i].(pwd := pwd) else rows[i])
  }

  /** Some row the update selects had another password. */
  predicate Changes(rows: seq<Row>, name: string, email: string, pwd: string) {
    exists i | 0 <= i < |rows| :: Both(rows[i], name, email) && rows[i].pwd != pwd
  }

  /** Whether executeUpdate() reports a positive count. */
  predicate Affects(rules: Rules, rows: seq<Row>, name: string, email: string, pwd: string) {
    if rules.countsMatched then Matches(rows, name, email) else Changes(rows, name, email, pwd)
  }

  /** WHERE name = ? and pwd = ?: the row next() moves to. */
  function FindLogin(rows: seq<Row>, name: string, pwd: string): Option<Row> {
    if rows == [] then None
    else if rows[0].name == name && rows[0].pwd == pwd then Some(rows[0])
    else FindLogin(rows[1..], name, pwd)
  }

  lemma {:induction false} FindLoginFinds(rows: seq<Row>, name: string, pwd: string)
    ensures FindLogin(rows, name, pwd).Some? <==>
              exists i | 0 <= i < |rows| :: rows[i].name == name && rows[i].pwd == pwd
    ensures var r := FindLogin(rows, name, pwd);
            r.Some? ==> r.value in rows && r.value.name == name && r.value.pwd == pwd
  {
    if rows != [] {
      FindLoginFinds(rows[1..], name, pwd);
      if i :| 0 <= i < |rows| && rows[i].name == name && rows[i].pwd == pwd {
        if i > 0 { assert rows[1..][i - 1] == rows[i]; }
      }
    }
  }

  // ---------------------------------------------------------------- what the DAO methods return

  /**
   The contract assumed of the stored procedure reg_user, which is not in the repository: 0 when
   the name or the email is taken, -1 on an error of its own, otherwise one new row under the
   fresh uid it returns.
  */
  function RegUserRows(rows: seq<Row>, name: string, email: string, pwd: string, uid: int, f: Fault): seq<Row> {
    if TakesEffect(f) && !f.ProcedureError? && !Occurs(rows, name, email)
    then rows + [Row(uid, name, email, pwd)] else rows
  }

  function RegUserResult(rows: seq<Row>, name: string, email: string, uid: int, f: Fault): int {
    match f
    case NoFault => if Occurs(rows, name, email) then 0 else uid
    case PoolClosed => 0
    case _ => -1
  }

  /** A positive answer is the uid of the row that was appended; 0 and -1 tell the other ends apart. */
  lemma RegUserAnswersItsRow(rows: seq<Row>, name: string, email: string, pwd: string, uid: int, f: Fault)
    requires uid > 0
    ensures var r, after := RegUserResult(rows, name, email, uid, f), RegUserRows(rows, name, email, pwd, uid, f);
            var taken := exists i | 0 <= i < |rows| :: rows[i].name == name || rows[i].email == email;
            && (r > 0 <==> f.NoFault? && !taken)
            && (r > 0 ==> after == rows + [Row(r, name, email, pwd)])
            && (r == 0 <==> f.PoolClosed? || (f.NoFault? && taken))
            && (r == 0 ==> after == rows)
            && (r < 0 <==> r == -1)
  {
    assert Occurs(rows, name, email) <==> exists i | 0 <= i < |rows| :: Either(rows[i], name, email);
  }

  /** True says that nobody has the name or the email. */
  function CheckUserExistResult(rules: Rules, rows: seq<Row>, name: string, email: string, f: Fault): bool {
    if f.PoolClosed? then false
    else if Throws(f) then !rules.throwIsFalse
    else if f.NoRow? then true
    else !Occurs(rows, name, email)
  }

  function UpdatePasswordRows(rows: seq<Row>, name: string, email: string, pwd: string, f: Fault): seq<Row> {
    if TakesEffect(f) then SetPassword(rows, name, email, pwd) else rows
  }

  function UpdatePasswordResult(rules: Rules, rows: seq<Row>, name: string, email: string, pwd: string,
                                f: Fault): bool
  {
    if f.PoolClosed? then false
    else if Throws(f) then !rules.throwIsFalse
    else Affects(rules, rows, name, email, pwd)
  }

  /** `info` is None where `userInfo` is left as it was declared, its uid never set. */
  datatype PasswordCheck = PasswordCheck(valid: bool, info: Option<Row>)

  function CheckUserPasswordResult(rules: Rules, rows: seq<Row>, name: string, pwd: string, f: Fault): PasswordCheck {
    if f.PoolClosed? || f.NoRow? then PasswordCheck(false, None)
    else if Throws(f) then PasswordCheck(!rules.throwIsFalse, None)
    else PasswordCheck(FindLogin(rows, name, pwd).Some?, FindLogin(rows, name, pwd))
  }

  function CheckUserEmailMatchResult(rules: Rules, rows: seq<Row>, name: string, email: string, f: Fault): bool {
    if f.PoolClosed? || f.NoRow? then false
    else if Throws(f) then !rules.throwIsFalse
    else Matches(rows, name, email)
  }

  // ---------------------------------------------------------------- the table's own invariant

  /** Names, emails and uids are unique, and uids are positive. */
  ghost predicate Keyed(rows: seq<Row>) {
    && (forall i | 0 <= i < |rows| :: rows[i].uid > 0)
    && (forall i, j | 0 <= i < j < |rows| ::
          rows[i].name != rows[j].name && rows[i].email != rows[j].email && rows[i].uid != rows[j].uid)
  }

  ghost predicate FreshUid(rows: seq<Row>, uid: int) {
    uid > 0 && forall i | 0 <= i < |rows| :: rows[i].uid != uid
  }

  /** A reset changes the password of at most one row and nothing else. */
  lemma ResetTouchesOneRow(rows: seq<Row>, name: string, email: string, pwd: string)
    requires Keyed(rows)
    ensures var r := SetPassword(rows, name, email, pwd);
            && |r| == |rows| && Keyed(r)
            && (forall i | 0 <= i < |rows| :: r[i] == rows[i].(pwd := r[i].pwd))
            && (forall i | 0 <= i < |rows| && r[i] != rows[i] :: Both(rows[i], name, email) && r[i].pwd == pwd)
            && (forall i, j | 0 <= i < |rows| && 0 <= j < |rows| && r[i] != rows[i] && r[j] != rows[j] :: i == j)
  {
  }
}
