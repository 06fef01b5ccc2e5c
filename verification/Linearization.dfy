/**
 Registrations and resets are as good as atomic: whatever was interleaved with one, its answer and
 its effect on the table are those of the whole handler run alone at the moment of its last call,
 against a store that holds the code it had read.
*/
module Linearization {
  import opened UserTable
  import opened Handlers
  import opened Accounts

  lemma {:induction false} CStrTwice(s: string)
    ensures CStr(CStr(s)) == CStr(s)
  {
    if s != "" && s[0] != '\0' { CStrTwice(s[1..]); }
  }

  /** What a handler past its code check still relies on when its turn comes again. */
  predicate PastOk(rows: seq<Row>, pc: Pc) {
    && (PastCode(pc) ==> CStr(pc.form.code) == pc.form.code)
    && (pc.Update? ==> Occurs(rows, pc.form.user, pc.form.email))
  }

  ghost predicate PastInv(s: State) {
    forall h | h in s.pcs :: PastOk(s.rows, s.pcs[h])
  }

  /** A name or email, once in the table, stays. */
  lemma OccursStays(rules: Rules, s: State, e: Event, name: string, email: string)
    requires Enabled(s, e) && Occurs(s.rows, name, email)
    ensures Occurs(Apply(rules, s, e).rows, name, email)
  {
    var i :| 0 <= i < |s.rows| && Either(s.rows[i], name, email);
    assert Either(Apply(rules, s, e).rows[i], name, email);
  }

  lemma PastCall(rules: Rules, s: State, h: Hid, env: Env)
    requires Enabled(s, Call(h, env)) && env.fault.NoFault? && PastOk(s.rows, s.pcs[h])
    ensures PastOk(s.rows, Progress(rules, s.rows, s.codes, s.pcs[h], env).pc)
  {
    var pc := s.pcs[h];
    if pc.ReadCode? && Key(pc.form.email) in s.codes {
      CStrTwice(s.codes[Key(pc.form.email)]);
    }
  }

  lemma PastStep(rules: Rules, s: State, e: Event)
    requires PastInv(s) && Enabled(s, e) && (e.Call? ==> e.env.fault.NoFault?)
    ensures PastInv(Apply(rules, s, e))
  {
    var s' := Apply(rules, s, e);
    if e.Call? { PastCall(rules, s, e.h, e.env); }
    forall h | h in s'.pcs
      ensures PastOk(s'.rows, s'.pcs[h])
    {
      var pc := s'.pcs[h];
      assert PastOk(s.rows, pc);
      if pc.Update? { OccursStays(rules, s, e, pc.form.user, pc.form.email); }
    }
  }

  lemma {:induction false} PastRun(rules: Rules, s: State, es: seq<Event>)
    requires Init(s) && IsRun(rules, s, es) && FaultFree(es)
    ensures PastInv(After(rules, s, es))
    decreases |es|
  {
    if es != [] {
      PastRun(rules, s, es[..|es| - 1]);
      PastStep(rules, After(rules, s, es[..|es| - 1]), es[|es| - 1]);
    }
  }

  /** The store as the handler saw it when it read its code. */
  function SeenCodes(s: State, pc: Pc): map<string, string>
    requires !pc.Finished?
  {
    if pc.ReadCode? then s.codes else map[Key(pc.form.email) := pc.form.code]
  }

  /** The end of a registration or reset at state `s` is the whole handler at state `s`. */
  lemma LastCallIsTheWholeHandler(rules: Rules, s: State, h: Hid, env: Env)
    requires LogInv(s) && PastInv(s) && Enabled(s, Call(h, env)) && env.fault.NoFault?
    requires IsWriter(s.requests[h].route)
    requires Progress(rules, s.rows, s.codes, s.pcs[h], env).pc.Finished?
    ensures var e := Progress(rules, s.rows, s.codes, s.pcs[h], env);
            Handle(rules, s.rows, SeenCodes(s, s.pcs[h]), s.requests[h], [env, env, env]) == Solo(e.pc.answer, e.rows)
  {
    var pc := s.pcs[h];
    assert PcOk(s.requests[h], pc) && PastOk(s.rows, pc);
    var f, envs, codes := pc.form, [env, env, env], SeenCodes(s, pc);
    if s.requests[h].route.Reset? {
      ResetUnfolds(rules, s.rows, codes, f, envs);
    } else {
      AloneUnfolds(rules, s.rows, codes, ReadCode(Register, f), envs);
      if pc.Insert? {
        AloneUnfolds(rules, s.rows, codes, Insert(f), envs[1..]);
      }
    }
  }

  lemma WritersLinearize(rules: Rules, s: State, es: seq<Event>, h: Hid, env: Env)
    requires Init(s) && IsRun(rules, s, es) && FaultFree(es) && env.fault.NoFault?
    requires var r := After(rules, s, es);
             && Enabled(r, Call(h, env)) && h in r.requests && IsWriter(r.requests[h].route)
             && Progress(rules, r.rows, r.codes, r.pcs[h], env).pc.Finished?
    ensures var r := After(rules, s, es);
            var r' := Apply(rules, r, Call(h, env));
            r'.pcs[h].Finished? &&
            Handle(rules, r.rows, SeenCodes(r, r.pcs[h]), r.requests[h], [env, env, env])
              == Solo(r'.pcs[h].answer, r'.rows)
  {
    LogRun(rules, s, es);
    PastRun(rules, s, es);
    LastCallIsTheWholeHandler(rules, After(rules, s, es), h, env);
  }
}
