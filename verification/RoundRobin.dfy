/**
 The pool of io contexts: one thread for each context, and contexts handed out in turn.
 Contexts are named by their position in `_ioServices`.
*/
module RoundRobin {

  class AsioIOServicePool {
    const size: nat
    var works: seq<nat>    // works[i] is the context that work guard i keeps alive
    var threads: seq<nat>  // threads[i] is the context that thread i runs
    var next: nat

    ghost predicate Valid()
      reads this
    {
      && (if size == 0 then next == 0 else next < size)
      && works == Identity(size) && threads == Identity(size)
    }

    constructor (size: nat)
      ensures Valid() && this.size == size && next == 0
    {
      this.size := size;
      works, threads, next := [], [], 0;
      new;
      for i := 0 to size
        invariant works == Identity(i) && threads == [] && next == 0 && this.size == size
      {
        works := works + [i];
      }
      for i := 0 to size
        invariant works == Identity(size) && threads == Identity(i) && next == 0 && this.size == size
      {
        threads := threads + [i];
      }
    }

    /** Without a context there is nothing to index. */
    method GetIOService() returns (service: nat)
      requires Valid() && size >= 1
      modifies this`next
      ensures Valid() && service < size
      ensures service == old(next) && next == Successor(size, old(next))
    {
      service := next;
      next := next + 1;
      if next == size {
        next := 0;
      }
    }
  }

  function Identity(n: nat): seq<nat> {
    seq(n, i requires 0 <= i => i)
  }

  /** Each context is run by exactly one thread. */
  lemma OneThreadPerContext(p: AsioIOServicePool, c: nat)
    requires p.Valid() && c < p.size
    ensures c < |p.threads| && p.threads[c] == c
    ensures forall i | 0 <= i < |p.threads| :: p.threads[i] == c ==> i == c
  {
  }

  function Successor(n: nat, next: nat): nat {
    if next + 1 == n then 0 else next + 1
  }

  /** The services that `m` calls return, starting from a pool whose field is `next`. */
  function Served(n: nat, next: nat, m: nat): seq<nat>
    requires next < n
    decreases m
  {
    if m == 0 then [] else [next] + Served(n, Successor(n, next), m - 1)
  }

  /** The calls of m rounds of the accept loop, one for each connection waited for. */
  method Dispatch(pool: AsioIOServicePool, m: nat) returns (services: seq<nat>)
    requires pool.Valid() && pool.size >= 1
    modifies pool`next
    ensures pool.Valid() && services == Served(pool.size, old(pool.next), m)
  {
    services := [];
    for i := 0 to m
      invariant pool.Valid()
      invariant services + Served(pool.size, pool.next, m - i) == Served(pool.size, old(pool.next), m)
    {
      var service := pool.GetIOService();
      services := services + [service];
    }
  }

  lemma SuccessorIsModular(n: nat, k: nat)
    requires n >= 1
    ensures Successor(n, k % n) == (k + 1) % n
  {
    var q, r := k / n, k % n;
    assert k == n * q + r;
    if r + 1 == n {
      assert k + 1 == n * (q + 1);
      ModOf(n, q + 1, 0);
    } else {
      assert k + 1 == n * q + (r + 1);
      ModOf(n, q, r + 1);
    }
  }

  lemma Grows(n: nat, p: int, q: int)
    requires p > q
    ensures n * p >= n * q + n
  {
    var d: nat := p - q - 1;
    assert n * d >= 0;
    assert n * p == n * (q + 1 + d) == n * q + n + n * d;
  }

  lemma Cancels(n: nat, p: int, q: int)
    requires n * p < n * q + n
    ensures p <= q
  {
    if p > q {
      Grows(n, p, q);
      assert false;
    }
  }

  lemma Divides(n: nat, x: nat)
    requires n >= 1
    ensures n * (x / n) <= x < n * (x / n) + n && x % n == x - n * (x / n)
  {
  }

  /** A quotient and a remainder below the divisor are the quotient and the remainder. */
  lemma ModOf(n: nat, q: nat, r: nat)
    requires r < n
    ensures (n * q + r) % n == r && (n * q + r) / n == q
  {
    var x := n * q + r;
    Divides(n, x);
    Cancels(n, q, x / n);
    Cancels(n, x / n, q);
  }

  /** The k-th call from a fresh pool returns service k mod n. */
  lemma {:induction false} KthCall(n: nat, start: nat, m: nat, k: nat)
    requires n >= 1 && k < m
    ensures |Served(n, start % n, m)| == m && Served(n, start % n, m)[k] == (start + k) % n
    decreases m
  {
    SuccessorIsModular(n, start);
    if m == 1 {
      assert Served(n, (start + 1) % n, 0) == [];
    } else {
      KthCall(n, start + 1, m - 1, if k == 0 then 0 else k - 1);
    }
  }

  function Count(s: seq<nat>, x: nat): nat {
    if s == [] then 0 else (if s[0] == x then 1 else 0) + Count(s[1..], x)
  }

  /** How many j < k have j mod n = i. */
  function Before(n: nat, i: nat, k: nat): int
    requires i < n
  {
    (k + n - 1 - i) / n
  }

  lemma BeforeIs(n: nat, i: nat, k: nat, q: int)
    requires i < n && n * q <= k + n - 1 - i < n * q + n
    ensures Before(n, i, k) == q
  {
    Divides(n, k + n - 1 - i);
    Cancels(n, q, Before(n, i, k));
    Cancels(n, Before(n, i, k), q);
  }

  lemma BeforeSteps(n: nat, i: nat, k: nat)
    requires i < n
    ensures Before(n, i, k + 1) == Before(n, i, k) + if k % n == i then 1 else 0
  {
    var q, r := k / n, k % n;
    Divides(n, k);
    BeforeAround(n, i, k, q, r);
  }

  lemma BeforeAround(n: nat, i: nat, k: nat, q: int, r: nat)
    requires i < n && k == n * q + r && r < n
    ensures Before(n, i, k + 1) == Before(n, i, k) + if r == i then 1 else 0
  {
    assert n * (q + 1) == n * q + n;
    BeforeIs(n, i, k, if r <= i then q else q + 1);
    BeforeIs(n, i, k + 1, if r < i then q else q + 1);
  }

  /** The exact count of service i in m calls, the first of which is call number k. */
  lemma {:induction false} CountIsExact(n: nat, k: nat, m: nat, i: nat)
    requires i < n
    ensures Count(Served(n, k % n, m), i) == Before(n, i, k + m) - Before(n, i, k)
    decreases m
  {
    if m > 0 {
      SuccessorIsModular(n, k);
      BeforeSteps(n, i, k);
      CountIsExact(n, k + 1, m - 1, i);
      assert Served(n, k % n, m)[1..] == Served(n, (k + 1) % n, m - 1);
    }
  }

  lemma SumBounds(n: nat, a: nat, m: nat, qa: int, qm: int, qc: int, qu: int)
    requires n * qa <= a < n * qa + n && n * qm <= m
    requires n * qc <= a + m < n * qc + n && m + n - 1 < n * qu + n
    ensures qm <= qc - qa <= qu
  {
    assert n * (qa + qm) == n * qa + n * qm;
    Cancels(n, qa + qm, qc);
    assert n * (qa + qu) == n * qa + n * qu;
    Cancels(n, qc, qa + qu);
  }

  lemma WindowBounds(n: nat, i: nat, k: nat, m: nat)
    requires i < n
    ensures m / n <= Before(n, i, k + m) - Before(n, i, k) <= (m + n - 1) / n
  {
    var a := k + n - 1 - i;
    Divides(n, a);
    Divides(n, m);
    Divides(n, a + m);
    Divides(n, m + n - 1);
    SumBounds(n, a, m, a / n, m / n, (a + m) / n, (m + n - 1) / n);
    assert k + m + n - 1 - i == a + m;
  }

  /** A window of a longer run is itself a run, from the field value the earlier calls left. */
  lemma {:induction false} WindowOfRun(n: nat, start: nat, k: nat, m: nat)
    requires n >= 1
    ensures |Served(n, start % n, k + m)| == k + m
    ensures Served(n, start % n, k + m)[k..] == Served(n, (start + k) % n, m)
    decreases k
  {
    if k == 0 {
      if m > 0 { KthCall(n, start, m, 0); }
    } else {
      SuccessorIsModular(n, start);
      WindowOfRun(n, start + 1, k - 1, m);
    }
  }

  /** In any m consecutive calls after the first k, each service is returned floor(m/n) or ceil(m/n) times. */
  lemma Fairness(n: nat, k: nat, m: nat, i: nat)
    requires i < n
    ensures |Served(n, 0, k + m)| == k + m
    ensures m / n <= Count(Served(n, 0, k + m)[k..], i) <= (m + n - 1) / n
  {
    ModOf(n, 0, 0);
    WindowOfRun(n, 0, k, m);
    CountIsExact(n, k, m, i);
    WindowBounds(n, i, k, m);
  }
}
