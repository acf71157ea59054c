/**
 * Pacing of the fake traffic: how many fake queries one cycle sends and the
 * pause after each, and the emission loop that sends them. Random choices
 * and DNS outcomes are oracles indexed by the attempt number: `pick(k)` is the
 * index `random.choice` draws from the type list, `answered(k)` whether the
 * Pi-hole answered.
 */
module Pacing {
  import opened Outcomes

  /** The length, in seconds, of one sampling and emission cycle. */
  const CYCLE_SECONDS: nat := 60

  /** The share of fake traffic, in percent, when none is configured. */
  const DEFAULT_PERCENTAGE: nat := 10

  /**
   * Python's `round` of the exact quotient n / d: the nearest integer, and
   * the even one of the two nearest when n / d lies exactly half-way.
   */
  function RoundHalfEven(n: nat, d: nat): (r: nat)
    requires d > 0
    ensures 2 * (n - r * d) <= d && 2 * (r * d - n) <= d
    ensures (2 * (n - r * d) == d || 2 * (r * d - n) == d) ==> r % 2 == 0
  {
    var q, m := n / d, n % d;
    MulStep(q, d, n);
    if 2 * m < d then q
    else if 2 * m > d then q + 1
    else if q % 2 == 0 then q
    else q + 1
  }

  lemma MulStep(q: nat, d: nat, n: nat)
    requires d > 0 && q == n / d
    ensures n == q * d + n % d && 0 <= n % d < d
    ensures (q + 1) * d == q * d + d
  {
  }

  /**
   * The number of fake queries of a cycle that sampled `genuine` entries:
   * `round(genuine / 100 * pct)`, raised to 1 when that is 0.
   */
  function QueryAmount(genuine: nat, pct: nat): (amount: nat)
    ensures amount >= 1
    ensures amount == 1 <==> genuine * pct < 150
    ensures amount > 1 ==>
              2 * (genuine * pct - amount * 100) <= 100 && 2 * (amount * 100 - genuine * pct) <= 100
    ensures amount > 1 ==> amount == RoundHalfEven(genuine * pct, 100)
  {
    var rounded := RoundHalfEven(genuine * pct, 100);
    if rounded == 0 then 1 else rounded
  }

  /** A cycle's plan: how many queries, and the pause after each one. */
  datatype Plan = Plan(amount: nat, timeout: real)

  /** The plan of a cycle of `seconds` seconds that sampled `genuine` entries. */
  function MakePlan(genuine: nat, pct: nat, seconds: nat): (p: Plan)
    ensures p.amount >= 1
    ensures p.timeout * p.amount as real == seconds as real
    ensures p.amount == QueryAmount(genuine, pct)
  {
    var amount := QueryAmount(genuine, pct);
    Plan(amount, seconds as real / amount as real)
  }

  /**
   * A sample of 45 genuine entries at the default 10 % gives 4.5 exactly,
   * which rounds half to even to 4 queries, 15 seconds apart.
   */
  lemma FortyFiveAtTenPercent()
    ensures MakePlan(45, DEFAULT_PERCENTAGE, CYCLE_SECONDS) == Plan(4, 15.0)
  {
    var r: int := RoundHalfEven(450, 100);
    assert 2 * (450 - r * 100) <= 100 && 2 * (r * 100 - 450) <= 100;
    assert r == 4 || r == 5;
  }

  /** What the emission loop does, in order. */
  datatype Event =
    | Resolve(domain: string, qtype: string, answered: bool)
    | Sleep(seconds: real)

  /** The events of the first n passes of the emission loop. */
  function Emissions(queries: seq<string>, types: seq<string>, timeout: real,
                     pick: nat -> nat, answered: nat -> bool, n: nat): (t: seq<Event>)
    requires n <= |queries|
    requires forall k :: pick(k) < |types|
    ensures |t| == 2 * n
  {
    if n == 0 then []
    else
      var k := n - 1;
      Emissions(queries, types, timeout, pick, answered, k) +
      [Resolve(queries[k], types[pick(k)], answered(k)), Sleep(timeout)]
  }

  /**
   * Pass k resolves queries[k] with a type drawn from the sampled types and
   * then sleeps for the timeout, whatever the outcome of the resolution.
   */
  lemma {:induction false} EmissionsShape(queries: seq<string>, types: seq<string>, timeout: real,
                                          pick: nat -> nat, answered: nat -> bool, n: nat)
    requires n <= |queries|
    requires forall k :: pick(k) < |types|
    ensures var t := Emissions(queries, types, timeout, pick, answered, n);
            forall k :: 0 <= k < n ==>
              t[2 * k] == Resolve(queries[k], types[pick(k)], answered(k)) && t[2 * k].qtype in types &&
              t[2 * k + 1] == Sleep(timeout)
    decreases n
  {
    if n > 0 {
      EmissionsShape(queries, types, timeout, pick, answered, n - 1);
    }
  }

  /**
   * The trace of n passes over `queries`: pass k resolves queries[k] with one
   * of `types`, reports `answered(k)`, and then sleeps for `timeout`.
   */
  predicate Passes(t: seq<Event>, queries: seq<string>, types: seq<string>, timeout: real,
                   answered: nat -> bool, n: nat)
  {
    n <= |queries| && |t| == 2 * n &&
    forall k :: 0 <= k < n ==>
      t[2 * k].Resolve? && t[2 * k].domain == queries[k] && t[2 * k].qtype in types &&
      t[2 * k].answered == answered(k) && t[2 * k + 1] == Sleep(timeout)
  }

  /** The seconds spent sleeping over a trace. */
  function Slept(t: seq<Event>): real
  {
    if t == [] then 0.0
    else Slept(t[..|t| - 1]) + (if t[|t| - 1].Sleep? then t[|t| - 1].seconds else 0.0)
  }

  /** n passes sleep n times the timeout, however the resolutions went. */
  lemma EmissionsSleep(queries: seq<string>, types: seq<string>, timeout: real,
                       pick: nat -> nat, answered: nat -> bool, n: nat)
    requires n <= |queries|
    requires forall k :: pick(k) < |types|
    ensures Slept(Emissions(queries, types, timeout, pick, answered, n)) == timeout * n as real
  {
    EmissionsPasses(queries, types, timeout, pick, answered, n);
    PassesSlept(Emissions(queries, types, timeout, pick, answered, n), queries, types, timeout, answered, n);
  }

  /** One pass, a resolution and a sleep, adds its sleep to the total. */
  lemma SleptPass(u: seq<Event>, e: Event, timeout: real)
    requires e.Resolve?
    ensures Slept(u + [e, Sleep(timeout)]) == Slept(u) + timeout
  {
    var v := u + [e];
    assert (u + [e, Sleep(timeout)])[..|u| + 1] == v;
    assert v[..|u|] == u;
  }

  /** n passes of the emission loop form the trace `Passes` describes. */
  lemma EmissionsPasses(queries: seq<string>, types: seq<string>, timeout: real,
                        pick: nat -> nat, answered: nat -> bool, n: nat)
    requires n <= |queries|
    requires forall k :: pick(k) < |types|
    ensures Passes(Emissions(queries, types, timeout, pick, answered, n), queries, types, timeout, answered, n)
  {
    EmissionsShape(queries, types, timeout, pick, answered, n);
  }

  /** Any trace of n passes sleeps n times the timeout, whatever the resolutions returned. */
  lemma {:induction false} PassesSlept(t: seq<Event>, queries: seq<string>, types: seq<string>, timeout: real,
                                       answered: nat -> bool, n: nat)
    requires Passes(t, queries, types, timeout, answered, n)
    ensures Slept(t) == timeout * n as real
    decreases n
  {
    if n > 0 {
      var k := n - 1;
      var u := t[..2 * k];
      assert Passes(u, queries, types, timeout, answered, k) by {
        forall j | 0 <= j < k
          ensures u[2 * j] == t[2 * j] && u[2 * j + 1] == t[2 * j + 1]
        {
        }
      }
      PassesSlept(u, queries, types, timeout, answered, k);
      assert t == u + [t[2 * k], Sleep(timeout)];
      SleptPass(u, t[2 * k], timeout);
      assert timeout * n as real == timeout * k as real + timeout;
    }
  }

  /** A cycle that sends its planned queries sleeps for exactly the cycle length. */
  lemma CycleDuration(queries: seq<string>, types: seq<string>, p: Plan, seconds: nat,
                      pick: nat -> nat, answered: nat -> bool)
    requires p.amount <= |queries|
    requires forall k :: pick(k) < |types|
    requires p.timeout * p.amount as real == seconds as real
    ensures Slept(Emissions(queries, types, p.timeout, pick, answered, p.amount)) == seconds as real
  {
    EmissionsSleep(queries, types, p.timeout, pick, answered, p.amount);
  }

  /**
   * The emission loop: a do-while over the query counter that resolves
   * queries[count] with a randomly chosen type, ignores failures, increments
   * the counter, sleeps, and stops when the counter reaches the plan. With
   * fewer domains than planned, indexing the domain list fails after the last
   * one: the cycle ends with an IndexError.
   */
  method Emit(queries: seq<string>, types: seq<string>, p: Plan,
              pick: nat -> nat, answered: nat -> bool)
    returns (r: Result<nat, Fatal>, trace: seq<Event>)
    requires p.amount >= 1
    requires forall k :: pick(k) < |types|
    ensures r.Success? <==> |queries| >= p.amount
    ensures r.Success? ==>
              r.value == p.amount && trace == Emissions(queries, types, p.timeout, pick, answered, p.amount)
    ensures r.Failure? ==>
              r.error == DomainIndexError &&
              trace == Emissions(queries, types, p.timeout, pick, answered, |queries|)
  {
    var count := 0;
    trace := [];
    while true
      invariant count < p.amount && count <= |queries|
      invariant trace == Emissions(queries, types, p.timeout, pick, answered, count)
      decreases p.amount - count
    {
      if count >= |queries| {
        return Failure(DomainIndexError), trace;
      }
      var domain := queries[count];
      var qtype := types[pick(count)];
      trace := trace + [Resolve(domain, qtype, answered(count))];
      count := count + 1;
      trace := trace + [Sleep(p.timeout)];
      if count == p.amount {
        break;
      }
    }
    r := Success(count);
  }
}
