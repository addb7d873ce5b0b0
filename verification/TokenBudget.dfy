/**
 Monthly AI token quota of one tenant: usage is checked before a request and recorded after it, so
 requests in between overshoot. `pending` counts requests that passed the check and have not recorded yet.
 */
module TokenBudget {
  import opened Common
  import opened Tiers

  /** None is the enterprise tier's absence of a limit. */
  function MonthlyLimit(tier: Tier): Option<nat> {
    match tier
    case Free => Some(10_000)
    case Starter => Some(100_000)
    case Pro => Some(500_000)
    case Enterprise => None
  }

  class AiCostControlService {
    var used: nat   // the counter under this month's key

    constructor ()
      ensures used == 0
    {
      used := 0;
    }

    method AssertQuota(tier: Tier, estimatedTokens: int) returns (allowed: bool)
      ensures allowed <==> MonthlyLimit(tier).None? || used + estimatedTokens <= MonthlyLimit(tier).value
    {
      var limit := MonthlyLimit(tier);
      if limit.None? { return true; }
      allowed := !(used + estimatedTokens > limit.value);
    }

    method RecordUsage(tokensUsed: int)
      modifies this
      ensures used == old(used) + if tokensUsed <= 0 then 0 else tokensUsed
    {
      if tokensUsed <= 0 { return; }
      used := used + tokensUsed;
    }
  }

  datatype State = State(used: nat, pending: nat)

  const INITIAL := State(0, 0)

  /** A new month starts a new counter; requests under way record into it. */
  datatype Step = Assert(estimate: int) | Record(tokens: int) | Fail | NewMonth

  function Next(limit: nat, s: State, step: Step): State {
    match step
    case Assert(e) => if s.used + e > limit then s else s.(pending := s.pending + 1)
    case Record(t) => if s.pending == 0 then s else State(s.used + if t <= 0 then 0 else t, s.pending - 1)
    case Fail => if s.pending == 0 then s else s.(pending := s.pending - 1)
    case NewMonth => s.(used := 0)
  }

  function Run(limit: nat, s: State, steps: seq<Step>): State
    decreases steps
  {
    if steps == [] then s else Run(limit, Next(limit, s, steps[0]), steps[1..])
  }

  /** At most `k` requests at once between check and record, estimates at least `e`, records at most `m`. */
  predicate Within(limit: nat, s: State, steps: seq<Step>, k: nat, e: nat, m: nat)
    decreases steps
  {
    && s.pending <= k
    && (steps == [] ||
        ((steps[0].Assert? ==> steps[0].estimate >= e) && (steps[0].Record? ==> steps[0].tokens <= m)
         && Within(limit, Next(limit, s, steps[0]), steps[1..], k, e, m)))
  }

  /** The budgets: a new month forgets all usage, and its first request passes exactly up to its tier's amount. */
  lemma Budgets(s: State, estimate: int)
    ensures forall tier: Tier, limit: nat | MonthlyLimit(tier) == Some(limit) ::
              var month := Next(limit, s, NewMonth);
              Next(limit, month, Assert(estimate)).pending == s.pending + 1 <==>
              match tier
              case Free => estimate <= 10_000
              case Starter => estimate <= 100_000
              case Pro => estimate <= 500_000
              case Enterprise => false
    ensures forall tier: Tier :: MonthlyLimit(tier).None? <==> tier.Enterprise?
  {
  }

  /** The requests that the steps let pass, and those that they end. */
  function Passed(limit: nat, s: State, steps: seq<Step>): nat
    decreases steps
  {
    if steps == [] then 0
    else
      (if steps[0].Assert? && s.used + steps[0].estimate <= limit then 1 else 0)
      + Passed(limit, Next(limit, s, steps[0]), steps[1..])
  }

  function Ended(limit: nat, s: State, steps: seq<Step>): nat
    decreases steps
  {
    if steps == [] then 0
    else
      (if (steps[0].Record? || steps[0].Fail?) && s.pending > 0 then 1 else 0)
      + Ended(limit, Next(limit, s, steps[0]), steps[1..])
  }

  /** `pending` is the requests that passed the check and have neither recorded nor failed. */
  lemma {:induction false} PendingIsExact(limit: nat, s: State, steps: seq<Step>)
    ensures Run(limit, s, steps).pending + Ended(limit, s, steps) == s.pending + Passed(limit, s, steps)
    decreases steps
  {
    if steps != [] { PendingIsExact(limit, Next(limit, s, steps[0]), steps[1..]); }
  }

  /** What is used, plus what the pending requests may still add. */
  predicate Inv(limit: nat, s: State, k: nat, e: nat, m: nat) {
    && (s.used > 0 || s.pending > 0 ==> e <= limit)
    && (e <= limit ==> s.used + s.pending * m <= limit - e + k * m)
  }

  lemma MulMonotone(a: nat, b: nat, m: nat)
    requires a <= b
    ensures a * m <= b * m
  {
  }

  lemma NextKeepsInv(limit: nat, s: State, step: Step, k: nat, e: nat, m: nat)
    requires Inv(limit, s, k, e, m) && s.pending <= k && Next(limit, s, step).pending <= k
    requires (step.Assert? ==> step.estimate >= e) && (step.Record? ==> step.tokens <= m)
    ensures Inv(limit, Next(limit, s, step), k, e, m)
  {
    var d := Next(limit, s, step);
    match step
    case Assert(est) =>
      if d != s {
        assert (s.pending + 1) * m == s.pending * m + m;
        MulMonotone(s.pending + 1, k, m);
      }
    case Record(t) => if s.pending > 0 { assert (s.pending - 1) * m == s.pending * m - m; }
    case Fail => if s.pending > 0 { assert (s.pending - 1) * m == s.pending * m - m; }
    case NewMonth =>
  }

  lemma {:induction false} RunKeepsInv(limit: nat, s: State, steps: seq<Step>, k: nat, e: nat, m: nat)
    requires Inv(limit, s, k, e, m) && Within(limit, s, steps, k, e, m)
    ensures Inv(limit, Run(limit, s, steps), k, e, m)
    decreases steps
  {
    if steps != [] {
      NextKeepsInv(limit, s, steps[0], k, e, m);
      RunKeepsInv(limit, Next(limit, s, steps[0]), steps[1..], k, e, m);
    }
  }

  /** However requests interleave, across month ends too, usage never exceeds the limit by more than the
      requests that can be under way at once may add: it is at most limit - e + k * m, or nothing was used. */
  lemma {:induction false} UsageIsBounded(limit: nat, steps: seq<Step>, k: nat, e: nat, m: nat)
    requires Within(limit, INITIAL, steps, k, e, m)
    ensures var used := Run(limit, INITIAL, steps).used; used == 0 || used <= limit - e + k * m
  {
    RunKeepsInv(limit, INITIAL, steps, k, e, m);
    var s := Run(limit, INITIAL, steps);
    assert s.pending * m >= 0;
  }

  function Repeat(n: nat, step: Step): seq<Step> { if n == 0 then [] else [step] + Repeat(n - 1, step) }

  lemma {:induction false} RunAppend(limit: nat, s: State, a: seq<Step>, b: seq<Step>)
    ensures Run(limit, s, a + b) == Run(limit, Run(limit, s, a), b)
    decreases a
  {
    if a == [] {
      assert a + b == b;
    } else {
      assert (a + b)[1..] == a[1..] + b;
      RunAppend(limit, Next(limit, s, a[0]), a[1..], b);
    }
  }

  lemma {:induction false} WithinAppend(limit: nat, s: State, a: seq<Step>, b: seq<Step>, k: nat, e: nat, m: nat)
    requires Within(limit, s, a, k, e, m) && Within(limit, Run(limit, s, a), b, k, e, m)
    ensures Within(limit, s, a + b, k, e, m)
    decreases a
  {
    if a == [] {
      assert a + b == b;
    } else {
      assert (a + b)[1..] == a[1..] + b;
      WithinAppend(limit, Next(limit, s, a[0]), a[1..], b, k, e, m);
    }
  }

  lemma {:induction false} ManyAsserts(limit: nat, s: State, n: nat, k: nat, e: nat, m: nat)
    requires s.used + e <= limit && s.pending + n <= k
    ensures Run(limit, s, Repeat(n, Assert(e))) == State(s.used, s.pending + n)
    ensures Within(limit, s, Repeat(n, Assert(e)), k, e, m)
    decreases n
  {
    if n > 0 { ManyAsserts(limit, State(s.used, s.pending + 1), n - 1, k, e, m); }
  }

  lemma {:induction false} ManyRecords(limit: nat, s: State, n: nat, k: nat, e: nat, m: nat)
    requires n <= s.pending <= k
    ensures Run(limit, s, Repeat(n, Record(m))) == State(s.used + n * m, s.pending - n)
    ensures Within(limit, s, Repeat(n, Record(m)), k, e, m)
    decreases n
  {
    if n > 0 {
      ManyRecords(limit, State(s.used + m, s.pending - 1), n - 1, k, e, m);
      assert n * m == (n - 1) * m + m;
    }
  }

  /** Requests of one token each, one at a time. */
  function OneByOne(n: nat, e: nat): seq<Step> {
    if n == 0 then [] else [Assert(e)] + ([Record(1)] + OneByOne(n - 1, e))
  }

  lemma {:induction false} UsedUp(limit: nat, u: nat, n: nat, k: nat, e: nat, m: nat)
    requires u + n + e <= limit && k >= 1 && m >= 1
    ensures Run(limit, State(u, 0), OneByOne(n, e)) == State(u + n, 0)
    ensures Within(limit, State(u, 0), OneByOne(n, e), k, e, m)
    decreases n
  {
    if n > 0 {
      var rest := OneByOne(n - 1, e);
      UsedUp(limit, u + 1, n - 1, k, e, m);
      assert ([Record(1)] + rest)[1..] == rest;
      assert Run(limit, State(u, 1), [Record(1)] + rest) == Run(limit, State(u + 1, 0), rest);
      assert Within(limit, State(u, 1), [Record(1)] + rest, k, e, m);
      assert OneByOne(n, e)[1..] == [Record(1)] + rest;
    }
  }

  /** The bound is met from an unused month: small requests use the budget up to the last amount at which a
      request still passes, and then k concurrent ones overshoot by all they may. */
  lemma BoundIsReached(limit: nat, k: nat, e: nat, m: nat) returns (steps: seq<Step>)
    requires e <= limit && k >= 1 && m >= 1
    ensures Within(limit, INITIAL, steps, k, e, m) && Run(limit, INITIAL, steps).used == limit - e + k * m
  {
    var fill, asserts, records := OneByOne(limit - e, e), Repeat(k, Assert(e)), Repeat(k, Record(m));
    var full := State(limit - e, 0);
    steps := fill + (asserts + records);
    hide Run, Within, Next, OneByOne, Repeat;
    UsedUp(limit, 0, limit - e, k, e, m);
    ManyAsserts(limit, full, k, k, e, m);
    ManyRecords(limit, State(limit - e, k), k, k, e, m);
    RunAppend(limit, full, asserts, records);
    WithinAppend(limit, full, asserts, records, k, e, m);
    RunAppend(limit, INITIAL, fill, asserts + records);
    WithinAppend(limit, INITIAL, fill, asserts + records, k, e, m);
  }
}
