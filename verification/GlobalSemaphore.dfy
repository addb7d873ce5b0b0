/**
 The cross-replica limit on concurrent LLM calls: a Redis counter whose TTL is set only when it goes
 from 0 to 1. Any number of replicas take and return slots; `calls` lists when each slot now held was taken.
 */
module GlobalSemaphore {
  import opened Common
  import opened RedisCounter

  const LIMIT := 3
  const TTL_MS := 300_000

  // ---------------------------------------------------------------- Redis scripts

  /** ACQUIRE_SLOT_LUA */
  function AcquireScript(c: Counter, now: int): (Counter, bool) {
    var up := Add(c, now, 1);
    if up.val > LIMIT then (Add(up, now, -1), false)
    else if up.val == 1 then (ExpireAt(up, now + TTL_MS), true)
    else (up, true)
  }

  class GlobalSlots {
    const redis: Redis

    constructor (redis: Redis)
      ensures this.redis == redis
    {
      this.redis := redis;
    }

    method AcquireGlobalSlot() returns (acquired: bool)
      modifies redis`counter
      ensures (redis.counter, acquired) == AcquireScript(old(redis.counter), redis.now)
      ensures !acquired ==> Read(redis.counter, redis.now) == Read(old(redis.counter), redis.now)
      ensures acquired <==> Read(old(redis.counter), redis.now) < LIMIT
    {
      var val := redis.IncrBy(1);
      if val > LIMIT {
        var _ := redis.IncrBy(-1);
        return false;
      }
      if val == 1 { redis.Expire(TTL_MS); }
      return true;
    }

    /** The DECR of releaseGlobalSlot; the caller still owes a SET 0 if this reports a negative value. */
    method Decrement() returns (negative: bool)
      modifies redis`counter
      ensures redis.counter == Add(old(redis.counter), redis.now, -1)
      ensures negative <==> Read(old(redis.counter), redis.now) <= 0
    {
      var val := redis.IncrBy(-1);
      negative := val < 0;
    }
  }

  // ---------------------------------------------------------------- all replicas together

  /** `busySince` is when the number of held slots last left zero; `resets` counts releasers that saw a
      negative value and have yet to send SET 0. */
  datatype State = State(now: int, counter: Counter, calls: seq<int>, busySince: int, resets: nat)

  const INITIAL := State(0, Missing, [], 0, 0)

  datatype Step = Tick(to: int) | Acquire | Release(which: nat) | Reset

  function Next(s: State, step: Step): State {
    match step
    case Tick(to) => s.(now := if to >= s.now then to else s.now)
    case Acquire =>
      var (c, ok) := AcquireScript(s.counter, s.now);
      if ok then s.(counter := c, calls := s.calls + [s.now], busySince := if s.calls == [] then s.now else s.busySince)
      else s.(counter := c)
    case Release(i) =>
      if i >= |s.calls| then s
      else
        var c := Add(s.counter, s.now, -1);
        s.(counter := c, calls := s.calls[..i] + s.calls[i + 1..],
           resets := if c.val < 0 then s.resets + 1 else s.resets)
    case Reset => if s.resets == 0 then s else s.(counter := Stored(0, None), resets := s.resets - 1)
  }

  function Run(s: State, steps: seq<Step>): State
    decreases steps
  {
    if steps == [] then s else Run(Next(s, steps[0]), steps[1..])
  }

  /** The current busy period is no longer than the TTL. */
  predicate OnTime(s: State) { s.calls != [] ==> s.now <= s.busySince + TTL_MS }

  predicate OnTimeRun(s: State, steps: seq<Step>)
    decreases steps
  {
    OnTime(s) && (steps == [] || OnTimeRun(Next(s, steps[0]), steps[1..]))
  }

  predicate Exact(s: State) {
    && Read(s.counter, s.now) == |s.calls| <= LIMIT
    && s.resets == 0
    && (s.calls != [] ==> s.counter.Stored? && s.counter.expiresAt == Some(s.busySince + TTL_MS))
  }

  lemma NextKeepsExact(s: State, step: Step)
    requires Exact(s) && OnTime(s) && OnTime(Next(s, step))
    ensures Exact(Next(s, step))
  {
  }

  lemma {:induction false} RunKeepsExact(s: State, steps: seq<Step>)
    requires Exact(s) && OnTimeRun(s, steps)
    ensures Exact(Run(s, steps)) && OnTime(Run(s, steps))
    decreases steps
  {
    if steps != [] {
      NextKeepsExact(s, steps[0]);
      RunKeepsExact(Next(s, steps[0]), steps[1..]);
    }
  }

  /** While no busy period outlasts the TTL, the counter is the number of slots held across all replicas,
      at most 3; a call is refused exactly when 3 are held, and the negative-value repair never runs. */
  lemma {:induction false} CounterIsExact(steps: seq<Step>)
    requires OnTimeRun(INITIAL, steps)
    ensures var s := Run(INITIAL, steps);
            && 0 <= Read(s.counter, s.now) == |s.calls| <= 3 && s.resets == 0
            && (AcquireScript(s.counter, s.now).1 <==> |s.calls| < 3)
            && (!AcquireScript(s.counter, s.now).1 ==>
                  Read(AcquireScript(s.counter, s.now).0, s.now) == Read(s.counter, s.now))
  {
    RunKeepsExact(INITIAL, steps);
  }

  /** Exactly when the passing of time breaks the count: when it takes a busy period past its TTL. */
  lemma CountSurvivesTimeIff(s: State, to: int)
    requires Exact(s) && OnTime(s)
    ensures var d := Next(s, Tick(to));
            && (Read(d.counter, d.now) == |d.calls| <==> OnTime(d))
            && (OnTime(d) <==> d.calls == [] || d.now <= s.busySince + 300_000)
  {
  }

  lemma RunThree(s: State, a: Step, b: Step, c: Step)
    ensures Run(s, [a, b, c]) == Next(Next(Next(s, a), b), c)
  {
    assert [a, b, c][1..] == [b, c] && [b, c][1..] == [c] && [c][1..] == [];
    assert Run(s, [a, b, c]) == Run(Next(s, a), [b, c]);
    assert Run(Next(s, a), [b, c]) == Run(Next(Next(s, a), b), [c]);
  }

  /** And from then on the limit is gone: three more calls get slots on top of those held. */
  lemma OverlongBusyPeriodOverfills(s: State)
    requires Exact(s) && OnTime(s) && s.calls != []
    ensures var late := Next(s, Tick(s.busySince + TTL_MS + 1));
            |Run(late, [Acquire, Acquire, Acquire]).calls| == |s.calls| + LIMIT > LIMIT
  {
    var late := Next(s, Tick(s.busySince + TTL_MS + 1));
    RunThree(late, Acquire, Acquire, Acquire);
  }

  predicate Short(s: State, bound: int) { forall at | at in s.calls :: s.now - at <= bound }

  /** No slot has been held longer than `bound`, at any point of the run. */
  predicate ShortCalls(s: State, steps: seq<Step>, bound: int)
    decreases steps
  {
    && Short(s, bound)
    && (steps == [] || ShortCalls(Next(s, steps[0]), steps[1..], bound))
  }

  lemma Prepend(s: State, step: Step, d: State, rest: seq<Step>) returns (steps: seq<Step>)
    requires Next(s, step) == d && ShortCalls(d, rest, 151_000)
    requires Short(s, 151_000)
    ensures ShortCalls(s, steps, 151_000) && Run(s, steps) == Run(d, rest)
  {
    steps := [step] + rest;
    assert steps[1..] == rest;
  }

  lemma OverfillFrom(s5: State) returns (steps: seq<Step>)
    requires s5 == State(301_000, Stored(1, Some(TTL_MS)), [150_000], 0, 0)
    ensures ShortCalls(s5, steps, 151_000) && |Run(s5, steps).calls| == 4
  {
    var expiry := Some(301_000 + TTL_MS);
    var s6 := State(301_000, Stored(1, expiry), [150_000, 301_000], 0, 0);
    var s7 := State(301_000, Stored(2, expiry), [150_000, 301_000, 301_000], 0, 0);
    var s8 := State(301_000, Stored(3, expiry), [150_000, 301_000, 301_000, 301_000], 0, 0);
    steps := [];
    steps := Prepend(s7, Acquire, s8, steps);
    steps := Prepend(s6, Acquire, s7, steps);
    steps := Prepend(s5, Acquire, s6, steps);
  }

  lemma ReleaseOldest(s: State)
    requires s.calls != [] && Read(s.counter, s.now) > 0
    ensures Next(s, Release(0)) == s.(counter := Add(s.counter, s.now, -1), calls := s.calls[1..])
  {
    assert s.calls[..0] + s.calls[1..] == s.calls[1..];
  }

  lemma OverlapUntil(s2: State) returns (steps: seq<Step>)
    requires s2 == State(150_000, Stored(1, Some(TTL_MS)), [0], 0, 0)
    ensures ShortCalls(s2, steps, 151_000) && |Run(s2, steps).calls| == 4
  {
    var s3 := State(150_000, Stored(2, Some(TTL_MS)), [0, 150_000], 0, 0);
    var s4 := State(150_000, Stored(1, Some(TTL_MS)), [150_000], 0, 0);
    var s5 := State(301_000, Stored(1, Some(TTL_MS)), [150_000], 0, 0);
    assert Next(s2, Acquire) == s3 && Next(s4, Tick(301_000)) == s5;
    assert Short(s2, 151_000) && Short(s3, 151_000) && Short(s4, 151_000);
    hide Next, ShortCalls, Short, Run;
    ReleaseOldest(s3);
    assert [0, 150_000][1..] == [150_000];
    steps := OverfillFrom(s5);
    steps := Prepend(s4, Tick(301_000), s5, steps);
    steps := Prepend(s3, Release(0), s4, steps);
    steps := Prepend(s2, Acquire, s3, steps);
  }

  /** Short calls are not enough, since only a return to zero renews the TTL: two overlapping calls of
      about 150 s each keep the counter busy for 301 s, and then four calls hold slots at once. */
  lemma ShortCallsCanOverfill() returns (steps: seq<Step>)
    ensures ShortCalls(INITIAL, steps, 151_000) && |Run(INITIAL, steps).calls| == 4 > LIMIT
  {
    var s1 := State(0, Stored(1, Some(TTL_MS)), [0], 0, 0);
    var s2 := State(150_000, Stored(1, Some(TTL_MS)), [0], 0, 0);
    assert Next(INITIAL, Acquire) == s1 && Next(s1, Tick(150_000)) == s2;
    hide Next, ShortCalls, Run;
    steps := OverlapUntil(s2);
    steps := Prepend(s1, Tick(150_000), s2, steps);
    steps := Prepend(INITIAL, Acquire, s1, steps);
  }
}
