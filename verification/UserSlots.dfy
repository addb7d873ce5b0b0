/**
 Per-user limit on concurrent AI requests: the guard takes a slot in Redis before the handler runs and
 marks the request, the interceptor returns the slot of a marked request when it ends. The slot counter
 has a safety TTL that every grant renews. One user's counter is modelled; users do not share keys.
 */
module UserSlots {
  import opened Common
  import opened Tiers
  import opened RedisCounter

  const AI_SLOT_SAFETY_TTL_MS := 120_000

  // ---------------------------------------------------------------- Redis scripts

  /** ACQUIRE_SCRIPT: the new count, or 0 if refused. */
  function AcquireScript(c: Counter, now: int, max: int, ttlMs: int): (Counter, int) {
    var up := Add(c, now, 1);
    if up.val > max then (Add(up, now, -1), 0) else (ExpireAt(up, now + ttlMs), up.val)
  }

  /** RELEASE_SCRIPT: never below zero, and the key goes with the last slot. */
  function ReleaseScript(c: Counter, now: int): Counter {
    if Read(c, now) <= 0 then c
    else
      var down := Add(c, now, -1);
      if down.val <= 0 then Missing else down
  }

  class AiConcurrencyService {
    const redis: Redis

    constructor (redis: Redis)
      ensures this.redis == redis
    {
      this.redis := redis;
    }

    method TryAcquire(maxConcurrent: int, safetyTtlMs: int) returns (granted: bool)
      modifies redis`counter
      ensures redis.counter == AcquireScript(old(redis.counter), redis.now, maxConcurrent, safetyTtlMs).0
      ensures granted <==> AcquireScript(old(redis.counter), redis.now, maxConcurrent, safetyTtlMs).1 > 0
    {
      var count := redis.IncrBy(1);
      if count > maxConcurrent {
        var _ := redis.IncrBy(-1);
        return false;
      }
      redis.Expire(safetyTtlMs);
      return count > 0;
    }

    method GetCount() returns (count: int)
      ensures count == Read(redis.counter, redis.now)
    {
      var c := redis.counter;
      if c.Missing? || (c.expiresAt.Some? && redis.now > c.expiresAt.value) { return 0; }
      return c.val;
    }

    method Release()
      modifies redis`counter
      ensures redis.counter == ReleaseScript(old(redis.counter), redis.now)
      ensures var before := old(Read(redis.counter, redis.now));
              Read(redis.counter, redis.now) == if before > 0 then before - 1 else before
    {
      var val := GetCount();
      if val <= 0 { return; }
      var newVal := redis.IncrBy(-1);
      if newVal <= 0 { redis.counter := Missing; }
    }
  }

  // ---------------------------------------------------------------- the guard

  datatype Role = SuperAdmin | Admin | SalesManager | SalesRep | OtherRole
  datatype User = User(id: Option<int>, sub: Option<int>, tenantId: Option<int>, tier: Option<Tier>, role: Role)

  function TierFromRole(role: Role): Tier {
    match role
    case SuperAdmin => Enterprise
    case Admin => Enterprise
    case SalesManager => Pro
    case SalesRep => Starter
    case OtherRole => Free
  }

  function AiMaxConcurrent(tier: Tier): (max: nat)
    ensures 1 <= max <= 5
  {
    match tier
    case Free => 1
    case Starter => 2
    case Pro => 3
    case Enterprise => 5
  }

  /** The user whose slot a request must take and how many that user may hold; None if the guard lets
      the request through without one. */
  function SlotNeeded(user: Option<User>): Option<(int, nat)> {
    if user.None? || user.value.tenantId.None? then None
    else
      var u := user.value;
      var userId := if u.id.Some? then u.id else u.sub;
      var tier := if u.tier.Some? then u.tier.value else TierFromRole(u.role);
      if u.role.Admin? || u.role.SuperAdmin? then None
      else if userId.None? then None
      else Some((userId.value, AiMaxConcurrent(tier)))
  }

  /** Who is limited: exactly the identifiable non-administrators of some tenant; and how many slots each may
      hold: by the tier if the user has one, by the role otherwise. */
  lemma WhoIsLimited(u: User)
    ensures SlotNeeded(Some(u)).Some? <==>
              u.tenantId.Some? && (u.id.Some? || u.sub.Some?) && !u.role.Admin? && !u.role.SuperAdmin?
    ensures SlotNeeded(Some(u)).Some? ==>
              SlotNeeded(Some(u)).value.0 == if u.id.Some? then u.id.value else u.sub.value
    ensures SlotNeeded(Some(u)).Some? && u.tier.Some? ==>
              SlotNeeded(Some(u)).value.1
              == (if u.tier.value.Free? then 1 else if u.tier.value.Starter? then 2
                  else if u.tier.value.Pro? then 3 else 5)
    ensures SlotNeeded(Some(u)).Some? && u.tier.None? ==>
              SlotNeeded(Some(u)).value.1 == if u.role.SalesManager? then 3 else if u.role.SalesRep? then 2 else 1
  {
  }

  datatype Verdict = Pass(markedFor: Option<int>) | Refuse503

  /** handleAiRequest, for a request whose limited user (if any) owns `slots`' key, and the interceptor. */
  class AiRequestGate {
    const slots: AiConcurrencyService

    constructor (slots: AiConcurrencyService)
      ensures this.slots == slots
    {
      this.slots := slots;
    }

    method HandleAiRequest(user: Option<User>) returns (verdict: Verdict)
      modifies slots.redis`counter
      ensures SlotNeeded(user).None? ==> verdict == Pass(None) && slots.redis.counter == old(slots.redis.counter)
      ensures SlotNeeded(user).Some? ==>
                var (userId, max) := SlotNeeded(user).value;
                var r := AcquireScript(old(slots.redis.counter), slots.redis.now, max, AI_SLOT_SAFETY_TTL_MS);
                slots.redis.counter == r.0 && verdict == if r.1 > 0 then Pass(Some(userId)) else Refuse503
    {
      if user.None? || user.value.tenantId.None? { return Pass(None); }
      var u := user.value;
      if u.role.Admin? || u.role.SuperAdmin? { return Pass(None); }
      var userId := if u.id.Some? then u.id else u.sub;
      if userId.None? { return Pass(None); }
      var tier := if u.tier.Some? then u.tier.value else TierFromRole(u.role);
      var acquired := slots.TryAcquire(AiMaxConcurrent(tier), AI_SLOT_SAFETY_TTL_MS);
      if !acquired { return Refuse503; }
      return Pass(userId);
    }

    /** The interceptor's finalize callback. */
    method FinalizeRequest(markedFor: Option<int>)
      modifies slots.redis`counter
      ensures slots.redis.counter == if markedFor.None? then old(slots.redis.counter)
                                     else ReleaseScript(old(slots.redis.counter), slots.redis.now)
    {
      if markedFor.None? { return; }
      slots.Release();
    }
  }

  // ---------------------------------------------------------------- one user's requests over time

  type ReqId = nat

  /** The marked requests under way, each with the time of its grant. */
  datatype State = State(now: int, counter: Counter, inFlight: map<ReqId, int>)

  const INITIAL := State(0, Missing, map[])

  datatype Step =
    | Tick(to: int)
    | Arrive(req: ReqId, max: nat)      // a limited request reaches the guard
    | Finish(req: ReqId)                // its handler ends and the interceptor releases
    | Abandon(req: ReqId)               // its server dies without releasing

  function Next(s: State, step: Step): State {
    match step
    case Tick(to) => s.(now := if to >= s.now then to else s.now)
    case Arrive(r, max) =>
      if r in s.inFlight then s
      else
        var (c, count) := AcquireScript(s.counter, s.now, max, AI_SLOT_SAFETY_TTL_MS);
        if count > 0 then s.(counter := c, inFlight := s.inFlight[r := s.now]) else s.(counter := c)
    case Finish(r) =>
      if r !in s.inFlight then s
      else s.(counter := ReleaseScript(s.counter, s.now), inFlight := s.inFlight - {r})
    case Abandon(r) => s.(inFlight := s.inFlight - {r})
  }

  function Run(s: State, steps: seq<Step>): State
    decreases steps
  {
    if steps == [] then s else Run(Next(s, steps[0]), steps[1..])
  }

  /** No request runs for more than 120 seconds from its own grant. */
  predicate InTime(s: State) { forall r | r in s.inFlight :: s.now <= s.inFlight[r] + 120_000 }

  predicate InTimeRun(s: State, steps: seq<Step>)
    decreases steps
  {
    InTime(s) && (steps == [] || InTimeRun(Next(s, steps[0]), steps[1..]))
  }

  predicate Caps(steps: seq<Step>, max: nat) { forall step | step in steps :: step.Arrive? ==> step.max <= max }

  /** Whatever the counter holds is gone after the deadline. */
  predicate Fading(s: State, deadline: int) {
    s.counter.Stored? ==>
      s.counter.val >= 0
      && (s.counter.val > 0 ==> s.counter.expiresAt.Some? && s.counter.expiresAt.value <= deadline)
  }

  predicate Inv(s: State, max: nat) {
    && |s.inFlight| <= Read(s.counter, s.now) <= max
    && (forall r | r in s.inFlight ::
          s.counter.Stored? && s.counter.expiresAt.Some?
          && s.inFlight[r] <= s.now && s.inFlight[r] + AI_SLOT_SAFETY_TTL_MS <= s.counter.expiresAt.value)
    && Fading(s, s.now + AI_SLOT_SAFETY_TTL_MS)
  }

  lemma EmptyIfNoKeys(m: map<ReqId, int>)
    requires forall r :: r !in m
    ensures |m| == 0
  {
    assert m == map[];
  }

  lemma TickKeepsInv(s: State, to: int, max: nat)
    requires Inv(s, max) && InTime(Next(s, Tick(to)))
    ensures Inv(Next(s, Tick(to)), max)
  {
    var d := Next(s, Tick(to));
    if Visible(d.counter, d.now).Missing? {
      forall r ensures r !in d.inFlight { }
      EmptyIfNoKeys(d.inFlight);
    }
  }

  lemma ArriveKeepsInv(s: State, r: ReqId, max: nat, bound: nat)
    requires Inv(s, bound) && InTime(s) && max <= bound
    ensures Inv(Next(s, Arrive(r, max)), bound)
  {
    if r !in s.inFlight { assert |s.inFlight[r := s.now]| == |s.inFlight| + 1; }
  }

  lemma FinishKeepsInv(s: State, r: ReqId, max: nat)
    requires Inv(s, max) && InTime(s)
    ensures Inv(Next(s, Finish(r)), max)
  {
    if r in s.inFlight {
      assert |s.inFlight - {r}| == |s.inFlight| - 1;
      if ReleaseScript(s.counter, s.now).Missing? { assert s.inFlight - {r} == map[]; }
    }
  }

  lemma AbandonKeepsInv(s: State, r: ReqId, max: nat)
    requires Inv(s, max)
    ensures Inv(Next(s, Abandon(r)), max)
  {
    if r in s.inFlight {
      assert |s.inFlight - {r}| == |s.inFlight| - 1;
    } else {
      assert s.inFlight - {r} == s.inFlight;
    }
  }

  lemma NextKeepsInv(s: State, step: Step, max: nat)
    requires Inv(s, max) && InTime(s) && InTime(Next(s, step))
    requires step.Arrive? ==> step.max <= max
    ensures Inv(Next(s, step), max)
  {
    hide Inv, InTime, Next;
    match step
    case Tick(to) => TickKeepsInv(s, to, max);
    case Arrive(r, m) => ArriveKeepsInv(s, r, m, max);
    case Finish(r) => FinishKeepsInv(s, r, max);
    case Abandon(r) => AbandonKeepsInv(s, r, max);
  }

  lemma {:induction false} RunKeepsInv(s: State, steps: seq<Step>, max: nat)
    requires Inv(s, max) && InTimeRun(s, steps) && Caps(steps, max)
    ensures Inv(Run(s, steps), max) && InTime(Run(s, steps))
    decreases steps
  {
    if steps != [] {
      NextKeepsInv(s, steps[0], max);
      RunKeepsInv(Next(s, steps[0]), steps[1..], max);
    }
  }

  /** If requests keep within the TTL of their own grant, then whatever finishes, fails or leaks, the
      requests under way never exceed the stored count, and that never exceeds the largest allowance asked for. */
  lemma {:induction false} InFlightWithinLimit(steps: seq<Step>, max: nat)
    requires InTimeRun(INITIAL, steps) && Caps(steps, max)
    ensures var s := Run(INITIAL, steps); |s.inFlight| <= Read(s.counter, s.now) <= max
  {
    RunKeepsInv(INITIAL, steps, max);
  }

  predicate NoLeaks(steps: seq<Step>) { forall step | step in steps :: !step.Abandon? }

  predicate Exact(s: State) { Read(s.counter, s.now) == |s.inFlight| }

  lemma TickKeepsExact(s: State, to: int, max: nat)
    requires Inv(s, max) && InTime(Next(s, Tick(to))) && Exact(s)
    ensures Exact(Next(s, Tick(to)))
  {
    var d := Next(s, Tick(to));
    if Visible(d.counter, d.now).Missing? {
      forall r ensures r !in d.inFlight { }
      EmptyIfNoKeys(d.inFlight);
    }
  }

  lemma ArriveKeepsExact(s: State, r: ReqId, max: nat, bound: nat)
    requires Inv(s, bound) && Exact(s)
    ensures Exact(Next(s, Arrive(r, max)))
  {
    if r !in s.inFlight { assert |s.inFlight[r := s.now]| == |s.inFlight| + 1; }
  }

  lemma FinishKeepsExact(s: State, r: ReqId, max: nat)
    requires Inv(s, max) && Exact(s)
    ensures Exact(Next(s, Finish(r)))
  {
    if r in s.inFlight { assert |s.inFlight - {r}| == |s.inFlight| - 1; }
  }

  lemma StepKeepsExact(s: State, step: Step, max: nat)
    requires Inv(s, max) && InTime(Next(s, step)) && !step.Abandon? && Exact(s)
    ensures Exact(Next(s, step))
  {
    hide Inv, InTime, Next, Exact;
    match step
    case Tick(to) => TickKeepsExact(s, to, max);
    case Arrive(r, m) => ArriveKeepsExact(s, r, m, max);
    case Finish(r) => FinishKeepsExact(s, r, max);
    case Abandon(_) => assert false;
  }

  lemma {:induction false} RunKeepsExact(s: State, steps: seq<Step>, max: nat)
    requires Inv(s, max) && InTimeRun(s, steps) && Caps(steps, max) && NoLeaks(steps)
    requires Exact(s)
    ensures Exact(Run(s, steps))
    decreases steps
  {
    if steps != [] {
      hide Inv, InTime, Next, Exact;
      assert steps[0] in steps;
      assert forall step | step in steps[1..] :: step in steps;
      NextKeepsInv(s, steps[0], max);
      StepKeepsExact(s, steps[0], max);
      RunKeepsExact(Next(s, steps[0]), steps[1..], max);
    }
  }

  /** If no request dies without releasing, the stored count is exactly the number of requests under way. */
  lemma {:induction false} CountIsExactWithoutLeaks(steps: seq<Step>, max: nat)
    requires InTimeRun(INITIAL, steps) && Caps(steps, max) && NoLeaks(steps)
    ensures var s := Run(INITIAL, steps); Read(s.counter, s.now) == |s.inFlight|
  {
    RunKeepsExact(INITIAL, steps, max);
  }

  /** A request is refused exactly when the stored count has reached its allowance. */
  lemma RefusedIffFull(s: State, r: ReqId, max: nat, bound: nat)
    requires Inv(s, bound) && r !in s.inFlight
    ensures r !in Next(s, Arrive(r, max)).inFlight <==> Read(s.counter, s.now) >= max
    ensures r !in Next(s, Arrive(r, max)).inFlight ==>
              Read(Next(s, Arrive(r, max)).counter, s.now) == Read(s.counter, s.now)
  {
  }

  /** The step gives nobody a slot. */
  predicate GrantsNone(s: State, step: Step) {
    step.Arrive? ==> step.req !in Next(s, step).inFlight || step.req in s.inFlight
  }

  predicate NobodyGranted(s: State, steps: seq<Step>)
    decreases steps
  {
    steps == [] || (GrantsNone(s, steps[0]) && NobodyGranted(Next(s, steps[0]), steps[1..]))
  }

  lemma StepKeepsFading(s: State, step: Step, deadline: int)
    requires Fading(s, deadline) && GrantsNone(s, step)
    ensures Fading(Next(s, step), deadline)
  {
  }

  lemma {:induction false} RunKeepsFading(s: State, steps: seq<Step>, deadline: int)
    requires Fading(s, deadline) && NobodyGranted(s, steps)
    ensures Fading(Run(s, steps), deadline)
    decreases steps
  {
    if steps != [] {
      hide Fading, GrantsNone, Next;
      StepKeepsFading(s, steps[0], deadline);
      RunKeepsFading(Next(s, steps[0]), steps[1..], deadline);
    }
  }

  /** Leaked slots come back: however many requests died without releasing, and however often the user is
      refused meanwhile, once nobody has been granted a slot for the safety TTL the count reads zero and the
      next request gets one. */
  lemma {:induction false} LeakedSlotsComeBack(s: State, bound: nat, steps: seq<Step>, r: ReqId, max: nat)
    requires Inv(s, bound) && NobodyGranted(s, steps)
    requires Run(s, steps).now > s.now + 120_000 && r !in Run(s, steps).inFlight && max > 0
    ensures var d := Run(s, steps);
            Read(d.counter, d.now) == 0 && r in Next(d, Arrive(r, max)).inFlight
  {
    RunKeepsFading(s, steps, s.now + AI_SLOT_SAFETY_TTL_MS);
  }

  /** Exactly when the passing of time undercounts: when the last grant's TTL ends with requests under way.
      The next request is then admitted even though the user is already at the limit. */
  lemma OverdueRequestsAreForgottenIff(s: State, max: nat, to: int, r: ReqId)
    requires Inv(s, max) && to >= s.now && r !in s.inFlight && max > 0
    ensures var d := Next(s, Tick(to));
            && (Read(d.counter, to) >= |d.inFlight| <==> d.inFlight == map[] || to <= s.counter.expiresAt.value)
            && (Read(d.counter, to) < |d.inFlight| == max ==> |Next(d, Arrive(r, max)).inFlight| == max + 1)
  {
    if s.inFlight != map[] {
      assert exists q :: q in s.inFlight by {
        if forall q :: q !in s.inFlight { EmptyIfNoKeys(s.inFlight); }
      }
      assert |s.inFlight| > 0;
      assert |s.inFlight[r := to]| == |s.inFlight| + 1;
    }
  }
}
