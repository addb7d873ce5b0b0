/**
 The serial gate in front of every LLM call. AiExecutorService.execute and ThrottledApiQueue.schedule
 share this code: a promise chain with one link per accepted call, in-flight deduplication by key,
 a depth cap, a minimum gap, bounded retry after rate limiting, and (executor only) a cross-replica
 slot held around the call. A `Config` says which of the two is meant.

 Every step is one uninterrupted stretch of event-loop code between two awaits.
 */
module SerialChain {
  import opened Common

  const MIN_GAP_MS := 300
  const MAX_QUEUE_DEPTH := 10

  /** `abortFirst`: the signal is tested before deduplication; `signalInRetry`: and before every attempt. */
  datatype Config = Config(delays: seq<nat>, abortFirst: bool, signalInRetry: bool, semaphore: bool)

  const EXECUTOR := Config([1_000, 2_000], true, true, true)
  const QUEUE := Config([1_000, 2_000, 4_000], false, false, false)

  type Key = int
  type Time = int

  /** How one invocation of `fn` ended; a rate-limit error is one that is429 recognises. */
  datatype FnResult = Value(v: int) | RateLimited(e: int) | Error(e: int)

  datatype Outcome = Resolved(v: int) | Aborted | GlobalCapacity | Failed(e: int)

  /** One finished attempt of a call. */
  datatype Try = Try(start: Time, end: Time, result: FnResult)

  /** Where the body chained for one accepted call stands. A settled promise is cleaned up (key and
      depth released) by its `finally` callback before the next link of the chain can run. */
  datatype Phase =
    | Waiting
    | Gap(until: Time)
    | Calling(since: Time)
    | Backoff(until: Time)
    | Settled(outcome: Outcome, at: Time)
    | Cleaned(outcome: Outcome, at: Time)

  /** An accepted call: its key, the call whose promise it is chained on, its phase and attempts so far. */
  datatype Call = Call(key: Key, after: Option<nat>, phase: Phase, tries: seq<Try>)

  datatype State = State(now: Time, calls: seq<Call>, tail: Option<nat>, lastCallAt: Time,
                         queueDepth: int, inFlight: map<Key, nat>, acquired: nat, released: nat)

  const INITIAL := State(0, [], None, 0, 0, map[], 0, 0)

  datatype Reply = AbortedBeforeQueuing | Joined(id: nat) | Overloaded | Accepted(id: nat)

  // ---------------------------------------------------------------- steps

  /** execute / schedule up to the returned promise. */
  function Arrive(cfg: Config, s: State, key: Key, aborted: bool): (State, Reply) {
    if cfg.abortFirst && aborted then (s, AbortedBeforeQueuing)
    else if key in s.inFlight then (s, Joined(s.inFlight[key]))
    else if aborted then (s, AbortedBeforeQueuing)
    else if s.queueDepth >= MAX_QUEUE_DEPTH then (s, Overloaded)
    else
      var id := |s.calls|;
      (s.(calls := s.calls + [Call(key, s.tail, Waiting, [])], tail := Some(id),
          queueDepth := s.queueDepth + 1, inFlight := s.inFlight[key := id]),
       Accepted(id))
  }

  predicate Ready(s: State, id: nat) {
    && id < |s.calls| && s.calls[id].phase.Waiting?
    && (s.calls[id].after.None? ||
        (s.calls[id].after.value < |s.calls| && s.calls[s.calls[id].after.value].phase.Cleaned?))
  }

  function Put(s: State, id: nat, p: Phase): State
    requires id < |s.calls|
  {
    s.(calls := s.calls[id := s.calls[id].(phase := p)])
  }

  /** The chained body starts: skip if aborted, otherwise wait out the gap. */
  function Begin(s: State, id: nat, aborted: bool): State {
    if !Ready(s, id) then s
    else if aborted then Put(s, id, Settled(Aborted, s.now))
    else
      var elapsed := s.now - s.lastCallAt;
      Put(s, id, Gap(if elapsed < MIN_GAP_MS then s.now + (MIN_GAP_MS - elapsed) else s.now))
  }

  function Release(cfg: Config, s: State): State {
    if cfg.semaphore then s.(released := s.released + 1) else s
  }

  /** The gap is over: take a global slot and make the first attempt. */
  function Acquire(cfg: Config, s: State, id: nat, granted: bool, aborted: bool): State {
    if !(id < |s.calls| && s.calls[id].phase.Gap? && s.now >= s.calls[id].phase.until) then s
    else if cfg.semaphore && !granted then Put(s, id, Settled(GlobalCapacity, s.now))
    else
      var t := if cfg.semaphore then s.(acquired := s.acquired + 1) else s;
      if cfg.signalInRetry && aborted then Release(cfg, Put(t, id, Settled(Aborted, s.now)))
      else Put(t, id, Calling(s.now))
  }

  /** The attempt under way ends. */
  function Return(cfg: Config, s: State, id: nat, r: FnResult): State {
    if !(id < |s.calls| && s.calls[id].phase.Calling?) then s
    else
      var c := s.calls[id];
      var attempt := |c.tries|;
      var t := s.(calls := s.calls[id := c.(tries := c.tries + [Try(c.phase.since, s.now, r)])]);
      match r
      case Value(v) => Release(cfg, Put(t.(lastCallAt := s.now), id, Settled(Resolved(v), s.now)))
      case RateLimited(e) =>
        if attempt < |cfg.delays| then Put(t, id, Backoff(s.now + cfg.delays[attempt]))
        else Release(cfg, Put(t, id, Settled(Failed(e), s.now)))
      case Error(e) => Release(cfg, Put(t, id, Settled(Failed(e), s.now)))
  }

  /** A back-off sleep ends and the next attempt starts. */
  function Wake(cfg: Config, s: State, id: nat, aborted: bool): State {
    if !(id < |s.calls| && s.calls[id].phase.Backoff? && s.now >= s.calls[id].phase.until) then s
    else
      var t := s.(lastCallAt := s.now);
      if cfg.signalInRetry && aborted then Release(cfg, Put(t, id, Settled(Aborted, s.now)))
      else Put(t, id, Calling(s.now))
  }

  /** The `finally` callback of a settled promise. */
  function Cleanup(s: State, id: nat): State {
    if !(id < |s.calls| && s.calls[id].phase.Settled?) then s
    else
      var c := s.calls[id];
      Put(s, id, Cleaned(c.phase.outcome, c.phase.at))
      .(inFlight := s.inFlight - {c.key}, queueDepth := s.queueDepth - 1)
  }

  datatype Step =
    | Tick(to: Time)
    | ArriveStep(key: Key, aborted: bool)
    | BeginStep(id: nat, aborted: bool)
    | AcquireStep(id: nat, granted: bool, aborted: bool)
    | ReturnStep(id: nat, result: FnResult)
    | WakeStep(id: nat, aborted: bool)
    | CleanupStep(id: nat)

  function Next(cfg: Config, s: State, step: Step): State {
    match step
    case Tick(to) => s.(now := if to >= s.now then to else s.now)
    case ArriveStep(key, aborted) => Arrive(cfg, s, key, aborted).0
    case BeginStep(id, aborted) => Begin(s, id, aborted)
    case AcquireStep(id, granted, aborted) => Acquire(cfg, s, id, granted, aborted)
    case ReturnStep(id, r) => Return(cfg, s, id, r)
    case WakeStep(id, aborted) => Wake(cfg, s, id, aborted)
    case CleanupStep(id) => Cleanup(s, id)
  }

  function Run(cfg: Config, s: State, steps: seq<Step>): State
    decreases steps
  {
    if steps == [] then s else Run(cfg, Next(cfg, s, steps[0]), steps[1..])
  }

  // ---------------------------------------------------------------- the service as an object

  class ApiChain {
    const cfg: Config
    var now: Time
    var calls: seq<Call>
    var tail: Option<nat>
    var lastCallAt: Time
    var queueDepth: int
    var inFlight: map<Key, nat>
    var acquired: nat
    var released: nat

    function View(): State
      reads this
    {
      State(now, calls, tail, lastCallAt, queueDepth, inFlight, acquired, released)
    }

    constructor (cfg: Config)
      ensures View() == INITIAL && this.cfg == cfg
    {
      this.cfg := cfg;
      now, calls, tail, lastCallAt, queueDepth, inFlight, acquired, released := 0, [], None, 0, 0, map[], 0, 0;
    }

    method Execute(key: Key, aborted: bool) returns (reply: Reply)
      modifies this
      ensures (View(), reply) == Arrive(cfg, old(View()), key, aborted)
    {
      if cfg.abortFirst && aborted { return AbortedBeforeQueuing; }
      if key in inFlight { return Joined(inFlight[key]); }
      if aborted { return AbortedBeforeQueuing; }
      if queueDepth >= MAX_QUEUE_DEPTH { return Overloaded; }
      queueDepth := queueDepth + 1;
      var id := |calls|;
      calls := calls + [Call(key, tail, Waiting, [])];
      tail := Some(id);
      inFlight := inFlight[key := id];
      return Accepted(id);
    }

    method SetPhase(id: nat, p: Phase)
      requires id < |calls|
      modifies this`calls
      ensures View() == Put(old(View()), id, p)
    {
      calls := calls[id := calls[id].(phase := p)];
    }

    method ReleaseGlobalSlot()
      modifies this`released
      ensures View() == Release(cfg, old(View()))
    {
      if cfg.semaphore { released := released + 1; }
    }

    /** The chained body up to the end of enforceGap's bookkeeping. */
    method StartBody(id: nat, aborted: bool)
      requires Ready(View(), id)
      modifies this
      ensures View() == Begin(old(View()), id, aborted)
    {
      if aborted {
        SetPhase(id, Settled(Aborted, now));
        return;
      }
      var wait := 0;
      var elapsed := now - lastCallAt;
      if elapsed < MIN_GAP_MS { wait := MIN_GAP_MS - elapsed; }
      SetPhase(id, Gap(now + wait));
    }

    method StartCall(id: nat, granted: bool, aborted: bool)
      requires id < |calls| && calls[id].phase.Gap? && now >= calls[id].phase.until
      modifies this
      ensures View() == Acquire(cfg, old(View()), id, granted, aborted)
    {
      if cfg.semaphore {
        if !granted {
          SetPhase(id, Settled(GlobalCapacity, now));
          return;
        }
        acquired := acquired + 1;
      }
      if cfg.signalInRetry && aborted {
        SetPhase(id, Settled(Aborted, now));
        ReleaseGlobalSlot();
      } else {
        SetPhase(id, Calling(now));
      }
    }

    method AttemptEnded(id: nat, r: FnResult)
      requires id < |calls| && calls[id].phase.Calling?
      modifies this
      ensures View() == Return(cfg, old(View()), id, r)
    {
      var attempt := |calls[id].tries|;
      calls := calls[id := calls[id].(tries := calls[id].tries + [Try(calls[id].phase.since, now, r)])];
      if r.RateLimited? && attempt < |cfg.delays| {
        SetPhase(id, Backoff(now + cfg.delays[attempt]));
        return;
      }
      if r.Value? {
        lastCallAt := now;
        SetPhase(id, Settled(Resolved(r.v), now));
      } else {
        SetPhase(id, Settled(Failed(r.e), now));
      }
      ReleaseGlobalSlot();
    }

    method BackoffEnded(id: nat, aborted: bool)
      requires id < |calls| && calls[id].phase.Backoff? && now >= calls[id].phase.until
      modifies this
      ensures View() == Wake(cfg, old(View()), id, aborted)
    {
      lastCallAt := now;
      if cfg.signalInRetry && aborted {
        SetPhase(id, Settled(Aborted, now));
        ReleaseGlobalSlot();
      } else {
        SetPhase(id, Calling(now));
      }
    }

    method Finally(id: nat)
      requires id < |calls| && calls[id].phase.Settled?
      modifies this
      ensures View() == Cleanup(old(View()), id)
    {
      var c := calls[id];
      inFlight := inFlight - {c.key};
      queueDepth := queueDepth - 1;
      SetPhase(id, Cleaned(c.phase.outcome, c.phase.at));
    }
  }

  // ---------------------------------------------------------------- the retry loop by itself

  function SumOf(xs: seq<nat>): nat {
    if xs == [] then 0 else SumOf(xs[..|xs| - 1]) + xs[|xs| - 1]
  }

  /** What the attempts of one settled call must look like: at most one more than there are delays, all
      but the last rate limited, and an outcome that is the last attempt's unless the signal cut in. */
  predicate Explains(cfg: Config, rs: seq<FnResult>, o: Outcome) {
    && |rs| <= |cfg.delays| + 1
    && (forall i | 0 <= i < |rs| - 1 :: rs[i].RateLimited?)
    && match o
       case Resolved(v) => rs != [] && rs[|rs| - 1] == Value(v)
       case Failed(e) =>
         rs != [] && (rs[|rs| - 1] == Error(e) || (rs[|rs| - 1] == RateLimited(e) && |rs| == |cfg.delays| + 1))
       case GlobalCapacity => cfg.semaphore && rs == []
       case Aborted => (rs != [] ==> cfg.signalInRetry && rs[|rs| - 1].RateLimited?) && |rs| <= |cfg.delays|
  }

  /** withRetry: `fn(i)` is the result of attempt i, `aborted(i)` the signal just before it. The loop
      always returns from inside, so its trailing throw is never reached. */
  method WithRetry(cfg: Config, fn: nat -> FnResult, aborted: nat -> bool) returns (o: Outcome, tried: nat, slept: nat)
    ensures Explains(cfg, seq(tried, i requires 0 <= i => fn(i)), o) && !o.GlobalCapacity?
    ensures o.Aborted? <==> cfg.signalInRetry && tried <= |cfg.delays| && aborted(tried)
                            && (tried == 0 || fn(tried - 1).RateLimited?)
    ensures cfg.signalInRetry ==> forall i | 0 <= i < tried :: !aborted(i)
    ensures slept == SumOf(cfg.delays[..if o.Aborted? then tried else tried - 1])
  {
    tried, slept := 0, 0;
    for attempt := 0 to |cfg.delays| + 1
      invariant tried == attempt
      invariant forall i | 0 <= i < attempt :: fn(i).RateLimited?
      invariant cfg.signalInRetry ==> forall i | 0 <= i < attempt :: !aborted(i)
      invariant attempt <= |cfg.delays| && slept == SumOf(cfg.delays[..attempt])
    {
      if cfg.signalInRetry && aborted(attempt) { return Aborted, tried, slept; }
      tried := tried + 1;
      match fn(attempt) {
        case Value(v) => return Resolved(v), tried, slept;
        case Error(e) => return Failed(e), tried, slept;
        case RateLimited(e) =>
          if attempt == |cfg.delays| { return Failed(e), tried, slept; }
          assert cfg.delays[..attempt + 1][..attempt] == cfg.delays[..attempt];
          slept := slept + cfg.delays[attempt];
      }
    }
    assert false;
  }

}
