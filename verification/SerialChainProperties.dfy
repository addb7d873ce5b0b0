/** What the serial gate keeps over every run of arrivals, aborts, results, refusals and waits. */
module SerialChainProperties {
  import opened Common
  import opened SerialChain

  /** The oldest call whose promise has not been cleaned up; every call before it is done. */
  function Front(s: State): int { |s.calls| - s.queueDepth }

  /** The chain links calls in arrival order: a done prefix, one call at the front, a waiting rest. */
  predicate Shape(s: State) {
    && 0 <= s.queueDepth <= MAX_QUEUE_DEPTH && s.queueDepth <= |s.calls|
    && s.tail == (if |s.calls| == 0 then None else Some(|s.calls| - 1))
    && (forall i | 0 <= i < |s.calls| :: s.calls[i].after == if i == 0 then None else Some(i - 1))
    && (forall i | 0 <= i < Front(s) :: s.calls[i].phase.Cleaned?)
    && (forall i | Front(s) < i < |s.calls| :: s.calls[i].phase.Waiting?)
    && (Front(s) < |s.calls| ==> !s.calls[Front(s)].phase.Cleaned?)
  }

  /** `inFlight` is the inverse of the live calls' keys. */
  predicate Keys(s: State) {
    && (forall k | k in s.inFlight :: Front(s) <= s.inFlight[k] < |s.calls| && s.calls[s.inFlight[k]].key == k)
    && (forall i | 0 <= i < |s.calls| && Front(s) <= i ::
          s.calls[i].key in s.inFlight && s.inFlight[s.calls[i].key] == i)
  }

  predicate DelaysKept(cfg: Config, tries: seq<Try>) {
    && |tries| <= |cfg.delays| + 1
    && (forall i | 0 <= i < |tries| :: tries[i].start <= tries[i].end)
    && (forall i | 0 <= i < |tries| - 1 :: tries[i].end + cfg.delays[i] <= tries[i + 1].start)
  }

  function Results(tries: seq<Try>): seq<FnResult> { seq(|tries|, i requires 0 <= i < |tries| => tries[i].result) }

  predicate AllLimited(tries: seq<Try>) { forall i | 0 <= i < |tries| :: tries[i].result.RateLimited? }

  /** A promise settles after its last attempt, and with it unless the signal cut in. */
  predicate EndsAt(tries: seq<Try>, o: Outcome, at: Time) {
    tries != [] ==>
      tries[|tries| - 1].end <= at && (o.Resolved? || o.Failed? ==> at == tries[|tries| - 1].end)
  }

  /** One call's attempts fit its phase. */
  predicate CallOk(cfg: Config, c: Call) {
    && DelaysKept(cfg, c.tries)
    && match c.phase
       case Waiting => c.tries == []
       case Gap(_) => c.tries == []
       case Calling(since) =>
         && AllLimited(c.tries) && |c.tries| <= |cfg.delays|
         && (c.tries != [] ==> c.tries[|c.tries| - 1].end + cfg.delays[|c.tries| - 1] <= since)
       case Backoff(until) =>
         && AllLimited(c.tries) && 0 < |c.tries| <= |cfg.delays|
         && until == c.tries[|c.tries| - 1].end + cfg.delays[|c.tries| - 1]
       case Settled(o, at) => Explains(cfg, Results(c.tries), o) && EndsAt(c.tries, o, at)
       case Cleaned(o, at) => Explains(cfg, Results(c.tries), o) && EndsAt(c.tries, o, at)
  }

  /** When a call's first attempt began, and when its promise settled. */
  function FirstStart(c: Call): Option<Time> {
    if c.tries != [] then Some(c.tries[0].start) else if c.phase.Calling? then Some(c.phase.since) else None
  }

  function Done(c: Call): Option<Time> {
    if c.phase.Settled? || c.phase.Cleaned? then Some(c.phase.at) else None
  }

  function OutcomeOf(c: Call): Option<Outcome> {
    if c.phase.Settled? || c.phase.Cleaned? then Some(c.phase.outcome) else None
  }

  /** The calls whose end is recorded in lastCallAt: successes, and aborts on waking from a back-off. */
  predicate Stamped(c: Call) {
    OutcomeOf(c).Some? && (OutcomeOf(c).value.Resolved? || (OutcomeOf(c).value.Aborted? && c.tries != []))
  }

  /** One call against the clock: recorded ends are no later than lastCallAt, a gap ends well after it. */
  predicate CallClock(now: Time, last: Time, c: Call) {
    && (Done(c).Some? ==> Done(c).value <= now)
    && (c.phase.Calling? ==> c.phase.since <= now)
    && (Stamped(c) ==> Done(c).value <= last)
    && (c.phase.Gap? ==> c.phase.until >= last + MIN_GAP_MS)
  }

  predicate ClockOk(s: State) {
    s.lastCallAt <= s.now && forall i | 0 <= i < |s.calls| :: CallClock(s.now, s.lastCallAt, s.calls[i])
  }

  /** `a`'s promise settled before `b` first called out, and by the gap if its end was recorded. */
  predicate InOrder(a: Call, b: Call) {
    FirstStart(b).Some? ==>
      && Done(a).Some?
      && Done(a).value <= FirstStart(b).value
      && (Stamped(a) ==> Done(a).value + MIN_GAP_MS <= FirstStart(b).value)
  }

  /** Calls do not overlap, and one that follows a recorded end starts at least the gap later. */
  predicate Spaced(s: State) {
    forall i, j | 0 <= i < j < |s.calls| :: InOrder(s.calls[i], s.calls[j])
  }

  function InCall(s: State): int {
    if 0 <= Front(s) < |s.calls| && (s.calls[Front(s)].phase.Calling? || s.calls[Front(s)].phase.Backoff?) then 1 else 0
  }

  predicate Slots(cfg: Config, s: State) {
    if cfg.semaphore then s.acquired == s.released + InCall(s) else s.acquired == s.released == 0
  }

  predicate Inv(cfg: Config, s: State) {
    && Shape(s) && Keys(s) && ClockOk(s) && Spaced(s) && Slots(cfg, s)
    && forall i | 0 <= i < |s.calls| :: CallOk(cfg, s.calls[i])
  }

  // ---------------------------------------------------------------- one step

  lemma OnlyTheFrontMoves(s: State, id: nat)
    requires Shape(s) && id < |s.calls|
    ensures Ready(s, id) ==> id == Front(s)
    ensures !s.calls[id].phase.Waiting? && !s.calls[id].phase.Cleaned? ==> id == Front(s)
  {
  }

  lemma ResultsSnoc(tries: seq<Try>, t: Try)
    ensures Results(tries + [t]) == Results(tries) + [t.result]
  {
  }

  /** `d` is `s` with one more waiting call for `key` at the end of the chain. */
  predicate Extends(s: State, d: State, key: Key) {
    && d.calls == s.calls + [Call(key, s.tail, Waiting, [])] && d.tail == Some(|s.calls|)
    && s.queueDepth < MAX_QUEUE_DEPTH && d.queueDepth == s.queueDepth + 1
    && key !in s.inFlight && d.inFlight == s.inFlight[key := |s.calls|]
    && d.now == s.now && d.lastCallAt == s.lastCallAt && d.acquired == s.acquired && d.released == s.released
  }

  lemma ArriveExtends(cfg: Config, s: State, key: Key, aborted: bool)
    ensures var d := Arrive(cfg, s, key, aborted).0; d == s || Extends(s, d, key)
  {
  }

  lemma ExtensionKeepsShape(s: State, d: State, key: Key)
    requires Shape(s) && Extends(s, d, key)
    ensures Shape(d) && Front(d) == Front(s)
  {
    var n := |s.calls|;
    assert forall i | 0 <= i < n :: d.calls[i] == s.calls[i];
  }

  lemma ExtensionKeepsKeys(s: State, d: State, key: Key)
    requires Shape(s) && Keys(s) && Extends(s, d, key)
    ensures Keys(d)
  {
    var n := |s.calls|;
    assert forall i | 0 <= i < n :: d.calls[i] == s.calls[i];
  }

  lemma ExtensionKeepsSpaced(s: State, d: State, key: Key)
    requires ClockOk(s) && Spaced(s) && Extends(s, d, key)
    ensures ClockOk(d) && Spaced(d)
  {
    forall i, j | 0 <= i < j < |d.calls| ensures InOrder(d.calls[i], d.calls[j]) {
      if j < |s.calls| { assert InOrder(s.calls[i], s.calls[j]); }
    }
    forall i | 0 <= i < |d.calls| ensures CallClock(d.now, d.lastCallAt, d.calls[i]) {
      if i < |s.calls| { assert CallClock(s.now, s.lastCallAt, s.calls[i]); }
    }
  }

  lemma ExtensionKeepsCalls(cfg: Config, s: State, d: State, key: Key)
    requires Inv(cfg, s) && Extends(s, d, key)
    ensures Slots(cfg, d) && forall i | 0 <= i < |d.calls| :: CallOk(cfg, d.calls[i])
  {
    hide Keys, Spaced, ClockOk;
    forall i | 0 <= i < |d.calls| ensures CallOk(cfg, d.calls[i]) {
      if i < |s.calls| { assert CallOk(cfg, s.calls[i]); }
    }
  }

  lemma ArriveKeepsInv(cfg: Config, s: State, key: Key, aborted: bool)
    requires Inv(cfg, s)
    ensures Inv(cfg, Arrive(cfg, s, key, aborted).0)
  {
    hide Arrive, Shape, Keys, Spaced, ClockOk, Slots, CallOk, Extends;
    var d := Arrive(cfg, s, key, aborted).0;
    ArriveExtends(cfg, s, key, aborted);
    if d != s {
      ExtensionKeepsShape(s, d, key);
      ExtensionKeepsKeys(s, d, key);
      ExtensionKeepsSpaced(s, d, key);
      ExtensionKeepsCalls(cfg, s, d, key);
    }
  }

  /** A step that replaces the front call by `c`, which stays live. */
  predicate FrontBecomes(s: State, d: State, c: Call) {
    && Shape(s) && 0 <= Front(s) < |s.calls|
    && !c.phase.Waiting? && !c.phase.Cleaned?
    && c.key == s.calls[Front(s)].key && c.after == s.calls[Front(s)].after
    && d.calls == s.calls[Front(s) := c]
    && d.now == s.now && d.tail == s.tail && d.queueDepth == s.queueDepth && d.inFlight == s.inFlight
  }

  lemma FrontStepKeepsShape(s: State, d: State, c: Call)
    requires Shape(s) && Keys(s) && FrontBecomes(s, d, c)
    ensures Shape(d) && Keys(d) && Front(d) == Front(s)
    ensures forall i | 0 <= i < |s.calls| && i != Front(s) :: d.calls[i] == s.calls[i]
  {
  }

  lemma FrontStepKeepsSpaced(cfg: Config, s: State, d: State, c: Call)
    requires Inv(cfg, s) && FrontBecomes(s, d, c)
    requires FirstStart(c) == FirstStart(s.calls[Front(s)])
             || (FirstStart(c) == Some(s.now) && s.now >= s.lastCallAt + MIN_GAP_MS)
    ensures Spaced(d)
  {
    var f := Front(s);
    forall i, j | 0 <= i < j < |d.calls| ensures InOrder(d.calls[i], d.calls[j]) {
      if j > f {
        assert CallOk(cfg, s.calls[j]) && s.calls[j].phase.Waiting?;
        assert FirstStart(d.calls[j]).None?;
      } else {
        assert d.calls[i] == s.calls[i] && s.calls[i].phase.Cleaned?;
        assert InOrder(s.calls[i], s.calls[j]) && CallClock(s.now, s.lastCallAt, s.calls[i]);
      }
    }
  }

  lemma FrontStepKeepsInv(cfg: Config, s: State, d: State, c: Call)
    requires Inv(cfg, s) && FrontBecomes(s, d, c)
    requires CallOk(cfg, c) && Slots(cfg, d)
    requires s.lastCallAt <= d.lastCallAt <= s.now && CallClock(d.now, d.lastCallAt, c)
    requires FirstStart(c) == FirstStart(s.calls[Front(s)])
             || (FirstStart(c) == Some(s.now) && s.now >= s.lastCallAt + MIN_GAP_MS)
    ensures Inv(cfg, d)
  {
    FrontStepKeepsShape(s, d, c);
    FrontStepKeepsSpaced(cfg, s, d, c);
    forall i | 0 <= i < |d.calls| ensures CallClock(d.now, d.lastCallAt, d.calls[i]) && CallOk(cfg, d.calls[i]) {
      if i != Front(s) {
        assert d.calls[i] == s.calls[i] && CallClock(s.now, s.lastCallAt, s.calls[i]) && CallOk(cfg, s.calls[i]);
        assert s.calls[i].phase.Cleaned? || s.calls[i].phase.Waiting?;
      }
    }
  }

  lemma BeginKeepsInv(cfg: Config, s: State, id: nat, aborted: bool)
    requires Inv(cfg, s)
    ensures Inv(cfg, Begin(s, id, aborted))
  {
    if Ready(s, id) {
      OnlyTheFrontMoves(s, id);
      assert CallOk(cfg, s.calls[id]);
      var d := Begin(s, id, aborted);
      FrontStepKeepsInv(cfg, s, d, d.calls[id]);
    }
  }

  lemma AcquireKeepsInv(cfg: Config, s: State, id: nat, granted: bool, aborted: bool)
    requires Inv(cfg, s)
    ensures Inv(cfg, Acquire(cfg, s, id, granted, aborted))
  {
    if id < |s.calls| && s.calls[id].phase.Gap? && s.now >= s.calls[id].phase.until {
      OnlyTheFrontMoves(s, id);
      assert CallOk(cfg, s.calls[id]);
      var d := Acquire(cfg, s, id, granted, aborted);
      FrontStepKeepsInv(cfg, s, d, d.calls[id]);
    }
  }

  lemma DelaysKeptSnoc(cfg: Config, tries: seq<Try>, t: Try)
    requires DelaysKept(cfg, tries) && |tries| <= |cfg.delays| && t.start <= t.end
    requires tries != [] ==> tries[|tries| - 1].end + cfg.delays[|tries| - 1] <= t.start
    ensures DelaysKept(cfg, tries + [t])
  {
  }

  lemma ReturnedCallOk(cfg: Config, s: State, id: nat, r: FnResult)
    requires id < |s.calls| && s.calls[id].phase.Calling? && s.calls[id].phase.since <= s.now
    requires CallOk(cfg, s.calls[id])
    ensures CallOk(cfg, Return(cfg, s, id, r).calls[id])
  {
    var c := s.calls[id];
    var t := Try(c.phase.since, s.now, r);
    ResultsSnoc(c.tries, t);
    DelaysKeptSnoc(cfg, c.tries, t);
    hide DelaysKept, Results;
  }

  lemma ReturnMovesFront(cfg: Config, s: State, id: nat, r: FnResult)
    requires Shape(s) && ClockOk(s) && Slots(cfg, s) && id == Front(s) < |s.calls| && s.calls[id].phase.Calling?
    ensures var d := Return(cfg, s, id, r);
            && FrontBecomes(s, d, d.calls[id]) && Slots(cfg, d)
            && s.lastCallAt <= d.lastCallAt <= s.now && CallClock(d.now, d.lastCallAt, d.calls[id])
            && FirstStart(d.calls[id]) == FirstStart(s.calls[id])
  {
    hide Shape;
    assert CallClock(s.now, s.lastCallAt, s.calls[id]);
  }

  lemma ReturnKeepsInv(cfg: Config, s: State, id: nat, r: FnResult)
    requires Inv(cfg, s)
    ensures Inv(cfg, Return(cfg, s, id, r))
  {
    if id < |s.calls| && s.calls[id].phase.Calling? {
      OnlyTheFrontMoves(s, id);
      assert CallOk(cfg, s.calls[id]) && CallClock(s.now, s.lastCallAt, s.calls[id]);
      hide Return, Shape, Keys, Spaced, ClockOk, Slots, CallOk, FrontBecomes, FirstStart;
      ReturnedCallOk(cfg, s, id, r);
      ReturnMovesFront(cfg, s, id, r);
      var d := Return(cfg, s, id, r);
      FrontStepKeepsInv(cfg, s, d, d.calls[id]);
    }
  }

  lemma WakeKeepsInv(cfg: Config, s: State, id: nat, aborted: bool)
    requires Inv(cfg, s)
    ensures Inv(cfg, Wake(cfg, s, id, aborted))
  {
    if id < |s.calls| && s.calls[id].phase.Backoff? && s.now >= s.calls[id].phase.until {
      OnlyTheFrontMoves(s, id);
      assert CallOk(cfg, s.calls[id]);
      var d := Wake(cfg, s, id, aborted);
      FrontStepKeepsInv(cfg, s, d, d.calls[id]);
    }
  }

  lemma CleanupKeepsShape(s: State, id: nat)
    requires Shape(s) && Keys(s) && id < |s.calls| && s.calls[id].phase.Settled?
    ensures Shape(Cleanup(s, id)) && Keys(Cleanup(s, id)) && Front(Cleanup(s, id)) == id + 1 == Front(s) + 1
  {
    OnlyTheFrontMoves(s, id);
    var d := Cleanup(s, id);
    assert Shape(d) by { hide Keys; }
    hide Shape;
    forall k | k in d.inFlight ensures Front(d) <= d.inFlight[k] < |d.calls| && d.calls[d.inFlight[k]].key == k {
      assert k in s.inFlight && s.calls[id].key != k;
    }
  }

  lemma CleanupKeepsCalls(cfg: Config, s: State, id: nat)
    requires ClockOk(s) && Spaced(s) && id < |s.calls| && s.calls[id].phase.Settled?
    requires forall i | 0 <= i < |s.calls| :: CallOk(cfg, s.calls[i])
    ensures var d := Cleanup(s, id);
            ClockOk(d) && Spaced(d) && forall i | 0 <= i < |d.calls| :: CallOk(cfg, d.calls[i])
  {
    var d := Cleanup(s, id);
    assert d.calls == s.calls[id := d.calls[id]];
    forall i, j | 0 <= i < j < |d.calls| ensures InOrder(d.calls[i], d.calls[j]) {
      assert InOrder(s.calls[i], s.calls[j]);
    }
    assert CallClock(s.now, s.lastCallAt, s.calls[id]) && CallOk(cfg, s.calls[id]);
  }

  lemma CleanupKeepsInv(cfg: Config, s: State, id: nat)
    requires Inv(cfg, s)
    ensures Inv(cfg, Cleanup(s, id))
  {
    if id < |s.calls| && s.calls[id].phase.Settled? {
      CleanupKeepsShape(s, id);
      CleanupKeepsCalls(cfg, s, id);
      var d := Cleanup(s, id);
      assert id + 1 < |d.calls| ==> d.calls[id + 1] == s.calls[id + 1] && s.calls[id + 1].phase.Waiting?;
      assert InCall(d) == 0 == InCall(s);
    }
  }

  lemma TickKeepsInv(cfg: Config, s: State, to: Time)
    requires Inv(cfg, s)
    ensures Inv(cfg, Next(cfg, s, Tick(to)))
  {
    hide CallOk, InOrder;
    var d := Next(cfg, s, Tick(to));
    forall i | 0 <= i < |d.calls| ensures CallClock(d.now, d.lastCallAt, d.calls[i]) {
      assert CallClock(s.now, s.lastCallAt, s.calls[i]);
    }
  }

  lemma NextKeepsInv(cfg: Config, s: State, step: Step)
    requires Inv(cfg, s)
    ensures Inv(cfg, Next(cfg, s, step))
  {
    hide Inv, Arrive, Begin, Acquire, Return, Wake, Cleanup;
    match step
    case Tick(to) => TickKeepsInv(cfg, s, to);
    case ArriveStep(key, aborted) => ArriveKeepsInv(cfg, s, key, aborted);
    case BeginStep(id, aborted) => BeginKeepsInv(cfg, s, id, aborted);
    case AcquireStep(id, granted, aborted) => AcquireKeepsInv(cfg, s, id, granted, aborted);
    case ReturnStep(id, r) => ReturnKeepsInv(cfg, s, id, r);
    case WakeStep(id, aborted) => WakeKeepsInv(cfg, s, id, aborted);
    case CleanupStep(id) => CleanupKeepsInv(cfg, s, id);
  }

  lemma {:induction false} RunKeepsInv(cfg: Config, s: State, steps: seq<Step>)
    requires Inv(cfg, s)
    ensures Inv(cfg, Run(cfg, s, steps))
    decreases steps
  {
    if steps != [] {
      NextKeepsInv(cfg, s, steps[0]);
      RunKeepsInv(cfg, Next(cfg, s, steps[0]), steps[1..]);
    }
  }

  lemma ReachableInv(cfg: Config, steps: seq<Step>)
    ensures Inv(cfg, Run(cfg, INITIAL, steps))
  {
    RunKeepsInv(cfg, INITIAL, steps);
  }

  // ---------------------------------------------------------------- main results

  /** Once a call has left the queue every earlier one is completely finished: at most one `fn` runs at
      a time, calls start in arrival order, their running times do not overlap, and one that follows a
      success, or an abort on waking from a back-off, makes its first attempt at least 300 ms after it. */
  lemma {:induction false} CallsRunOneAtATimeInOrder(cfg: Config, steps: seq<Step>, i: nat, j: nat)
    requires i < j < |Run(cfg, INITIAL, steps).calls|
    ensures var s := Run(cfg, INITIAL, steps);
            && (!s.calls[j].phase.Waiting? ==> s.calls[i].phase.Cleaned?)
            && InOrder(s.calls[i], s.calls[j])
  {
    ReachableInv(cfg, steps);
  }

  predicate Live(s: State, i: nat) { i < |s.calls| && !s.calls[i].phase.Cleaned? }

  function LiveCalls(s: State): set<nat> { set i: nat | i < |s.calls| && Live(s, i) }

  function Range(lo: nat, hi: nat): (r: set<nat>)
    ensures forall i :: i in r <==> lo <= i < hi
    ensures lo <= hi ==> |r| == hi - lo
  {
    if lo >= hi then {} else Range(lo, hi - 1) + {hi - 1}
  }

  lemma DepthCountsLive(s: State)
    requires Shape(s)
    ensures s.queueDepth == |LiveCalls(s)|
  {
    assert LiveCalls(s) == Range(Front(s), |s.calls|);
  }

  /** `queueDepth` is the number of accepted calls not yet cleaned up and at most 10; `inFlight` maps
      exactly those calls' keys, each to its one call. */
  lemma {:induction false} DepthAndKeysAreExact(cfg: Config, steps: seq<Step>)
    ensures var s := Run(cfg, INITIAL, steps);
            && s.queueDepth == |LiveCalls(s)| <= 10
            && (forall k, i: nat :: (k in s.inFlight && s.inFlight[k] == i) <==> (Live(s, i) && s.calls[i].key == k))
            && (forall i: nat, j: nat | Live(s, i) && Live(s, j) && s.calls[i].key == s.calls[j].key :: i == j)
  {
    ReachableInv(cfg, steps);
    DepthCountsLive(Run(cfg, INITIAL, steps));
  }

  /** Some call under way has this key. */
  predicate Shared(s: State, key: Key) { exists i: nat | i < |s.calls| :: Live(s, i) && s.calls[i].key == key }

  lemma SharedIffInFlight(s: State, key: Key)
    requires Shape(s) && Keys(s)
    ensures Shared(s, key) <==> key in s.inFlight
    ensures key in s.inFlight ==> Live(s, s.inFlight[key]) && s.calls[s.inFlight[key]].key == key
  {
    if key in s.inFlight { assert Live(s, s.inFlight[key]); }
  }

  /** What an arriving call is told, in terms of the calls under way: it joins the one live call with its
      key, is refused when ten others are live, and is accepted otherwise; only acceptance changes anything. */
  lemma ArrivalReply(cfg: Config, s: State, key: Key, aborted: bool)
    requires Inv(cfg, s)
    ensures var (d, reply) := Arrive(cfg, s, key, aborted);
            && (reply.Joined? <==> Shared(s, key) && !(cfg.abortFirst && aborted))
            && (reply.Joined? ==> Live(s, reply.id) && s.calls[reply.id].key == key)
            && (reply.Overloaded? <==> !aborted && !Shared(s, key) && |LiveCalls(s)| == 10)
            && (reply.Accepted? <==> !aborted && !Shared(s, key) && |LiveCalls(s)| < 10)
            && (!reply.Accepted? ==> d == s)
            && (reply.Accepted? ==>
                  |LiveCalls(d)| == |LiveCalls(s)| + 1 && Live(d, reply.id) && d.calls[reply.id].key == key)
  {
    DepthCountsLive(s);
    SharedIffInFlight(s, key);
    var d := Arrive(cfg, s, key, aborted).0;
    ArriveExtends(cfg, s, key, aborted);
    if d != s {
      ExtensionKeepsShape(s, d, key);
      DepthCountsLive(d);
    }
  }

  /** A promise settles once: whatever happens later, everyone holding call `i` sees this outcome. */
  lemma {:induction false} OutcomeIsFinal(cfg: Config, s: State, steps: seq<Step>, i: nat)
    requires i < |s.calls| && OutcomeOf(s.calls[i]).Some?
    ensures var d := Run(cfg, s, steps);
            i < |d.calls| && OutcomeOf(d.calls[i]) == OutcomeOf(s.calls[i]) && d.calls[i].tries == s.calls[i].tries
    decreases steps
  {
    if steps != [] { OutcomeIsFinal(cfg, Next(cfg, s, steps[0]), steps[1..], i); }
  }

  /** No signal is up when it is tested, and every request for a slot is granted. */
  predicate Undisturbed(step: Step) {
    && (step.BeginStep? ==> !step.aborted)
    && (step.AcquireStep? ==> !step.aborted && step.granted)
    && (step.WakeStep? ==> !step.aborted)
  }

  predicate TurnedAway(c: Call) { OutcomeOf(c) == Some(Aborted) || OutcomeOf(c) == Some(GlobalCapacity) }

  predicate NoneTurnedAway(s: State) { forall i | 0 <= i < |s.calls| :: !TurnedAway(s.calls[i]) }

  lemma StepTurnsNoneAway(cfg: Config, s: State, step: Step)
    requires NoneTurnedAway(s) && Undisturbed(step)
    ensures NoneTurnedAway(Next(cfg, s, step))
  {
  }

  lemma {:induction false} RunTurnsNoneAway(cfg: Config, s: State, steps: seq<Step>)
    requires NoneTurnedAway(s) && forall step | step in steps :: Undisturbed(step)
    ensures NoneTurnedAway(Run(cfg, s, steps))
    decreases steps
  {
    if steps != [] {
      hide Next, NoneTurnedAway, Undisturbed;
      assert steps[0] in steps;
      assert forall step | step in steps[1..] :: step in steps;
      StepTurnsNoneAway(cfg, s, steps[0]);
      RunTurnsNoneAway(cfg, Next(cfg, s, steps[0]), steps[1..]);
    }
  }

  /** Each attempt begins at least the delay of its place after the one before it ended. */
  predicate SpacedBy(tries: seq<Try>, delays: seq<nat>) {
    forall i | 0 <= i < |tries| - 1 && i < |delays| :: tries[i].end + delays[i] <= tries[i + 1].start
  }

  /** Every settled call's outcome is explained by at most |delays| + 1 attempts, all but the last rate
      limited, each retry no earlier than its scheduled delay after the attempt before it. */
  lemma {:induction false} AttemptsAreBounded(cfg: Config, steps: seq<Step>, i: nat)
    requires i < |Run(cfg, INITIAL, steps).calls|
    ensures var c := Run(cfg, INITIAL, steps).calls[i];
            && DelaysKept(cfg, c.tries)
            && (OutcomeOf(c).Some? ==> Explains(cfg, Results(c.tries), OutcomeOf(c).value))
            && (OutcomeOf(c).None? ==> AllLimited(c.tries) && |c.tries| <= |cfg.delays|)
            && (cfg == EXECUTOR ==> |c.tries| <= 3) && (cfg == QUEUE ==> |c.tries| <= 4)
            && (cfg == EXECUTOR ==> SpacedBy(c.tries, [1_000, 2_000]))
            && (cfg == QUEUE ==> SpacedBy(c.tries, [1_000, 2_000, 4_000]))
  {
    ReachableInv(cfg, steps);
    assert CallOk(cfg, Run(cfg, INITIAL, steps).calls[i]);
  }

  /** Only a raised signal aborts a call and only a refused slot turns it away: without either, every
      settled call has made an attempt, and its outcome is that of the last one. */
  lemma {:induction false} UndisturbedCallsAreAnswered(cfg: Config, steps: seq<Step>, i: nat)
    requires forall step | step in steps :: Undisturbed(step)
    requires i < |Run(cfg, INITIAL, steps).calls| && OutcomeOf(Run(cfg, INITIAL, steps).calls[i]).Some?
    ensures var c := Run(cfg, INITIAL, steps).calls[i];
            c.tries != [] &&
            match c.tries[|c.tries| - 1].result
            case Value(v) => OutcomeOf(c).value == Resolved(v)
            case RateLimited(e) => OutcomeOf(c).value == Failed(e)
            case Error(e) => OutcomeOf(c).value == Failed(e)
  {
    AttemptsAreBounded(cfg, steps, i);
    RunTurnsNoneAway(cfg, INITIAL, steps);
    var c := Run(cfg, INITIAL, steps).calls[i];
    assert Explains(cfg, Results(c.tries), OutcomeOf(c).value);
    assert !TurnedAway(c);
    assert Results(c.tries) != [] && Results(c.tries)[|c.tries| - 1] == c.tries[|c.tries| - 1].result;
  }

  /** The calls between taking a global slot and giving it back. */
  function HoldingSlot(s: State): set<nat> {
    set i: nat | i < |s.calls| && (s.calls[i].phase.Calling? || s.calls[i].phase.Backoff?)
  }

  lemma InCallCountsHolders(s: State)
    requires Shape(s)
    ensures InCall(s) == |HoldingSlot(s)|
  {
    assert HoldingSlot(s) == if InCall(s) == 1 then {Front(s)} else {};
  }

  /** Every global slot taken is given back exactly once: the difference is the one call now inside it. */
  lemma {:induction false} SlotsAreReturned(cfg: Config, steps: seq<Step>)
    requires cfg.semaphore
    ensures var s := Run(cfg, INITIAL, steps);
            s.acquired == s.released + |HoldingSlot(s)| <= s.released + 1
  {
    ReachableInv(cfg, steps);
    hide Run, Shape, Keys, Spaced, ClockOk, CallOk, HoldingSlot;
    InCallCountsHolders(Run(cfg, INITIAL, steps));
  }

  // ---------------------------------------------------------------- nothing blocks the chain

  /** What the outside world answers when the front call asks. */
  datatype Answer = Answer(aborted: bool, granted: bool, result: FnResult)

  /** The step the front call takes next, and the time it waits for. */
  function FrontStep(s: State, a: Answer): (Time, Step)
    requires Shape(s) && s.queueDepth > 0
  {
    var f := Front(s);
    match s.calls[f].phase
    case Waiting => (s.now, BeginStep(f, a.aborted))
    case Gap(until) => (until, AcquireStep(f, a.granted, a.aborted))
    case Calling(_) => (s.now, ReturnStep(f, a.result))
    case Backoff(until) => (until, WakeStep(f, a.aborted))
    case Settled(_, _) => (s.now, CleanupStep(f))
  }

  function Rank(cfg: Config, c: Call): nat
    requires |c.tries| <= |cfg.delays| + 1
  {
    var left := |cfg.delays| + 1 - |c.tries|;
    match c.phase
    case Waiting => 2 * |cfg.delays| + 4
    case Gap(_) => 2 * |cfg.delays| + 3
    case Calling(_) => 2 * left
    case Backoff(_) => 2 * left + 1
    case Settled(_, _) => 0
    case Cleaned(_, _) => 0
  }

  /** `d` has the same calls as `s`, with call `f` nearer to its end. */
  predicate Drops(cfg: Config, s: State, d: State, f: nat) {
    && f < |s.calls| == |d.calls| && d.queueDepth == s.queueDepth
    && |s.calls[f].tries| <= |cfg.delays| + 1 && |d.calls[f].tries| <= |cfg.delays| + 1
    && Rank(cfg, d.calls[f]) < Rank(cfg, s.calls[f])
  }

  lemma BeginDrops(cfg: Config, s: State, f: nat, aborted: bool)
    requires Ready(s, f) && |s.calls[f].tries| <= |cfg.delays| + 1
    ensures Drops(cfg, s, Begin(s, f, aborted), f)
  {
  }

  lemma AcquireDrops(cfg: Config, s: State, f: nat, granted: bool, aborted: bool)
    requires f < |s.calls| && s.calls[f].phase.Gap? && s.now >= s.calls[f].phase.until && s.calls[f].tries == []
    ensures Drops(cfg, s, Acquire(cfg, s, f, granted, aborted), f)
  {
  }

  lemma ReturnDrops(cfg: Config, s: State, f: nat, r: FnResult)
    requires f < |s.calls| && s.calls[f].phase.Calling? && |s.calls[f].tries| <= |cfg.delays|
    ensures Drops(cfg, s, Return(cfg, s, f, r), f)
  {
  }

  lemma WakeDrops(cfg: Config, s: State, f: nat, aborted: bool)
    requires f < |s.calls| && s.calls[f].phase.Backoff? && s.now >= s.calls[f].phase.until
    requires |s.calls[f].tries| <= |cfg.delays|
    ensures Drops(cfg, s, Wake(cfg, s, f, aborted), f)
  {
  }

  lemma FrontIsReady(cfg: Config, s: State)
    requires Shape(s) && s.queueDepth > 0 && CallOk(cfg, s.calls[Front(s)])
    ensures var f := Front(s);
            var c := s.calls[f];
            && 0 <= f < |s.calls| && !c.phase.Cleaned? && (c.phase.Waiting? ==> Ready(s, f))
            && (c.phase.Waiting? || c.phase.Gap? ==> c.tries == [])
            && (c.phase.Calling? || c.phase.Backoff? ==> |c.tries| <= |cfg.delays|)
  {
    hide DelaysKept, Explains, Results, AllLimited;
    if Front(s) > 0 { assert s.calls[Front(s) - 1].phase.Cleaned?; }
  }

  lemma FrontRankDrops(cfg: Config, s: State, a: Answer)
    requires Shape(s) && s.queueDepth > 0 && CallOk(cfg, s.calls[Front(s)])
    ensures var (t, step) := FrontStep(s, a);
            var d := Next(cfg, Next(cfg, s, Tick(t)), step);
            if step.CleanupStep? then |d.calls| == |s.calls| && d.queueDepth == s.queueDepth - 1
            else Drops(cfg, s, d, Front(s))
  {
    FrontIsReady(cfg, s);
    hide Shape, CallOk, Begin, Acquire, Return, Wake, Rank;
    var f := Front(s);
    var (t, step) := FrontStep(s, a);
    var later := Next(cfg, s, Tick(t));
    var c := s.calls[f];
    match c.phase
    case Waiting => BeginDrops(cfg, later, f, a.aborted);
    case Gap(_) => AcquireDrops(cfg, later, f, a.granted, a.aborted);
    case Calling(_) => ReturnDrops(cfg, later, f, a.result);
    case Backoff(_) => WakeDrops(cfg, later, f, a.aborted);
    case Settled(_, _) =>
  }

  lemma FrontAdvances(cfg: Config, s: State, a: Answer)
    requires Inv(cfg, s) && s.queueDepth > 0
    ensures var (t, step) := FrontStep(s, a);
            Inv(cfg, Next(cfg, Next(cfg, s, Tick(t)), step))
  {
    var (t, step) := FrontStep(s, a);
    NextKeepsInv(cfg, s, Tick(t));
    NextKeepsInv(cfg, Next(cfg, s, Tick(t)), step);
  }

  lemma {:induction false} RunTwo(cfg: Config, s: State, a: Step, b: Step, rest: seq<Step>)
    ensures Run(cfg, s, [a, b] + rest) == Run(cfg, Next(cfg, Next(cfg, s, a), b), rest)
  {
    assert ([a, b] + rest)[1..] == [b] + rest;
    assert ([b] + rest)[1..] == rest;
  }

  /** The steps wait until the front call can go on and then answer what it asks, question by question. */
  predicate Follows(cfg: Config, s: State, steps: seq<Step>, answers: nat -> Answer, asked: nat)
    decreases |steps|
  {
    steps == [] ||
    (|steps| >= 2 && Shape(s) && s.queueDepth > 0
     && var (t, step) := FrontStep(s, answers(asked));
        steps[0] == Tick(t) && steps[1] == step
        && Follows(cfg, Next(cfg, Next(cfg, s, Tick(t)), step), steps[2..], answers, asked + 1))
  }

  /** Whatever the callers' signals, the shared semaphore and `fn` answer each time they are asked (`asked`
      counts the questions so far), the queue drains: no failed, refused or skipped call ever blocks the
      ones behind it. */
  lemma {:induction false} QueueAlwaysDrains(cfg: Config, s: State, answers: nat -> Answer, asked: nat)
    returns (steps: seq<Step>)
    requires Inv(cfg, s)
    ensures Follows(cfg, s, steps, answers, asked)
    ensures Run(cfg, s, steps).queueDepth == 0 && |Run(cfg, s, steps).calls| == |s.calls|
    decreases s.queueDepth,
              if s.queueDepth > 0 && CallOk(cfg, s.calls[Front(s)]) then Rank(cfg, s.calls[Front(s)]) else 0
  {
    if s.queueDepth == 0 {
      steps := [];
    } else {
      assert CallOk(cfg, s.calls[Front(s)]);
      var a := answers(asked);
      var (t, step) := FrontStep(s, a);
      FrontAdvances(cfg, s, a);
      FrontRankDrops(cfg, s, a);
      var d := Next(cfg, Next(cfg, s, Tick(t)), step);
      if d.queueDepth > 0 { assert CallOk(cfg, d.calls[Front(d)]); }
      var rest := QueueAlwaysDrains(cfg, d, answers, asked + 1);
      steps := [Tick(t), step] + rest;
      assert steps[2..] == rest;
      RunTwo(cfg, s, Tick(t), step, rest);
    }
  }

  // ---------------------------------------------------------------- raised signals

  /** A call aborted while it was queued is skipped: its promise settles at once, `fn` is never run for it, and
      the call behind it can start. */
  lemma {:induction false} QueuedAbortIsSkipped(cfg: Config, s: State, id: nat, steps: seq<Step>)
    requires Inv(cfg, s) && Ready(s, id)
    ensures var skipped := Begin(s, id, true);
            var d := Run(cfg, skipped, steps);
            && skipped.calls[id].phase == Settled(Aborted, s.now) && skipped.calls[id].tries == []
            && skipped.acquired == s.acquired && skipped.lastCallAt == s.lastCallAt
            && (id + 1 < |s.calls| ==> Ready(Cleanup(skipped, id), id + 1))
            && id < |d.calls| && OutcomeOf(d.calls[id]) == Some(Aborted) && d.calls[id].tries == []
  {
    assert CallOk(cfg, s.calls[id]);
    OnlyTheFrontMoves(s, id);
    OutcomeIsFinal(cfg, Begin(s, id, true), steps, id);
  }

  /** Where the signal is tested before every attempt, as in the executor, none starts under a raised signal,
      and the slot goes back. */
  lemma RaisedSignalStartsNothing(cfg: Config, s: State, id: nat)
    requires cfg.signalInRetry && id < |s.calls|
    ensures s.calls[id].phase.Gap? && s.now >= s.calls[id].phase.until ==>
              var d := Acquire(cfg, s, id, true, true);
              && d.calls[id] == s.calls[id].(phase := Settled(Aborted, s.now))
              && d.acquired - d.released == s.acquired - s.released
    ensures s.calls[id].phase.Backoff? && s.now >= s.calls[id].phase.until ==>
              var d := Wake(cfg, s, id, true);
              && d.calls[id] == s.calls[id].(phase := Settled(Aborted, s.now))
              && d.acquired == s.acquired && d.released == s.released + if cfg.semaphore then 1 else 0
  {
  }

  /** Every test of call `id`'s signal finds it raised. */
  predicate SignalUp(steps: seq<Step>, id: nat) {
    forall step | step in steps ::
      && (step.BeginStep? && step.id == id ==> step.aborted)
      && (step.AcquireStep? && step.id == id ==> step.aborted)
      && (step.WakeStep? && step.id == id ==> step.aborted)
  }

  /** The call is still to be tested before its next attempt, or its promise has settled. */
  predicate BeforeTest(cfg: Config, c: Call) {
    c.phase.Waiting? || (cfg.signalInRetry && (c.phase.Gap? || c.phase.Backoff?)) || OutcomeOf(c).Some?
  }

  lemma StepStartsNoAttempt(cfg: Config, s: State, step: Step, id: nat)
    requires id < |s.calls| && BeforeTest(cfg, s.calls[id]) && SignalUp([step], id)
    ensures var d := Next(cfg, s, step);
            id < |d.calls| && BeforeTest(cfg, d.calls[id]) && d.calls[id].tries == s.calls[id].tries
  {
    assert step in [step];
  }

  /** Once a call's signal is up, no further attempt is made for it: in the queue if it is up before the call
      starts, in the executor whenever it is. */
  lemma {:induction false} NoAttemptUnderRaisedSignal(cfg: Config, s: State, steps: seq<Step>, id: nat)
    requires id < |s.calls| && BeforeTest(cfg, s.calls[id]) && SignalUp(steps, id)
    ensures var d := Run(cfg, s, steps);
            id < |d.calls| && !d.calls[id].phase.Calling? && d.calls[id].tries == s.calls[id].tries
    decreases steps
  {
    if steps != [] {
      hide Next;
      assert steps[0] in steps;
      assert forall step | step in steps[1..] :: step in steps;
      StepStartsNoAttempt(cfg, s, steps[0], id);
      NoAttemptUnderRaisedSignal(cfg, Next(cfg, s, steps[0]), steps[1..], id);
    }
  }

  /** How the two services differ: the executor tests the signal first and before every attempt and takes slots,
      the queue joins an aborted caller to a call under way, never stops a call it has started, and takes none. */
  lemma {:induction false} ServicesDiffer(s: State, key: Key, id: nat, steps: seq<Step>)
    requires id < |s.calls| && s.calls[id].phase.Gap? && s.now >= s.calls[id].phase.until
    ensures Arrive(EXECUTOR, s, key, true) == (s, AbortedBeforeQueuing)
    ensures Arrive(QUEUE, s, key, true)
            == (s, if key in s.inFlight then Joined(s.inFlight[key]) else AbortedBeforeQueuing)
    ensures OutcomeOf(Acquire(EXECUTOR, s, id, true, true).calls[id]) == Some(Aborted)
    ensures OutcomeOf(Acquire(EXECUTOR, s, id, false, false).calls[id]) == Some(GlobalCapacity)
    ensures forall granted, aborted :: Acquire(QUEUE, s, id, granted, aborted).calls[id].phase == Calling(s.now)
    ensures Run(QUEUE, INITIAL, steps).acquired == 0
  {
    ReachableInv(QUEUE, steps);
  }
}
