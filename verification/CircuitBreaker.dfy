/**
 The Redis-backed circuit breaker. Any number of callers on any number of pods take three kinds of atomic
 steps on one circuit: read (and possibly half-open) the state, report a success, report a failure.
 `failures` holds every failure since the last reset, beside the trimmed sorted set the code keeps.
 Members of that set are unique: each failure gets a suffix of its own.
 */
module CircuitBreaker {
  import opened Common
  import opened WindowLog

  datatype CircuitState = Closed | Open | HalfOpen

  datatype Config = Config(failureThreshold: nat, windowMs: int, openMs: int)

  predicate ValidConfig(cfg: Config) { cfg.failureThreshold >= 1 && cfg.windowMs > 0 && cfg.openMs > 0 }

  const LLM := Config(3, 60_000, 30_000)
  const OPENAI := Config(5, 60_000, 30_000)
  const POLYGON := Config(3, 60_000, 60_000)
  const SENDGRID := Config(5, 60_000, 15_000)
  const TWILIO := Config(5, 60_000, 15_000)

  datatype Record = Record(state: CircuitState, openedAt: Time, expiresAt: Time)

  function Stored(r: Option<Record>, now: Time): Option<Record> {
    if r.Some? && now > r.value.expiresAt then None else r
  }

  /** Seconds, rounded up, in milliseconds. */
  function CeilSeconds(ms: int): (r: int)
    ensures ms <= r < ms + 1_000 && r % 1_000 == 0
  {
    (ms + 999) / 1000 * 1000
  }

  // ---------------------------------------------------------------- the three steps

  function GetState(cfg: Config, r: Option<Record>, now: Time): (Option<Record>, CircuitState) {
    var stored := Stored(r, now);
    if stored.None? then (r, Closed)
    else if stored.value.state.Open? && now - stored.value.openedAt > cfg.openMs then
      (Some(Record(HalfOpen, stored.value.openedAt, now + 2 * CeilSeconds(cfg.openMs))), HalfOpen)
    else (r, stored.value.state)
  }

  function OnSuccess(r: Option<Record>, z: Zset, prior: CircuitState): (Option<Record>, Zset) {
    if prior.HalfOpen? then (None, EMPTY) else (r, z)
  }

  function OnFailure(cfg: Config, r: Option<Record>, z: Zset, now: Time, suffix: nat): (Option<Record>, Zset) {
    var kept := After(Visible(z, now) + {Member(now, suffix)}, now - cfg.windowMs);
    (if |kept| >= cfg.failureThreshold then Some(Record(Open, now, now + 3 * CeilSeconds(cfg.openMs))) else r,
     Zset(kept, Some(now + 2 * cfg.windowMs)))
  }

  class CircuitBreakerService {
    const cfg: Config
    var now: Time
    var record: Option<Record>
    var zset: Zset

    constructor (cfg: Config, start: Time)
      ensures this.cfg == cfg && now == start && record == None && zset == EMPTY
    {
      this.cfg, now, record, zset := cfg, start, None, EMPTY;
    }

    method ReadState() returns (state: CircuitState)
      modifies this`record
      ensures (record, state) == GetState(cfg, old(record), now)
    {
      if record.None? || now > record.value.expiresAt { return Closed; }
      if record.value.state.Open? {
        var elapsed := now - record.value.openedAt;
        if elapsed > cfg.openMs {
          record := Some(Record(HalfOpen, record.value.openedAt, now + 2 * CeilSeconds(cfg.openMs)));
          return HalfOpen;
        }
      }
      return record.value.state;
    }

    method ReportSuccess(prior: CircuitState)
      modifies this`record, this`zset
      ensures (record, zset) == OnSuccess(old(record), old(zset), prior)
    {
      if prior.HalfOpen? { record, zset := None, EMPTY; }
    }

    /** The pipeline adds the failure, trims the window and counts what is left. */
    method ReportFailure(suffix: nat)
      modifies this`record, this`zset
      ensures (record, zset) == OnFailure(cfg, old(record), old(zset), now, suffix)
    {
      var members := Visible(zset, now) + {Member(now, suffix)};
      members := After(members, now - cfg.windowMs);
      zset := Zset(members, Some(now + 2 * cfg.windowMs));
      if |members| >= cfg.failureThreshold {
        record := Some(Record(Open, now, now + 3 * CeilSeconds(cfg.openMs)));
      }
    }
  }

  // ---------------------------------------------------------------- all callers together

  /** `closedCallers` and `halfOpenCallers` are the calls admitted in that state and still running. */
  datatype World = World(now: Time, record: Option<Record>, zset: Zset, failures: Log, next: nat,
                         closedCallers: nat, halfOpenCallers: nat)

  const START := World(0, None, EMPTY, {}, 0, 0, 0)

  datatype Step = Tick(to: Time) | Enter | Succeed(prior: CircuitState) | Fail(prior: CircuitState)

  function Leave(w: World, prior: CircuitState): Option<World> {
    match prior
    case Closed => if w.closedCallers > 0 then Some(w.(closedCallers := w.closedCallers - 1)) else None
    case HalfOpen => if w.halfOpenCallers > 0 then Some(w.(halfOpenCallers := w.halfOpenCallers - 1)) else None
    case Open => None
  }

  function Next(cfg: Config, w: World, s: Step): World {
    match s
    case Tick(to) => w.(now := if to >= w.now then to else w.now)
    case Enter =>
      var (r, state) := GetState(cfg, w.record, w.now);
      var w1 := w.(record := r);
      (match state
       case Open => w1
       case Closed => w1.(closedCallers := w.closedCallers + 1)
       case HalfOpen => w1.(halfOpenCallers := w.halfOpenCallers + 1))
    case Succeed(prior) =>
      var left := Leave(w, prior);
      if left.None? then w
      else
        var (r, z) := OnSuccess(w.record, w.zset, prior);
        left.value.(record := r, zset := z, failures := if prior.HalfOpen? then {} else w.failures)
    case Fail(prior) =>
      var left := Leave(w, prior);
      if left.None? then w
      else
        var (r, z) := OnFailure(cfg, w.record, w.zset, w.now, w.next);
        left.value.(record := r, zset := z, failures := w.failures + {Member(w.now, w.next)}, next := w.next + 1)
  }

  function Run(cfg: Config, w: World, steps: seq<Step>): World
    decreases steps
  {
    if steps == [] then w else Run(cfg, Next(cfg, w, steps[0]), steps[1..])
  }

  /** What an entering caller would be told now. */
  function StateNow(cfg: Config, w: World): CircuitState { GetState(cfg, w.record, w.now).1 }

  // ---------------------------------------------------------------- fast failing

  predicate HalfOpenSuccess(w: World, s: Step) { s == Succeed(HalfOpen) && w.halfOpenCallers > 0 }

  predicate NoHalfOpenSuccess(cfg: Config, w: World, steps: seq<Step>)
    decreases steps
  {
    steps == [] || (!HalfOpenSuccess(w, steps[0]) && NoHalfOpenSuccess(cfg, Next(cfg, w, steps[0]), steps[1..]))
  }

  /** The number of callers the steps admit. */
  function Admissions(cfg: Config, w: World, steps: seq<Step>): nat
    decreases steps
  {
    if steps == [] then 0
    else
      (if steps[0].Enter? && !StateNow(cfg, w).Open? then 1 else 0)
      + Admissions(cfg, Next(cfg, w, steps[0]), steps[1..])
  }

  /** The circuit is open, since `since` or later, and its record outlives the open period. */
  predicate OpenSince(cfg: Config, w: World, since: Time) {
    && w.record.Some? && w.record.value.state.Open?
    && since <= w.record.value.openedAt <= w.now
    && w.record.value.expiresAt >= w.record.value.openedAt + cfg.openMs
  }

  lemma {:induction false} ClockNeverGoesBack(cfg: Config, w: World, steps: seq<Step>)
    ensures w.now <= Run(cfg, w, steps).now
    decreases steps
  {
    if steps != [] { ClockNeverGoesBack(cfg, Next(cfg, w, steps[0]), steps[1..]); }
  }

  /** For the whole open period every caller is turned away, whatever other callers report, unless a call
      admitted while half-open succeeds in between. */
  lemma {:induction false} OpenCircuitFailsFast(cfg: Config, w: World, steps: seq<Step>, since: Time)
    requires ValidConfig(cfg) && OpenSince(cfg, w, since)
    requires Run(cfg, w, steps).now <= since + cfg.openMs
    requires NoHalfOpenSuccess(cfg, w, steps)
    ensures Admissions(cfg, w, steps) == 0
    ensures OpenSince(cfg, Run(cfg, w, steps), since) && StateNow(cfg, Run(cfg, w, steps)).Open?
    decreases steps
  {
    ClockNeverGoesBack(cfg, w, steps);
    if steps != [] {
      ClockNeverGoesBack(cfg, Next(cfg, w, steps[0]), steps[1..]);
      OpenCircuitFailsFast(cfg, Next(cfg, w, steps[0]), steps[1..], since);
    }
  }

  /** The exception is real: a half-open success closes the circuit at once, even one that has reopened
      meanwhile. A success of a call admitted while closed changes nothing, so failures are never forgiven. */
  lemma HalfOpenSuccessCloses(cfg: Config, w: World)
    ensures w.halfOpenCallers > 0 ==>
              var d := Next(cfg, w, Succeed(HalfOpen));
              StateNow(cfg, d).Closed? && d.failures == {} && Visible(d.zset, d.now) == {}
    ensures w.closedCallers > 0 ==>
              var d := Next(cfg, w, Succeed(Closed));
              StateNow(cfg, d) == StateNow(cfg, w) && d.failures == w.failures && d.zset == w.zset
  {
  }

  /** What a caller is told at each later moment if nothing happens after a failure that opened the
      circuit: open for the open period, half-open until the record expires, and then closed without a probe. */
  lemma OpenCircuitOverTime(cfg: Config, w: World, prior: CircuitState, to: Time)
    requires ValidConfig(cfg) && Leave(w, prior).Some? && w.now <= to
    requires |After(Visible(w.zset, w.now) + {Member(w.now, w.next)}, w.now - cfg.windowMs)| >= cfg.failureThreshold
    ensures var tripped := Next(cfg, w, Fail(prior));
            StateNow(cfg, Next(cfg, tripped, Tick(to))) ==
              if to <= w.now + cfg.openMs then Open
              else if to <= w.now + 3 * CeilSeconds(cfg.openMs) then HalfOpen
              else Closed
  {
    assert cfg.openMs <= CeilSeconds(cfg.openMs);
  }

  /** A probe that is never answered leaves the circuit half-open for two open periods, after which it
      reads as closed. */
  lemma UnansweredProbeOverTime(cfg: Config, w: World, to: Time)
    requires ValidConfig(cfg) && w.record.Some? && w.record.value.state.Open? && w.now <= to
    requires StateNow(cfg, w).HalfOpen?
    ensures StateNow(cfg, Next(cfg, Next(cfg, w, Enter), Tick(to))) ==
              if to <= w.now + 2 * CeilSeconds(cfg.openMs) then HalfOpen else Closed
  {
  }

  lemma {:induction false} EntersWhileHalfOpen(cfg: Config, w: World, n: nat)
    requires ValidConfig(cfg) && StateNow(cfg, w).HalfOpen?
    ensures Run(cfg, w, seq(n, i => Enter)).halfOpenCallers == w.halfOpenCallers + n
    ensures Admissions(cfg, w, seq(n, i => Enter)) == n
    decreases n
  {
    var enters := seq(n, i => Enter);
    if n > 0 {
      assert enters[1..] == seq(n - 1, i => Enter);
      EntersWhileHalfOpen(cfg, Next(cfg, w, Enter), n - 1);
    }
  }

  // ---------------------------------------------------------------- opening

  /** Failures are numbered in the order they are reported. */
  predicate Numbered(failures: Log, next: nat) { forall m | m in failures :: m.suffix < next }

  predicate Inv(cfg: Config, w: World) {
    Tracks(w.zset, w.failures, w.now, cfg.windowMs) && Numbered(w.failures, w.next)
  }

  /** A failure opens the circuit by the count over the full history, and the kept set goes on tracking it. */
  lemma FailureCounts(cfg: Config, r: Option<Record>, z: Zset, failures: Log, now: Time, suffix: nat)
    requires ValidConfig(cfg) && Tracks(z, failures, now, cfg.windowMs)
    ensures var all := failures + {Member(now, suffix)};
            var (r', z') := OnFailure(cfg, r, z, now, suffix);
            && Tracks(z', all, now, cfg.windowMs)
            && r' == (if |After(all, now - cfg.windowMs)| >= cfg.failureThreshold
                      then Some(Record(Open, now, now + 3 * CeilSeconds(cfg.openMs))) else r)
  {
    var m := Member(now, suffix);
    var kept := After(Visible(z, now), now - cfg.windowMs);
    assert After(Visible(z, now) + {m}, now - cfg.windowMs) == kept + {m} == After(failures + {m}, now - cfg.windowMs);
    TracksAdded(z, failures, now, cfg.windowMs, suffix, now + 2 * cfg.windowMs);
  }

  lemma NextKeepsInv(cfg: Config, w: World, s: Step)
    requires ValidConfig(cfg) && Inv(cfg, w)
    ensures Inv(cfg, Next(cfg, w, s))
  {
    match s
    case Tick(to) => if to >= w.now { TracksLater(w.zset, w.failures, w.now, cfg.windowMs, to); }
    case Enter =>
    case Succeed(_) =>
    case Fail(prior) => if Leave(w, prior).Some? { FailureCounts(cfg, w.record, w.zset, w.failures, w.now, w.next); }
  }

  lemma {:induction false} RunKeepsInv(cfg: Config, w: World, steps: seq<Step>)
    requires ValidConfig(cfg) && Inv(cfg, w)
    ensures Inv(cfg, Run(cfg, w, steps))
    decreases steps
  {
    if steps != [] {
      NextKeepsInv(cfg, w, steps[0]);
      RunKeepsInv(cfg, Next(cfg, w, steps[0]), steps[1..]);
    }
  }

  lemma ReachableInv(cfg: Config, steps: seq<Step>)
    requires ValidConfig(cfg)
    ensures Inv(cfg, Run(cfg, START, steps))
  {
    RunKeepsInv(cfg, START, steps);
  }

  /** After any run, a reported failure opens the circuit exactly when the failures of the last window
      since the last reset, this one included and counted over the full history, reach the threshold;
      otherwise the circuit is left as it was. */
  lemma {:induction false} OpensIffThresholdReached(cfg: Config, steps: seq<Step>, prior: CircuitState)
    requires ValidConfig(cfg) && Leave(Run(cfg, START, steps), prior).Some?
    ensures var w := Run(cfg, START, steps);
            var d := Next(cfg, w, Fail(prior));
            && d.failures == w.failures + {Member(w.now, w.next)}
            && (if |After(d.failures, d.now - cfg.windowMs)| >= cfg.failureThreshold
                then OpenSince(cfg, d, d.now) && StateNow(cfg, d).Open?
                else d.record == w.record)
  {
    hide After, Visible, Tracks, OnFailure, Run;
    ReachableInv(cfg, steps);
    var w := Run(cfg, START, steps);
    FailureCounts(cfg, w.record, w.zset, w.failures, w.now, w.next);
  }

  lemma OneMoreFailure(failures: Log, now: Time, next: nat, windowMs: int)
    requires Numbered(failures, next) && windowMs > 0
    ensures |After(failures + {Member(now, next)}, now - windowMs)| == |After(failures, now - windowMs)| + 1
  {
    var m := Member(now, next);
    assert After(failures + {m}, now - windowMs) == After(failures, now - windowMs) + {m};
  }

  /** A failing probe reopens the circuit if and only if all but one of the failures that the threshold asks
      for are still inside the window; otherwise the circuit stays half-open and every caller is admitted. */
  lemma ProbeFailureReopensIff(cfg: Config, w: World)
    requires ValidConfig(cfg) && Inv(cfg, w) && w.halfOpenCallers > 0 && StateNow(cfg, w).HalfOpen?
    ensures StateNow(cfg, Next(cfg, w, Fail(HalfOpen)))
            == if |After(w.failures, w.now - cfg.windowMs)| + 1 >= cfg.failureThreshold then Open else HalfOpen
  {
    hide After, Visible, Tracks, OnFailure, Numbered;
    FailureCounts(cfg, w.record, w.zset, w.failures, w.now, w.next);
    OneMoreFailure(w.failures, w.now, w.next, cfg.windowMs);
  }

  // ---------------------------------------------------------------- a burst, and one probe

  function Times(n: nat, s: Step): seq<Step> { if n == 0 then [] else Times(n - 1, s) + [s] }

  /** As many failures at once as the threshold asks for, and a failing probe at a later time. */
  function BurstAndProbe(cfg: Config, at: Time): seq<Step> {
    Times(cfg.failureThreshold, Enter) + Times(cfg.failureThreshold, Fail(Closed)) + [Tick(at), Enter, Fail(HalfOpen)]
  }

  lemma {:induction false} RunAppend(cfg: Config, w: World, a: seq<Step>, b: seq<Step>)
    ensures Run(cfg, w, a + b) == Run(cfg, Run(cfg, w, a), b)
    decreases a
  {
    if a == [] {
      assert a + b == b;
    } else {
      assert (a + b)[1..] == a[1..] + b;
      RunAppend(cfg, Next(cfg, w, a[0]), a[1..], b);
    }
  }

  lemma RunLast(cfg: Config, w: World, a: seq<Step>, s: Step)
    ensures Run(cfg, w, a + [s]) == Next(cfg, Run(cfg, w, a), s)
  {
    RunAppend(cfg, w, a, [s]);
    assert [s][1..] == [];
  }

  lemma {:induction false} ClosedEnters(cfg: Config, n: nat)
    ensures Run(cfg, START, Times(n, Enter)) == START.(closedCallers := n)
  {
    if n > 0 {
      ClosedEnters(cfg, n - 1);
      RunLast(cfg, START, Times(n - 1, Enter), Enter);
    }
  }

  function Burst(n: nat): Log { set i: nat | i < n :: Member(0, i) }

  lemma {:induction false} BurstSize(n: nat)
    ensures |Burst(n)| == n
  {
    if n > 0 {
      BurstSize(n - 1);
      assert Burst(n) == Burst(n - 1) + {Member(0, n - 1)};
    }
  }

  lemma AllInside(n: nat, windowMs: int)
    requires windowMs > 0
    ensures |After(Burst(n), 0 - windowMs)| == n
  {
    BurstSize(n);
    assert After(Burst(n), 0 - windowMs) == Burst(n);
  }

  /** After `n` failures of a burst at time 0, with `left` calls still out. */
  predicate Bursting(cfg: Config, w: World, n: nat, left: nat) {
    && Inv(cfg, w) && w.now == 0 && w.failures == Burst(n) && w.next == n
    && w.closedCallers == left && w.halfOpenCallers == 0
    && (n > 0 && n == cfg.failureThreshold ==> w.record == Some(Record(Open, 0, 3 * CeilSeconds(cfg.openMs))))
  }

  lemma BurstStep(cfg: Config, w: World, n: nat, left: nat)
    requires ValidConfig(cfg) && n > 0 && Bursting(cfg, w, n - 1, left + 1)
    ensures Bursting(cfg, Next(cfg, w, Fail(Closed)), n, left)
  {
    NextKeepsInv(cfg, w, Fail(Closed));
    FailureCounts(cfg, w.record, w.zset, w.failures, 0, w.next);
    hide Inv, After, Visible, Tracks, OnFailure;
    assert Burst(n) == Burst(n - 1) + {Member(0, n - 1)};
    AllInside(n, cfg.windowMs);
  }

  lemma {:induction false} BurstFailures(cfg: Config, n: nat, left: nat)
    requires ValidConfig(cfg)
    ensures Bursting(cfg, Run(cfg, START.(closedCallers := n + left), Times(n, Fail(Closed))), n, left)
  {
    var start := START.(closedCallers := n + left);
    if n > 0 {
      hide Bursting, Next;
      BurstFailures(cfg, n - 1, left + 1);
      RunLast(cfg, start, Times(n - 1, Fail(Closed)), Fail(Closed));
      BurstStep(cfg, Run(cfg, start, Times(n - 1, Fail(Closed))), n, left);
    }
  }

  lemma AfterBurst(n: nat, cut: Time)
    ensures |After(Burst(n), cut)| == if cut < 0 then n else 0
  {
    BurstSize(n);
    if cut < 0 { assert After(Burst(n), cut) == Burst(n); } else { assert After(Burst(n), cut) == {}; }
  }

  lemma BurstIsWhole(cfg: Config, w: World, n: nat)
    requires Bursting(cfg, w, n, 0)
    ensures w.failures == Burst(n)
  {
  }

  lemma RunProbe(cfg: Config, w: World, at: Time)
    ensures Run(cfg, w, [Tick(at), Enter, Fail(HalfOpen)])
            == Next(cfg, Next(cfg, Next(cfg, w, Tick(at)), Enter), Fail(HalfOpen))
  {
    hide Next;
    RunLast(cfg, w, [Tick(at), Enter], Fail(HalfOpen));
    RunLast(cfg, w, [Tick(at)], Enter);
    RunLast(cfg, w, [], Tick(at));
    assert [Tick(at), Enter, Fail(HalfOpen)] == [Tick(at), Enter] + [Fail(HalfOpen)];
    assert [Tick(at), Enter] == [Tick(at)] + [Enter] && [Tick(at)] == [] + [Tick(at)];
  }

  lemma ProbeEnters(cfg: Config, w: World, at: Time)
    requires ValidConfig(cfg) && Bursting(cfg, w, cfg.failureThreshold, 0)
    requires cfg.openMs < at <= 3 * CeilSeconds(cfg.openMs)
    ensures var d := Next(cfg, Next(cfg, w, Tick(at)), Enter);
            && Inv(cfg, d) && d.now == at && d.failures == w.failures
            && d.halfOpenCallers == 1 && StateNow(cfg, d).HalfOpen?
  {
    NextKeepsInv(cfg, w, Tick(at));
    NextKeepsInv(cfg, Next(cfg, w, Tick(at)), Enter);
    hide Inv, Burst;
  }

  /** After a burst, a failing probe reopens the circuit exactly while the burst is inside the failure window:
      for POLYGON, whose open period is as long as the window, never; for the circuits of 30 and 15 seconds
      only if the probe comes before the minute is over. */
  lemma ProbeAfterBurst(cfg: Config, at: Time)
    requires ValidConfig(cfg) && cfg.failureThreshold > 1 && cfg.openMs < at <= 3 * CeilSeconds(cfg.openMs)
    ensures StateNow(cfg, Run(cfg, START, BurstAndProbe(cfg, at))) == if at < cfg.windowMs then Open else HalfOpen
  {
    hide Run, Next, Bursting, StateNow, Inv, Burst, After;
    var n := cfg.failureThreshold;
    var enters, fails := Times(n, Enter), Times(n, Fail(Closed));
    RunAppend(cfg, START, enters + fails, [Tick(at), Enter, Fail(HalfOpen)]);
    RunAppend(cfg, START, enters, fails);
    ClosedEnters(cfg, n);
    BurstFailures(cfg, n, 0);
    var w := Run(cfg, START, enters + fails);
    BurstIsWhole(cfg, w, n);
    RunProbe(cfg, w, at);
    ProbeEnters(cfg, w, at);
    AfterBurst(n, at - cfg.windowMs);
    ProbeFailureReopensIff(cfg, Next(cfg, Next(cfg, w, Tick(at)), Enter));
  }

  lemma BurstLeavesRecord(cfg: Config, w: World, n: nat, left: nat)
    requires ValidConfig(cfg) && 0 < n < cfg.failureThreshold && Bursting(cfg, w, n - 1, left + 1)
    ensures Next(cfg, w, Fail(Closed)).record == w.record
  {
    FailureCounts(cfg, w.record, w.zset, w.failures, 0, w.next);
    hide Inv, After, Visible, Tracks, OnFailure;
    assert Burst(n) == Burst(n - 1) + {Member(0, n - 1)};
    AllInside(n, cfg.windowMs);
  }

  lemma {:induction false} BurstRecord(cfg: Config, n: nat, left: nat)
    requires ValidConfig(cfg) && n < cfg.failureThreshold
    ensures Run(cfg, START.(closedCallers := n + left), Times(n, Fail(Closed))).record.None?
  {
    if n > 0 {
      var start := START.(closedCallers := n + left);
      var w := Run(cfg, start, Times(n - 1, Fail(Closed)));
      BurstRecord(cfg, n - 1, left + 1);
      BurstFailures(cfg, n - 1, left + 1);
      RunLast(cfg, start, Times(n - 1, Fail(Closed)), Fail(Closed));
      BurstLeavesRecord(cfg, w, n, left);
    }
  }

  /** Enough calls for a burst, and `n` of them failing at once. */
  function Failing(cfg: Config, n: nat): seq<Step> { Times(n, Enter) + Times(n, Fail(Closed)) }

  /** From the start, the last of a burst of `n` failures opens the circuit if `n` is the threshold, and a
      smaller burst leaves it closed. */
  lemma BurstOpens(cfg: Config, n: nat)
    requires ValidConfig(cfg) && n <= cfg.failureThreshold
    ensures StateNow(cfg, Run(cfg, START, Failing(cfg, n))) == if n == cfg.failureThreshold then Open else Closed
  {
    hide Next;
    RunAppend(cfg, START, Times(n, Enter), Times(n, Fail(Closed)));
    ClosedEnters(cfg, n);
    BurstFailures(cfg, n, 0);
    if n < cfg.failureThreshold { BurstRecord(cfg, n, 0); }
  }

  /** The five circuits: three failures open llm and polygon, five the others, fewer do not. */
  lemma HowManyFailuresOpen(n: nat)
    ensures forall cfg | cfg in {LLM, POLYGON} && n <= 3 ::
              StateNow(cfg, Run(cfg, START, Failing(cfg, n))) == if n == 3 then Open else Closed
    ensures forall cfg | cfg in {OPENAI, SENDGRID, TWILIO} && n <= 5 ::
              StateNow(cfg, Run(cfg, START, Failing(cfg, n))) == if n == 5 then Open else Closed
  {
    hide Run, StateNow, Failing;
    forall cfg | cfg in {LLM, OPENAI, POLYGON, SENDGRID, TWILIO} && n <= cfg.failureThreshold
      ensures StateNow(cfg, Run(cfg, START, Failing(cfg, n))) == if n == cfg.failureThreshold then Open else Closed
    {
      BurstOpens(cfg, n);
    }
  }

  /** The five circuits: when a probe that fails at `at` after a burst reopens them. */
  lemma WhichProbesReopen(at: Time)
    ensures 60_000 < at <= 180_000 ==> StateNow(POLYGON, Run(POLYGON, START, BurstAndProbe(POLYGON, at))).HalfOpen?
    ensures forall cfg | cfg in {LLM, OPENAI} && 30_000 < at <= 90_000 ::
              StateNow(cfg, Run(cfg, START, BurstAndProbe(cfg, at))) == if at < 60_000 then Open else HalfOpen
    ensures forall cfg | cfg in {SENDGRID, TWILIO} && 15_000 < at <= 45_000 ::
              StateNow(cfg, Run(cfg, START, BurstAndProbe(cfg, at))).Open?
  {
    hide Run, StateNow, BurstAndProbe;
    forall cfg | cfg in {LLM, OPENAI, POLYGON, SENDGRID, TWILIO} && cfg.openMs < at <= 3 * CeilSeconds(cfg.openMs)
      ensures StateNow(cfg, Run(cfg, START, BurstAndProbe(cfg, at))) == if at < cfg.windowMs then Open else HalfOpen
    {
      ProbeAfterBurst(cfg, at);
    }
  }
}
