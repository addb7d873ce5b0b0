/**
 The gap between calls. `lastCallAt` is exactly the latest moment recorded by the calls so far: the end of a
 success, the start of a retry, or an abort on waking from a back-off. A failure records nothing of its own,
 so the call behind it need not wait.
 */
module SerialGap {
  import opened Common
  import opened SerialChain
  import opened SerialChainProperties

  /** The start of the last retry, if there was one. */
  function RetryStamp(tries: seq<Try>): Option<Time>
    requires tries != []
  {
    if |tries| > 1 then Some(tries[|tries| - 1].start) else None
  }

  /** What a call whose promise settled has recorded in lastCallAt. */
  function EndStamp(tries: seq<Try>, o: Outcome, at: Time): Option<Time>
    requires tries != []
  {
    if o.Resolved? || o.Aborted? then Some(at) else RetryStamp(tries)
  }

  function Stamp(c: Call): Option<Time> {
    if c.tries == [] then None
    else
      match c.phase
      case Waiting => None
      case Gap(_) => None
      case Calling(since) => Some(since)
      case Backoff(_) => RetryStamp(c.tries)
      case Settled(o, at) => EndStamp(c.tries, o, at)
      case Cleaned(o, at) => EndStamp(c.tries, o, at)
  }

  /** The moment recorded by the latest of the calls that recorded any. */
  function LastStamp(calls: seq<Call>): Time {
    if calls == [] then 0
    else if Stamp(calls[|calls| - 1]).Some? then Stamp(calls[|calls| - 1]).value
    else LastStamp(calls[..|calls| - 1])
  }

  /** A call's first attempt keeps the gap to everything recorded before it. */
  predicate StartsLate(calls: seq<Call>, i: nat)
    requires i < |calls|
  {
    FirstStart(calls[i]).Some? ==> LastStamp(calls[..i]) + MIN_GAP_MS <= FirstStart(calls[i]).value
  }

  predicate StampInv(s: State) {
    && s.lastCallAt == LastStamp(s.calls)
    && forall i: nat | i < |s.calls| :: StartsLate(s.calls, i)
  }

  // ---------------------------------------------------------------- one step

  lemma {:induction false} LaterRecordNothing(calls: seq<Call>, n: nat)
    requires n <= |calls| && forall i | n <= i < |calls| :: Stamp(calls[i]).None?
    ensures LastStamp(calls) == LastStamp(calls[..n])
  {
    if n < |calls| {
      var m := |calls| - 1;
      LaterRecordNothing(calls[..m], n);
      assert calls[..m][..n] == calls[..n];
    } else {
      assert calls[..n] == calls;
    }
  }

  lemma {:induction false} SameStamps(calls: seq<Call>, others: seq<Call>)
    requires |calls| == |others| && forall i | 0 <= i < |calls| :: Stamp(calls[i]) == Stamp(others[i])
    ensures LastStamp(calls) == LastStamp(others)
  {
    if calls != [] { SameStamps(calls[..|calls| - 1], others[..|others| - 1]); }
  }

  function Latest(stamp: Option<Time>, before: Time): Time { if stamp.Some? then stamp.value else before }

  /** Only the calls up to `f` have recorded anything. */
  predicate RecordedUpTo(calls: seq<Call>, f: nat) {
    f < |calls| && forall i | f < i < |calls| :: Stamp(calls[i]).None? && FirstStart(calls[i]).None?
  }

  lemma FrontRecordsLast(cfg: Config, s: State)
    requires Inv(cfg, s) && s.queueDepth > 0
    ensures 0 <= Front(s) && RecordedUpTo(s.calls, Front(s))
  {
    forall i | Front(s) < i < |s.calls| ensures Stamp(s.calls[i]).None? && FirstStart(s.calls[i]).None? {
      assert CallOk(cfg, s.calls[i]);
    }
  }

  lemma LastStampAt(calls: seq<Call>, f: nat)
    requires RecordedUpTo(calls, f)
    ensures LastStamp(calls) == Latest(Stamp(calls[f]), LastStamp(calls[..f]))
  {
    LaterRecordNothing(calls, f + 1);
    assert calls[..f + 1][..f] == calls[..f];
  }

  /** Replacing the call at `f` by one that keeps what it had recorded or records the present moment. */
  lemma ReplacingKeepsStamps(s: State, d: State, f: nat, c: Call)
    requires StampInv(s) && RecordedUpTo(s.calls, f) && d.calls == s.calls[f := c]
    requires d.lastCallAt == Latest(Stamp(c), s.lastCallAt) && (Stamp(c).None? ==> Stamp(s.calls[f]).None?)
    requires FirstStart(c) == FirstStart(s.calls[f])
             || (FirstStart(c).Some? && Stamp(s.calls[f]).None? && FirstStart(c).value >= s.lastCallAt + MIN_GAP_MS)
    ensures StampInv(d)
  {
    hide Stamp, FirstStart;
    assert d.calls[..f] == s.calls[..f];
    assert RecordedUpTo(d.calls, f);
    LastStampAt(s.calls, f);
    LastStampAt(d.calls, f);
    hide LastStamp;
    forall i: nat | i < |d.calls| ensures StartsLate(d.calls, i) {
      assert StartsLate(s.calls, i);
      if i <= f { assert d.calls[..i] == s.calls[..i]; }
    }
  }

  /** A step of the front call that does so. */
  lemma FrontStepKeepsStamps(cfg: Config, s: State, d: State, c: Call)
    requires Inv(cfg, s) && StampInv(s) && FrontBecomes(s, d, c)
    requires d.lastCallAt == Latest(Stamp(c), s.lastCallAt) && (Stamp(c).None? ==> Stamp(s.calls[Front(s)]).None?)
    requires FirstStart(c) == FirstStart(s.calls[Front(s)])
             || (FirstStart(c) == Some(s.now) && Stamp(s.calls[Front(s)]).None? && s.now >= s.lastCallAt + MIN_GAP_MS)
    ensures StampInv(d)
  {
    hide Inv, Shape, Stamp, FirstStart, StampInv;
    FrontRecordsLast(cfg, s);
    ReplacingKeepsStamps(s, d, Front(s), c);
  }

  lemma BeginKeepsStamps(cfg: Config, s: State, id: nat, aborted: bool)
    requires Inv(cfg, s) && StampInv(s)
    ensures StampInv(Begin(s, id, aborted))
  {
    if Ready(s, id) {
      OnlyTheFrontMoves(s, id);
      assert CallOk(cfg, s.calls[id]);
      var d := Begin(s, id, aborted);
      FrontStepKeepsStamps(cfg, s, d, d.calls[id]);
    }
  }

  lemma AcquireKeepsStamps(cfg: Config, s: State, id: nat, granted: bool, aborted: bool)
    requires Inv(cfg, s) && StampInv(s)
    ensures StampInv(Acquire(cfg, s, id, granted, aborted))
  {
    if id < |s.calls| && s.calls[id].phase.Gap? && s.now >= s.calls[id].phase.until {
      OnlyTheFrontMoves(s, id);
      assert CallOk(cfg, s.calls[id]) && CallClock(s.now, s.lastCallAt, s.calls[id]);
      var d := Acquire(cfg, s, id, granted, aborted);
      FrontStepKeepsStamps(cfg, s, d, d.calls[id]);
    }
  }

  /** While a call makes attempts, lastCallAt is what it recorded itself. */
  lemma FrontStampIsLast(cfg: Config, s: State)
    requires Inv(cfg, s) && StampInv(s) && s.queueDepth > 0 && Stamp(s.calls[Front(s)]).Some?
    ensures s.lastCallAt == Stamp(s.calls[Front(s)]).value
  {
    hide Inv, Stamp, StartsLate;
    FrontRecordsLast(cfg, s);
    LastStampAt(s.calls, Front(s));
  }

  lemma ReturnRecords(cfg: Config, s: State, id: nat, r: FnResult)
    requires id < |s.calls| && s.calls[id].phase.Calling?
    requires Stamp(s.calls[id]).Some? ==> s.lastCallAt == Stamp(s.calls[id]).value
    ensures var d := Return(cfg, s, id, r);
            && id < |d.calls| && d.lastCallAt == Latest(Stamp(d.calls[id]), s.lastCallAt)
            && (Stamp(d.calls[id]).None? ==> Stamp(s.calls[id]).None?)
  {
  }

  lemma ReturnKeepsStamps(cfg: Config, s: State, id: nat, r: FnResult)
    requires Inv(cfg, s) && StampInv(s)
    ensures StampInv(Return(cfg, s, id, r))
  {
    if id < |s.calls| && s.calls[id].phase.Calling? {
      OnlyTheFrontMoves(s, id);
      if Stamp(s.calls[id]).Some? { FrontStampIsLast(cfg, s); }
      ReturnRecords(cfg, s, id, r);
      ReturnMovesFront(cfg, s, id, r);
      hide Inv, Shape, Keys, ClockOk, Spaced, Slots, CallOk, FrontBecomes, StampInv, Return, Stamp, FirstStart;
      var d := Return(cfg, s, id, r);
      FrontStepKeepsStamps(cfg, s, d, d.calls[id]);
    }
  }

  lemma WakeKeepsStamps(cfg: Config, s: State, id: nat, aborted: bool)
    requires Inv(cfg, s) && StampInv(s)
    ensures StampInv(Wake(cfg, s, id, aborted))
  {
    if id < |s.calls| && s.calls[id].phase.Backoff? && s.now >= s.calls[id].phase.until {
      OnlyTheFrontMoves(s, id);
      assert CallOk(cfg, s.calls[id]);
      var d := Wake(cfg, s, id, aborted);
      FrontStepKeepsStamps(cfg, s, d, d.calls[id]);
    }
  }

  lemma CleanupKeepsStamps(s: State, id: nat)
    requires StampInv(s)
    ensures StampInv(Cleanup(s, id))
  {
    if id < |s.calls| && s.calls[id].phase.Settled? {
      var d := Cleanup(s, id);
      SameStamps(s.calls, d.calls);
      forall i: nat | i < |d.calls| ensures StartsLate(d.calls, i) {
        assert StartsLate(s.calls, i);
        SameStamps(s.calls[..i], d.calls[..i]);
      }
    }
  }

  lemma ArriveKeepsStamps(cfg: Config, s: State, key: Key, aborted: bool)
    requires StampInv(s)
    ensures StampInv(Arrive(cfg, s, key, aborted).0)
  {
    var d := Arrive(cfg, s, key, aborted).0;
    ArriveExtends(cfg, s, key, aborted);
    if d != s {
      assert d.calls[..|s.calls|] == s.calls;
      forall i: nat | i < |d.calls| ensures StartsLate(d.calls, i) {
        if i < |s.calls| {
          assert StartsLate(s.calls, i);
          assert d.calls[..i] == s.calls[..i];
        }
      }
    }
  }

  lemma NextKeepsStamps(cfg: Config, s: State, step: Step)
    requires Inv(cfg, s) && StampInv(s)
    ensures StampInv(Next(cfg, s, step))
  {
    match step
    case Tick(_) =>
      var d := Next(cfg, s, step);
      assert d.calls == s.calls;
      forall i: nat | i < |d.calls| ensures StartsLate(d.calls, i) { assert StartsLate(s.calls, i); }
    case ArriveStep(key, aborted) => ArriveKeepsStamps(cfg, s, key, aborted);
    case BeginStep(id, aborted) => BeginKeepsStamps(cfg, s, id, aborted);
    case AcquireStep(id, granted, aborted) => AcquireKeepsStamps(cfg, s, id, granted, aborted);
    case ReturnStep(id, r) => ReturnKeepsStamps(cfg, s, id, r);
    case WakeStep(id, aborted) => WakeKeepsStamps(cfg, s, id, aborted);
    case CleanupStep(id) => CleanupKeepsStamps(s, id);
  }

  lemma {:induction false} RunKeepsStamps(cfg: Config, s: State, steps: seq<Step>)
    requires Inv(cfg, s) && StampInv(s)
    ensures StampInv(Run(cfg, s, steps))
    decreases steps
  {
    if steps != [] {
      NextKeepsStamps(cfg, s, steps[0]);
      NextKeepsInv(cfg, s, steps[0]);
      RunKeepsStamps(cfg, Next(cfg, s, steps[0]), steps[1..]);
    }
  }

  // ---------------------------------------------------------------- main results

  /** Over every run lastCallAt is what the calls have recorded, and every first attempt comes at least 300 ms
      after everything recorded before it. */
  lemma {:induction false} LastCallAtIsExact(cfg: Config, steps: seq<Step>)
    ensures var s := Run(cfg, INITIAL, steps);
            && s.lastCallAt == LastStamp(s.calls)
            && forall i: nat | i < |s.calls| :: StartsLate(s.calls, i)
  {
    RunKeepsStamps(cfg, INITIAL, steps);
  }

  /** `p` is the latest call before `id` that made an attempt; those in between were skipped or refused. */
  predicate LastToCall(s: State, p: nat, id: nat) {
    && p < id < |s.calls| && s.calls[p].tries != []
    && forall q | p < q < id :: s.calls[q].tries == []
  }

  /** The call left its end, or a moment that is its end, in lastCallAt. */
  predicate RecordedItsEnd(c: Call) {
    && c.tries != [] && c.phase.Cleaned?
    && (Stamped(c) || (|c.tries| > 1 && c.tries[|c.tries| - 1].start == c.phase.at))
  }

  lemma NothingRecordedSince(cfg: Config, s: State, p: nat, id: nat)
    requires Inv(cfg, s) && Ready(s, id) && LastToCall(s, p, id)
    ensures s.calls[p].phase.Cleaned? && RecordedUpTo(s.calls, p)
  {
    OnlyTheFrontMoves(s, id);
    FrontRecordsLast(cfg, s);
    assert CallOk(cfg, s.calls[id]);
    forall i | p < i < id ensures Stamp(s.calls[i]).None? && FirstStart(s.calls[i]).None? {
      assert s.calls[i].phase.Cleaned?;
    }
  }

  lemma LastToCallDecides(cfg: Config, s: State, p: nat, id: nat)
    requires Inv(cfg, s) && StampInv(s) && Ready(s, id) && LastToCall(s, p, id)
    ensures s.calls[p].phase.Cleaned?
    ensures s.lastCallAt == Latest(Stamp(s.calls[p]), LastStamp(s.calls[..p]))
    ensures LastStamp(s.calls[..p]) + MIN_GAP_MS <= s.calls[p].tries[0].start
  {
    hide Inv, Ready, Stamp;
    NothingRecordedSince(cfg, s, p, id);
    LastStampAt(s.calls, p);
    assert StartsLate(s.calls, p);
  }

  lemma {:induction false} StartsInOrder(cfg: Config, tries: seq<Try>, i: nat)
    requires DelaysKept(cfg, tries) && i < |tries|
    ensures tries[0].start <= tries[i].start
  {
    if i > 0 {
      StartsInOrder(cfg, tries, i - 1);
      assert tries[i - 1].start <= tries[i - 1].end && tries[i - 1].end + cfg.delays[i - 1] <= tries[i].start;
    }
  }

  lemma CallIsOk(cfg: Config, s: State, p: nat)
    requires Inv(cfg, s) && p < |s.calls|
    ensures CallOk(cfg, s.calls[p]) && CallClock(s.now, s.lastCallAt, s.calls[p])
  {
  }

  lemma EndOfLastAttempt(cfg: Config, c: Call)
    requires CallOk(cfg, c) && c.phase.Cleaned? && c.tries != [] && !Stamped(c)
    ensures c.phase.outcome.Failed? && c.phase.at == c.tries[|c.tries| - 1].end >= c.tries[|c.tries| - 1].start
    ensures |c.tries| > 1 ==> c.tries[0].start <= c.tries[|c.tries| - 1].start
    ensures Stamp(c) == RetryStamp(c.tries)
  {
    StartsInOrder(cfg, c.tries, |c.tries| - 1);
  }

  lemma BeginWaits(s: State, id: nat)
    requires Ready(s, id)
    ensures var until := s.lastCallAt + MIN_GAP_MS;
            Begin(s, id, false).calls[id].phase == Gap(if s.now < until then until else s.now)
  {
  }

  /** Exactly when the documented gap separates a call from the end of the last call that was made: if that
      one succeeded, was aborted on waking from a back-off, or failed in a retry that took no time, or if
      enough time has passed anyway. After any other failure the next call goes out at once. */
  lemma {:induction false} GapAfterLastCallIff(cfg: Config, steps: seq<Step>, p: nat, id: nat)
    requires Ready(Run(cfg, INITIAL, steps), id) && LastToCall(Run(cfg, INITIAL, steps), p, id)
    ensures var s := Run(cfg, INITIAL, steps);
            var c := s.calls[p];
            var begun := Begin(s, id, false).calls[id].phase;
            && c.phase.Cleaned? && begun.Gap?
            && (begun.until >= c.phase.at + MIN_GAP_MS <==> RecordedItsEnd(c) || s.now >= c.phase.at + MIN_GAP_MS)
            && (s.lastCallAt < c.phase.at <==> !RecordedItsEnd(c))
  {
    ReachableInv(cfg, steps);
    RunKeepsStamps(cfg, INITIAL, steps);
    var s := Run(cfg, INITIAL, steps);
    var c := s.calls[p];
    BeginWaits(s, id);
    hide Inv, StampInv, LastStamp, CallOk, Run, Begin, Ready;
    CallIsOk(cfg, s, p);
    LastToCallDecides(cfg, s, p, id);
    if !Stamped(c) { EndOfLastAttempt(cfg, c); }
  }

  /** In particular a call that fails at its first attempt never makes the next one wait. */
  lemma {:induction false} NoGapAfterFirstFailure(cfg: Config, steps: seq<Step>, p: nat, id: nat)
    requires Ready(Run(cfg, INITIAL, steps), id) && LastToCall(Run(cfg, INITIAL, steps), p, id)
    requires var c := Run(cfg, INITIAL, steps).calls[p]; |c.tries| == 1 && c.phase.Cleaned? && c.phase.outcome.Failed?
    ensures var s := Run(cfg, INITIAL, steps);
            Begin(s, id, false).calls[id].phase == Gap(s.now)
  {
    ReachableInv(cfg, steps);
    RunKeepsStamps(cfg, INITIAL, steps);
    var s := Run(cfg, INITIAL, steps);
    BeginWaits(s, id);
    hide Inv, StampInv, LastStamp, Run, Explains, Results, Begin, Ready;
    CallIsOk(cfg, s, p);
    LastToCallDecides(cfg, s, p, id);
  }

  lemma RunFirst(cfg: Config, s: State, step: Step, rest: seq<Step>)
    ensures Run(cfg, s, [step] + rest) == Run(cfg, Next(cfg, s, step), rest)
  {
    assert ([step] + rest)[1..] == rest;
  }

  lemma {:induction false} RunAppend(cfg: Config, s: State, a: seq<Step>, b: seq<Step>)
    ensures Run(cfg, s, a + b) == Run(cfg, Run(cfg, s, a), b)
    decreases a
  {
    if a == [] {
      assert a + b == b;
    } else {
      assert (a + b)[1..] == a[1..] + b;
      RunAppend(cfg, Next(cfg, s, a[0]), a[1..], b);
    }
  }

  lemma RunTwo(cfg: Config, s: State, a: Step, b: Step)
    ensures Run(cfg, s, [a, b]) == Next(cfg, Next(cfg, s, a), b)
  {
    hide Next;
    assert [a] + [b] == [a, b] && [b] + [] == [b];
    RunFirst(cfg, s, a, [b]);
    RunFirst(cfg, Next(cfg, s, a), b, []);
  }

  lemma RunFour(cfg: Config, s: State, a: Step, b: Step, c: Step, d: Step)
    ensures Run(cfg, s, [a, b] + [c, d]) == Next(cfg, Next(cfg, Next(cfg, Next(cfg, s, a), b), c), d)
  {
    hide Next, Run;
    RunAppend(cfg, s, [a, b], [c, d]);
    RunTwo(cfg, s, a, b);
    RunTwo(cfg, Next(cfg, Next(cfg, s, a), b), c, d);
  }

  lemma FirstCallOut(k: Key, l: Key) returns (steps: seq<Step>)
    requires k != l
    ensures Run(QUEUE, INITIAL, steps)
            == State(300, [Call(k, None, Gap(300), []), Call(l, Some(0), Waiting, [])], Some(1), 0, 2,
                     map[k := 0, l := 1], 0, 0)
  {
    steps := [ArriveStep(k, false), ArriveStep(l, false)] + [BeginStep(0, false), Tick(300)];
    RunFour(QUEUE, INITIAL, steps[0], steps[1], steps[2], steps[3]);
  }

  /** It happens: the first of two queued calls is out from 300 to 1000 and fails; the second goes out at 1000. */
  lemma FailureLosesTheGap() returns (steps: seq<Step>)
    ensures var s := Run(QUEUE, INITIAL, steps);
            && LastToCall(s, 0, 1) && s.calls[0].phase == Cleaned(Failed(9), 1_000) && Ready(s, 1) && s.now == 1_000
            && Begin(s, 1, false).calls[1].phase == Gap(1_000)
  {
    var first := FirstCallOut(1, 2);
    var s := Run(QUEUE, INITIAL, first);
    var more := [AcquireStep(0, true, false), Tick(1_000)] + [ReturnStep(0, Error(9)), CleanupStep(0)];
    RunFour(QUEUE, s, more[0], more[1], more[2], more[3]);
    RunAppend(QUEUE, INITIAL, first, more);
    steps := first + more;
  }
}
