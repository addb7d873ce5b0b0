/**
 Any number of replicas of the executor and the one Redis counter they share. Each process runs its serial
 chain; whether a slot is granted is what the counter's script answers, and a process decrements the
 counter exactly when its chain gives a slot back. A process may die at any moment and restart empty; the
 slot it held stays counted until the counter's key expires.
 */
module Replicas {
  import Chain = SerialChain
  import Props = SerialChainProperties
  import Slots = GlobalSemaphore
  import Counters = RedisCounter

  /** `leaked` counts the slots of processes that died holding one. */
  datatype World = World(procs: seq<Chain.State>, slots: Slots.State, leaked: nat)

  /** `At` is a step of one process; the `granted` flag of an acquire step is ignored. */
  datatype Step = Tick(to: int) | At(proc: nat, step: Chain.Step) | Crash(proc: nat) | Repair

  function Start(n: nat): World { World(seq(n, i => Chain.INITIAL), Slots.INITIAL, 0) }

  /** The process's step asks the counter for a slot. */
  predicate Asks(s: Chain.State, step: Chain.Step) {
    step.AcquireStep? && step.id < |s.calls| && s.calls[step.id].phase.Gap? && s.now >= s.calls[step.id].phase.until
  }

  predicate Granted(slots: Slots.State) { Slots.AcquireScript(slots.counter, slots.now).1 }

  /** The process, its clock set to the shared one, takes the step. */
  function ProcNext(s: Chain.State, step: Chain.Step, slots: Slots.State): Chain.State {
    var now := Chain.Next(Chain.EXECUTOR, s, Chain.Tick(slots.now));
    match step
    case AcquireStep(id, _, aborted) => Chain.Next(Chain.EXECUTOR, now, Chain.AcquireStep(id, Granted(slots), aborted))
    case Tick(_) => now
    case _ => Chain.Next(Chain.EXECUTOR, now, step)
  }

  function SlotsNext(s: Chain.State, step: Chain.Step, slots: Slots.State): Slots.State {
    var now := Chain.Next(Chain.EXECUTOR, s, Chain.Tick(slots.now));
    var asked := if Asks(now, step) then Slots.Next(slots, Slots.Acquire) else slots;
    if ProcNext(s, step, slots).released > s.released then Slots.Next(asked, Slots.Release(0)) else asked
  }

  /** The calls of all processes between taking a slot and giving it back. */
  function Holders(procs: seq<Chain.State>): nat {
    if procs == [] then 0 else Holders(procs[..|procs| - 1]) + |Props.HoldingSlot(procs[|procs| - 1])|
  }

  /** The counter's key has expired, or never was. */
  predicate KeyGone(slots: Slots.State) { Counters.Visible(slots.counter, slots.now).Missing? }

  /** When the key goes with no call inside, the slots of dead processes are forgotten with it. */
  function Forget(w: World): World {
    if Holders(w.procs) == 0 && KeyGone(w.slots) then w.(slots := w.slots.(calls := []), leaked := 0) else w
  }

  function Next(w: World, step: Step): World {
    match step
    case Tick(to) => Forget(w.(slots := Slots.Next(w.slots, Slots.Tick(to))))
    case At(i, s) =>
      if i >= |w.procs| then w
      else w.(procs := w.procs[i := ProcNext(w.procs[i], s, w.slots)], slots := SlotsNext(w.procs[i], s, w.slots))
    case Crash(i) =>
      if i >= |w.procs| then w
      else w.(procs := w.procs[i := Chain.INITIAL], leaked := w.leaked + |Props.HoldingSlot(w.procs[i])|)
    case Repair => w.(slots := Slots.Next(w.slots, Slots.Reset))
  }

  function Run(w: World, steps: seq<Step>): World
    decreases steps
  {
    if steps == [] then w else Run(Next(w, steps[0]), steps[1..])
  }

  // ---------------------------------------------------------------- one process

  /** Slots taken and not given back. */
  function Held(s: Chain.State): int { s.acquired - s.released }

  predicate ProcInv(s: Chain.State) { Props.Inv(Chain.EXECUTOR, s) }

  lemma HeldIsHolding(s: Chain.State)
    requires ProcInv(s)
    ensures Held(s) == |Props.HoldingSlot(s)| <= 1
  {
    Props.InCallCountsHolders(s);
  }

  lemma ProcKeepsInv(s: Chain.State, step: Chain.Step, slots: Slots.State)
    requires ProcInv(s)
    ensures ProcInv(ProcNext(s, step, slots))
  {
    hide Chain.Next, Props.Inv;
    var now := Chain.Next(Chain.EXECUTOR, s, Chain.Tick(slots.now));
    Props.NextKeepsInv(Chain.EXECUTOR, s, Chain.Tick(slots.now));
    match step
    case AcquireStep(id, _, aborted) =>
      Props.NextKeepsInv(Chain.EXECUTOR, now, Chain.AcquireStep(id, Granted(slots), aborted));
    case Tick(_) =>
    case _ => Props.NextKeepsInv(Chain.EXECUTOR, now, step);
  }

  /** A process takes a slot exactly when it asks and is granted one, and gives back at most one at a time. */
  lemma SlotTraffic(s: Chain.State, step: Chain.Step, slots: Slots.State)
    ensures var d := ProcNext(s, step, slots);
            var now := Chain.Next(Chain.EXECUTOR, s, Chain.Tick(slots.now));
            && d.acquired == s.acquired + (if Asks(now, step) && Granted(slots) then 1 else 0)
            && s.released <= d.released <= s.released + 1
  {
  }

  // ---------------------------------------------------------------- all of them

  lemma {:induction false} HoldersUpdate(procs: seq<Chain.State>, i: nat, d: Chain.State)
    requires i < |procs|
    ensures Holders(procs[i := d]) == Holders(procs) - |Props.HoldingSlot(procs[i])| + |Props.HoldingSlot(d)|
    ensures |Props.HoldingSlot(procs[i])| <= Holders(procs)
  {
    hide Props.HoldingSlot;
    var n := |procs| - 1;
    if i < n {
      HoldersUpdate(procs[..n], i, d);
      assert procs[i := d][..n] == procs[..n][i := d];
    } else {
      assert procs[i := d][..n] == procs[..n];
    }
  }

  predicate Inv(w: World) {
    && (forall i | 0 <= i < |w.procs| :: ProcInv(w.procs[i]))
    && |w.slots.calls| == Holders(w.procs) + w.leaked
  }

  lemma SlotCount(slots: Slots.State)
    ensures |Slots.Next(slots, Slots.Acquire).calls| == |slots.calls| + if Granted(slots) then 1 else 0
    ensures slots.calls != [] ==> |Slots.Next(slots, Slots.Release(0)).calls| == |slots.calls| - 1
  {
  }

  /** The counter's list of slots grows and shrinks with what the process holds. */
  lemma SlotsFollowProc(s: Chain.State, step: Chain.Step, slots: Slots.State)
    requires ProcInv(s) && Held(s) <= |slots.calls| && 0 <= Held(ProcNext(s, step, slots))
    ensures |SlotsNext(s, step, slots).calls| == |slots.calls| + Held(ProcNext(s, step, slots)) - Held(s)
  {
    hide ProcInv, ProcNext, Asks, Granted, Slots.Next, Chain.Next;
    SlotTraffic(s, step, slots);
    SlotCount(slots);
    SlotCount(Slots.Next(slots, Slots.Acquire));
  }

  lemma ProcStepKeepsInv(w: World, i: nat, step: Chain.Step)
    requires Inv(w) && i < |w.procs|
    ensures Inv(Next(w, At(i, step)))
  {
    hide ProcInv, ProcNext, SlotsNext, Held, Props.HoldingSlot, Holders;
    var s := w.procs[i];
    var d := ProcNext(s, step, w.slots);
    ProcKeepsInv(s, step, w.slots);
    HeldIsHolding(s);
    HeldIsHolding(d);
    HoldersUpdate(w.procs, i, d);
    SlotsFollowProc(s, step, w.slots);
  }

  lemma FreshHoldsNothing()
    ensures |Props.HoldingSlot(Chain.INITIAL)| == 0
  {
    assert Props.HoldingSlot(Chain.INITIAL) == {};
  }

  lemma FreshProcess()
    ensures ProcInv(Chain.INITIAL) && |Props.HoldingSlot(Chain.INITIAL)| == 0
  {
    FreshHoldsNothing();
    hide Props.HoldingSlot;
  }

  lemma CrashKeepsInv(w: World, i: nat)
    requires Inv(w) && i < |w.procs|
    ensures Inv(Next(w, Crash(i)))
  {
    FreshProcess();
    hide ProcInv, Props.HoldingSlot, Holders;
    HoldersUpdate(w.procs, i, Chain.INITIAL);
  }

  lemma NextKeepsInv(w: World, step: Step)
    requires Inv(w)
    ensures Inv(Next(w, step)) && |Next(w, step).procs| == |w.procs|
    ensures !step.Crash? ==> Next(w, step).leaked <= w.leaked
  {
    hide ProcInv, ProcNext, SlotsNext, Holders, Props.HoldingSlot, KeyGone;
    match step
    case Tick(_) =>
    case At(i, s) => if i < |w.procs| { ProcStepKeepsInv(w, i, s); }
    case Crash(i) => if i < |w.procs| { CrashKeepsInv(w, i); }
    case Repair =>
  }

  predicate NobodyDies(steps: seq<Step>) { forall step | step in steps :: !step.Crash? }

  lemma {:induction false} RunKeepsInv(w: World, steps: seq<Step>)
    requires Inv(w)
    ensures Inv(Run(w, steps)) && |Run(w, steps).procs| == |w.procs|
    ensures NobodyDies(steps) ==> Run(w, steps).leaked <= w.leaked
    decreases steps
  {
    if steps != [] {
      hide Inv, Next;
      NextKeepsInv(w, steps[0]);
      RunKeepsInv(Next(w, steps[0]), steps[1..]);
      if NobodyDies(steps) {
        assert steps[0] in steps;
        assert forall step | step in steps[1..] :: step in steps;
      }
    }
  }

  lemma {:induction false} NobodyHolds(n: nat)
    ensures Holders(Start(n).procs) == 0
  {
    if n > 0 {
      hide Props.HoldingSlot;
      NobodyHolds(n - 1);
      var m := n - 1;
      assert Start(n).procs[..m] == Start(m).procs && Start(n).procs[m] == Chain.INITIAL;
      FreshHoldsNothing();
    }
  }

  lemma {:induction false} ReachableInv(n: nat, steps: seq<Step>)
    ensures Inv(Run(Start(n), steps))
    ensures NobodyDies(steps) ==> Run(Start(n), steps).leaked == 0
  {
    NobodyHolds(n);
    FreshProcess();
    hide ProcInv, Holders, Run, NobodyDies;
    var w := Start(n);
    assert forall i | 0 <= i < |w.procs| :: w.procs[i] == Chain.INITIAL;
    assert Inv(w);
    RunKeepsInv(w, steps);
  }

  /** Over every run of any number of replicas, with no assumption on time: the slots that have been granted
      and not returned are those of the calls now inside, one at most per process, and of processes that
      died inside. As long as nobody dies every granted slot is returned by the process that took it. */
  lemma {:induction false} EverySlotIsSomeCalls(n: nat, steps: seq<Step>)
    ensures var w := Run(Start(n), steps);
            && |w.slots.calls| == Holders(w.procs) + w.leaked
            && (NobodyDies(steps) ==> w.leaked == 0)
            && forall i | 0 <= i < |w.procs| :: Held(w.procs[i]) == |Props.HoldingSlot(w.procs[i])| <= 1
  {
    ReachableInv(n, steps);
    var w := Run(Start(n), steps);
    hide Run, Holders, Held, ProcInv, Props.HoldingSlot;
    forall i | 0 <= i < |w.procs| ensures Held(w.procs[i]) == |Props.HoldingSlot(w.procs[i])| <= 1 {
      HeldIsHolding(w.procs[i]);
    }
  }

  // ---------------------------------------------------------------- while busy periods are short

  /** No key expires under a call: while slots are counted, dead processes' included, no more than the TTL has
      passed since the counter left zero. When the time is up with nobody inside, the count starts afresh. */
  predicate OnTimeRun(w: World, steps: seq<Step>)
    decreases steps
  {
    Slots.OnTime(w.slots) && (steps == [] || OnTimeRun(Next(w, steps[0]), steps[1..]))
  }

  lemma ProcStepKeepsExact(w: World, i: nat, step: Chain.Step)
    requires Slots.Exact(w.slots) && Slots.OnTime(w.slots) && i < |w.procs|
    ensures Slots.Exact(Next(w, At(i, step)).slots)
  {
    hide ProcNext, Asks, Chain.Next, Slots.Exact;
    var asked := Slots.Next(w.slots, Slots.Acquire);
    Slots.NextKeepsExact(w.slots, Slots.Acquire);
    Slots.NextKeepsExact(w.slots, Slots.Release(0));
    Slots.NextKeepsExact(asked, Slots.Release(0));
  }

  lemma TickKeepsExact(w: World, to: int)
    requires Slots.Exact(w.slots) && Slots.OnTime(w.slots) && Slots.OnTime(Next(w, Tick(to)).slots)
    ensures Slots.Exact(Next(w, Tick(to)).slots)
  {
    hide Holders;
  }

  lemma {:induction false} RunKeepsExact(w: World, steps: seq<Step>)
    requires Slots.Exact(w.slots) && OnTimeRun(w, steps)
    ensures Slots.Exact(Run(w, steps).slots)
    decreases steps
  {
    if steps != [] {
      match steps[0] {
        case Tick(to) => TickKeepsExact(w, to);
        case At(i, s) => if i < |w.procs| { ProcStepKeepsExact(w, i, s); }
        case Crash(_) =>
        case Repair => Slots.NextKeepsExact(w.slots, Slots.Reset);
      }
      RunKeepsExact(Next(w, steps[0]), steps[1..]);
    }
  }

  /** While no key expires under a call: the counter is the number of calls inside over all replicas plus the
      slots of dead processes, so the calls inside never exceed it, it never exceeds three, and the next to
      ask is refused exactly when it is three. If nobody died it is the number of calls inside. */
  lemma {:induction false} CounterCountsCalls(n: nat, steps: seq<Step>)
    requires OnTimeRun(Start(n), steps)
    ensures var w := Run(Start(n), steps);
            var count := Counters.Read(w.slots.counter, w.slots.now);
            && Holders(w.procs) <= Holders(w.procs) + w.leaked == count <= Slots.LIMIT
            && (NobodyDies(steps) ==> count == Holders(w.procs))
            && (Granted(w.slots) <==> count < Slots.LIMIT)
  {
    EverySlotIsSomeCalls(n, steps);
    RunKeepsExact(Start(n), steps);
  }

  /** The slots of dead processes come back: if the time is up with nobody inside, the count is zero, the next
      to ask gets a slot, and the run goes on in time. */
  lemma {:induction false} DeadSlotsComeBack(n: nat, steps: seq<Step>, to: int)
    requires OnTimeRun(Start(n), steps) && Holders(Run(Start(n), steps).procs) == 0
    requires var w := Run(Start(n), steps); w.slots.now <= to && to > w.slots.busySince + Slots.TTL_MS
    ensures var d := Next(Run(Start(n), steps), Tick(to));
            && Counters.Read(d.slots.counter, d.slots.now) == 0 && d.leaked == 0
            && Granted(d.slots) && Slots.OnTime(d.slots)
  {
    EverySlotIsSomeCalls(n, steps);
    RunKeepsExact(Start(n), steps);
    hide Run, OnTimeRun, Holders;
  }
}
