/**
 What happens to one payment when the jobs that credit it do overlap. Each transfer job is five steps, with
 anything in between: it checks that the transfer is unrecorded, loads the payment, records the transfer,
 checks the payment's status, and stores an absolute total computed from what it loaded. A reconciliation
 loads the payment at the start of its run, compares the scanned logs with the keys recorded by then, checks
 the status, and stores. Transfers are to this payment's address, which no other payment shares.
 */
module DepositRaces {
  import opened Common
  import opened Deposits
  import opened DepositProperties

  type JobId = nat

  /** A total about to be stored: the loaded amount, how many stores had happened when it was loaded, and
      the transfers added to it. */
  datatype Claim = Claim(base: nat, from: nat, transfers: seq<Transfer>)

  datatype Job =
    | Checked(t: Transfer)                            // found unrecorded
    | Loaded(t: Transfer, base: nat, from: nat)       // payment loaded
    | Fetched(base: nat, from: nat)                   // payment loaded by a reconciliation run
    | Claiming(claim: Claim)                          // transfers recorded, or scanned and meeting the threshold
    | Storing(claim: Claim)                           // status found to accept deposits
    | Finished

  /** `recorded` are the keys linked to this payment, `taken` the txHashes other payments settled by, and
      `stores` the history of stored totals. */
  datatype State = State(payment: Payment, recorded: set<Key>, taken: set<TxHash>, jobs: map<JobId, Job>,
                         stores: seq<Claim>)

  datatype Step =
    | Check(job: JobId, t: Transfer)
    | Load(job: JobId, now: int)
    | Record(job: JobId)
    | Fetch(job: JobId, now: int)
    | Scan(job: JobId, events: seq<Transfer>)
    | Guard(job: JobId)
    | Store(job: JobId)
    | Crash(job: JobId)
    | Take(tx: TxHash)
    | Move(to: Status)

  function Added(c: Claim): nat { Sum(c.transfers) }

  function Total(c: Claim): nat { c.base + Added(c) }

  function Unseen(events: seq<Transfer>, recorded: set<Key>): seq<Transfer> {
    if events == [] then []
    else
      var e := events[|events| - 1];
      var rest := Unseen(events[..|events| - 1], recorded);
      if e.key in recorded then rest else rest + [e]
  }

  function At(s: State, j: JobId, job: Job): State { s.(jobs := s.jobs[j := job]) }

  /** The update of a payment row by a total that was computed earlier. */
  function StoreTotal(s: State, j: JobId, c: Claim): State
    requires c.transfers != []
  {
    var p := s.payment;
    var tx := c.transfers[|c.transfers| - 1].key.tx;
    if !MeetsThreshold(p, Total(c)) then
      At(s.(payment := p.(status := Partial, received := Total(c)), stores := s.stores + [c]), j, Finished)
    else if tx in s.taken then At(s, j, Finished)
    else
      At(s.(payment := p.(status := Confirming, received := Total(c), settledBy := Some(tx)), stores := s.stores + [c]),
         j, Finished)
  }

  function Next(s: State, step: Step): State {
    match step
    case Check(j, t) => if j in s.jobs then s else At(s, j, if t.key in s.recorded then Finished else Checked(t))
    case Load(j, now) =>
      if !(j in s.jobs && s.jobs[j].Checked?) then s
      else At(s, j, if Open(s.payment, now) then Loaded(s.jobs[j].t, s.payment.received, |s.stores|) else Finished)
    case Record(j) =>
      if !(j in s.jobs && s.jobs[j].Loaded?) then s
      else
        var l := s.jobs[j];
        At(s.(recorded := s.recorded + {l.t.key}), j, Claiming(Claim(l.base, l.from, [l.t])))
    case Fetch(j, now) =>
      if j in s.jobs || !Open(s.payment, now) then s else At(s, j, Fetched(s.payment.received, |s.stores|))
    case Scan(j, events) =>
      if !(j in s.jobs && s.jobs[j].Fetched?) then s
      else
        var c := Claim(s.jobs[j].base, s.jobs[j].from, Unseen(events, s.recorded));
        At(s, j, if c.transfers != [] && MeetsThreshold(s.payment, Total(c)) then Claiming(c) else Finished)
    case Guard(j) =>
      if !(j in s.jobs && s.jobs[j].Claiming?) then s
      else At(s, j, if CanAcceptDeposit(s.payment.status) then Storing(s.jobs[j].claim) else Finished)
    case Store(j) =>
      if j in s.jobs && s.jobs[j].Storing? && s.jobs[j].claim.transfers != []
      then StoreTotal(s, j, s.jobs[j].claim) else s
    case Crash(j) => At(s, j, Finished)
    case Take(tx) => s.(taken := s.taken + {tx})
    case Move(to) => if CanTransition(s.payment.status, to) then s.(payment := s.payment.(status := to)) else s
  }

  function Run(s: State, steps: seq<Step>): State
    decreases steps
  {
    if steps == [] then s else Run(Next(s, steps[0]), steps[1..])
  }

  function Start(p: Payment): State { State(p, {}, {}, map[], []) }

  /** An expired or closed payment is neither loaded nor fetched, and a job that finds it closed at its status
      check ends without storing anything. */
  lemma ShutPaymentTurnsJobsAway(s: State, j: JobId, now: int)
    requires s.payment.expiresAt <= now || (s.payment.status != Pending && s.payment.status != Partial)
    ensures Next(s, Fetch(j, now)) == s
    ensures j in s.jobs && s.jobs[j].Checked? ==> Next(s, Load(j, now)) == At(s, j, Finished)
    ensures j in s.jobs && s.jobs[j].Claiming? && s.payment.status != Pending && s.payment.status != Partial ==>
              Next(s, Guard(j)) == At(s, j, Finished) && Next(Next(s, Guard(j)), Store(j)) == Next(s, Guard(j))
  {
  }

  // ---------------------------------------------------------------- the chain of loads

  /** Every store read a total that some earlier store left, or the initial one. */
  predicate Backward(stores: seq<Claim>) { forall k | 0 <= k < |stores| :: stores[k].from <= k }

  /** The stores that the total after the first `n` builds on: the last of them, the one whose total that
      one loaded, and so on back. */
  function Chain(stores: seq<Claim>, n: nat): (c: set<nat>)
    requires Backward(stores) && n <= |stores|
    ensures forall k | k in c :: k < n
    decreases n
  {
    if n == 0 then {} else Chain(stores, stores[n - 1].from) + {n - 1}
  }

  /** Their amounts. */
  function ChainSum(stores: seq<Claim>, n: nat): nat
    requires Backward(stores) && n <= |stores|
    decreases n
  {
    if n == 0 then 0 else ChainSum(stores, stores[n - 1].from) + Added(stores[n - 1])
  }

  lemma {:induction false} ChainOfPrefix(stores: seq<Claim>, c: Claim, n: nat)
    requires Backward(stores) && n <= |stores| && c.from <= |stores|
    ensures Backward(stores + [c])
    ensures ChainSum(stores + [c], n) == ChainSum(stores, n) && Chain(stores + [c], n) == Chain(stores, n)
    decreases n
  {
    if n > 0 { ChainOfPrefix(stores, c, stores[n - 1].from); }
  }

  /** What a job loaded is the total that stood when it loaded. */
  predicate LoadedFrom(initial: nat, stores: seq<Claim>, base: nat, from: nat)
    requires Backward(stores)
  {
    from <= |stores| && base == initial + ChainSum(stores, from)
  }

  predicate JobOk(initial: nat, stores: seq<Claim>, job: Job)
    requires Backward(stores)
  {
    match job
    case Checked(_) => true
    case Loaded(_, base, from) => LoadedFrom(initial, stores, base, from)
    case Fetched(base, from) => LoadedFrom(initial, stores, base, from)
    case Claiming(c) => LoadedFrom(initial, stores, c.base, c.from)
    case Storing(c) => LoadedFrom(initial, stores, c.base, c.from)
    case Finished => true
  }

  predicate Inv(initial: nat, s: State) {
    && Backward(s.stores)
    && s.payment.received == initial + ChainSum(s.stores, |s.stores|)
    && forall j | j in s.jobs :: JobOk(initial, s.stores, s.jobs[j])
  }

  lemma JobOkAfterStore(initial: nat, stores: seq<Claim>, c: Claim, job: Job)
    requires Backward(stores) && c.from <= |stores| && JobOk(initial, stores, job)
    ensures Backward(stores + [c]) && JobOk(initial, stores + [c], job)
  {
    ChainOfPrefix(stores, c, |stores|);
    if job.Loaded? || job.Fetched? {
      ChainOfPrefix(stores, c, job.from);
    } else if job.Claiming? || job.Storing? {
      ChainOfPrefix(stores, c, job.claim.from);
    }
  }

  lemma StoreKeepsInv(initial: nat, s: State, j: JobId)
    requires Inv(initial, s) && j in s.jobs && s.jobs[j].Storing? && s.jobs[j].claim.transfers != []
    ensures Inv(initial, StoreTotal(s, j, s.jobs[j].claim))
  {
    var c := s.jobs[j].claim;
    var d := StoreTotal(s, j, c);
    assert JobOk(initial, s.stores, s.jobs[j]);
    if d.stores != s.stores {
      ChainOfPrefix(s.stores, c, |s.stores|);
      ChainOfPrefix(s.stores, c, c.from);
      forall i | i in d.jobs ensures JobOk(initial, d.stores, d.jobs[i]) {
        if i != j { JobOkAfterStore(initial, s.stores, c, s.jobs[i]); }
      }
    }
  }

  lemma NextKeepsInv(initial: nat, s: State, step: Step)
    requires Inv(initial, s)
    ensures Inv(initial, Next(s, step))
  {
    if step.Store? {
      if step.job in s.jobs && s.jobs[step.job].Storing? && s.jobs[step.job].claim.transfers != [] {
        StoreKeepsInv(initial, s, step.job);
      }
    } else {
      var d := Next(s, step);
      assert d.stores == s.stores && d.payment.received == s.payment.received;
      forall i | i in d.jobs ensures JobOk(initial, d.stores, d.jobs[i]) {
        if i in s.jobs { assert JobOk(initial, s.stores, s.jobs[i]); }
      }
    }
  }

  lemma {:induction false} RunKeepsInv(initial: nat, s: State, steps: seq<Step>)
    requires Inv(initial, s)
    ensures Inv(initial, Run(s, steps))
    decreases steps
  {
    if steps != [] {
      NextKeepsInv(initial, s, steps[0]);
      RunKeepsInv(initial, Next(s, steps[0]), steps[1..]);
    }
  }

  // ---------------------------------------------------------------- what the total is

  function AddedBy(stores: seq<Claim>): nat {
    if stores == [] then 0 else AddedBy(stores[..|stores| - 1]) + Added(stores[|stores| - 1])
  }

  /** Whatever the interleaving of any number of jobs, a payment's total is what the chain of loads behind its
      last store added to the initial amount; every other store has been overwritten. */
  lemma {:induction false} ReceivedIsTheChain(p: Payment, steps: seq<Step>)
    ensures var s := Run(Start(p), steps);
            Backward(s.stores) && s.payment.received == p.received + ChainSum(s.stores, |s.stores|)
  {
    RunKeepsInv(p.received, Start(p), steps);
  }

  /** Every store with an amount is among those that the total after the first `n` builds on. */
  predicate NothingOverwritten(stores: seq<Claim>, n: nat)
    requires Backward(stores) && n <= |stores|
  {
    forall k | 0 <= k < n :: k in Chain(stores, n) || Added(stores[k]) == 0
  }

  predicate AllZero(stores: seq<Claim>, first: nat, end: nat)
    requires end <= |stores|
  {
    forall k | first <= k < end :: Added(stores[k]) == 0
  }

  lemma {:induction false} AddedBetween(stores: seq<Claim>, first: nat, end: nat)
    requires first <= end <= |stores|
    ensures AddedBy(stores[..first]) <= AddedBy(stores[..end])
    ensures AddedBy(stores[..first]) == AddedBy(stores[..end]) <==> AllZero(stores, first, end)
    decreases end
  {
    if first < end {
      AddedBetween(stores, first, end - 1);
      assert stores[..end][..end - 1] == stores[..end - 1];
    }
  }

  /** The `n`-th store overwrites those between the one it loaded from and itself. */
  lemma OverwrittenStep(stores: seq<Claim>, n: nat)
    requires Backward(stores) && 0 < n <= |stores|
    ensures var from := stores[n - 1].from;
            NothingOverwritten(stores, n) <==> NothingOverwritten(stores, from) && AllZero(stores, from, n - 1)
  {
    var from := stores[n - 1].from;
    assert Chain(stores, n) == Chain(stores, from) + {n - 1};
    if NothingOverwritten(stores, n) {
      forall k | 0 <= k < from ensures k in Chain(stores, from) || Added(stores[k]) == 0 {
        assert k in Chain(stores, n) || Added(stores[k]) == 0;
      }
      forall k | from <= k < n - 1 ensures Added(stores[k]) == 0 {
        assert k in Chain(stores, n) || Added(stores[k]) == 0;
      }
    }
  }

  lemma {:induction false} ChainShortfall(stores: seq<Claim>, n: nat)
    requires Backward(stores) && n <= |stores|
    ensures ChainSum(stores, n) <= AddedBy(stores[..n])
    ensures ChainSum(stores, n) == AddedBy(stores[..n]) <==> NothingOverwritten(stores, n)
    decreases n
  {
    if n > 0 {
      hide NothingOverwritten, AllZero, Chain, Sum;
      var from := stores[n - 1].from;
      assert AddedBy(stores[..n]) == AddedBy(stores[..n - 1]) + Added(stores[n - 1]) by {
        assert stores[..n][..n - 1] == stores[..n - 1];
      }
      hide AddedBy, Added;
      OverwrittenStep(stores, n);
      AddedBetween(stores, from, n - 1);
      ChainShortfall(stores, from);
    }
  }

  /** Exactly when overlapping jobs lose nothing: the total is the sum of everything stored if and only if every
      store with an amount is on the chain, that is, no job that loaded the payment earlier stored over it. */
  lemma {:induction false} TotalIsWholeIff(p: Payment, steps: seq<Step>)
    ensures var s := Run(Start(p), steps);
            && Backward(s.stores)
            && s.payment.received <= p.received + AddedBy(s.stores)
            && (s.payment.received == p.received + AddedBy(s.stores) <==> NothingOverwritten(s.stores, |s.stores|))
  {
    ReceivedIsTheChain(p, steps);
    var stores := Run(Start(p), steps).stores;
    assert stores[..|stores|] == stores;
    ChainShortfall(stores, |stores|);
  }

  /** Each of the first `n` jobs loaded the payment as the store before its own had left it. */
  predicate Serial(stores: seq<Claim>, n: nat)
    requires n <= |stores|
  {
    forall k | 0 <= k < n :: stores[k].from == k
  }

  /** If every transfer is worth something, nothing is overwritten exactly when no job stores between
      another one's load and store. */
  lemma {:induction false} NothingOverwrittenIffSerial(stores: seq<Claim>, n: nat)
    requires Backward(stores) && n <= |stores| && forall k | 0 <= k < n :: Added(stores[k]) > 0
    ensures NothingOverwritten(stores, n) <==> Serial(stores, n)
    decreases n
  {
    if n > 0 {
      var from := stores[n - 1].from;
      OverwrittenStep(stores, n);
      NothingOverwrittenIffSerial(stores, from);
      hide NothingOverwritten;
      if from == n - 1 {
        assert Serial(stores, n) <==> Serial(stores, n - 1);
      } else {
        assert Added(stores[n - 2]) > 0;
      }
    }
  }

  /** Two stores, of one transfer or of two, in any run: both count if and only if the second job loaded the
      payment after the first one stored; otherwise the total is the second's alone. */
  lemma {:induction false} TwoStores(p: Payment, steps: seq<Step>)
    requires |Run(Start(p), steps).stores| == 2
    ensures var s := Run(Start(p), steps);
            var first, second := s.stores[0], s.stores[1];
            && first.from == 0 && second.from <= 1
            && s.payment.received == p.received + Added(second) + (if second.from == 1 then Added(first) else 0)
  {
    ReceivedIsTheChain(p, steps);
    var stores := Run(Start(p), steps).stores;
    assert ChainSum(stores, 2) == ChainSum(stores, stores[1].from) + Added(stores[1]);
    assert ChainSum(stores, 1) == Added(stores[0]);
  }

  /** `amount`, once for each of these stores. */
  function Each(stores: set<nat>, amount: nat): nat { |stores| * amount }

  lemma OneMore(c: set<nat>, d: set<nat>, last: nat, amount: nat)
    requires last !in c && d == c + {last}
    ensures Each(d, amount) == Each(c, amount) + amount
  {
    assert |d| == |c| + 1;
  }

  lemma {:induction false} ChainOfOne(stores: seq<Claim>, n: nat, t: Transfer)
    requires Backward(stores) && n <= |stores| && forall k | 0 <= k < |stores| :: stores[k].transfers == [t]
    ensures ChainSum(stores, n) == Each(Chain(stores, n), t.amount)
    decreases n
  {
    if n > 0 {
      var from := stores[n - 1].from;
      assert Sum([t]) == t.amount by { assert [t][..0] == []; }
      hide Sum, Each;
      ChainOfOne(stores, from, t);
      OneMore(Chain(stores, from), Chain(stores, n), n - 1, t.amount);
    }
  }

  lemma ChainOfTwo(stores: seq<Claim>)
    requires Backward(stores) && |stores| == 2
    ensures Chain(stores, 2) == if stores[1].from == 1 then {0, 1} else {1}
    ensures |Chain(stores, 2)| == 2 <==> stores[1].from == 1
  {
    assert Chain(stores, 0) == {} && Chain(stores, 1) == {0};
  }

  /** One transfer delivered any number of times, by jobs that all found it unrecorded: it is credited once
      for every store on the chain, so each job that loads the payment after an earlier one stored counts it again. */
  lemma {:induction false} RedeliveriesCredited(p: Payment, steps: seq<Step>, t: Transfer)
    requires forall c | c in Run(Start(p), steps).stores :: c.transfers == [t]
    ensures var s := Run(Start(p), steps);
            && Backward(s.stores)
            && s.payment.received == p.received + |Chain(s.stores, |s.stores|)| * t.amount
            && (|s.stores| == 2 ==> (|Chain(s.stores, 2)| == 2 <==> s.stores[1].from == 1))
  {
    ReceivedIsTheChain(p, steps);
    var stores := Run(Start(p), steps).stores;
    ChainOfOne(stores, |stores|, t);
    if |stores| == 2 { ChainOfTwo(stores); }
  }

  // ---------------------------------------------------------------- a deposit that is overwritten is gone

  predicate Carries(c: Claim, k: Key) { exists t :: t in c.transfers && t.key == k }

  /** The transfer does not count in the total after the first `n` stores. */
  predicate Uncounted(stores: seq<Claim>, n: nat, k: Key)
    requires Backward(stores) && n <= |stores|
    decreases n
  {
    n > 0 ==> !Carries(stores[n - 1], k) && Uncounted(stores, stores[n - 1].from, k)
  }

  /** The job neither brings the transfer nor loaded a total in which it counts. */
  predicate JobWithout(stores: seq<Claim>, job: Job, k: Key)
    requires Backward(stores)
  {
    match job
    case Checked(t) => t.key != k
    case Loaded(t, _, from) => t.key != k && from <= |stores| && Uncounted(stores, from, k)
    case Fetched(_, from) => from <= |stores| && Uncounted(stores, from, k)
    case Claiming(c) => !Carries(c, k) && c.from <= |stores| && Uncounted(stores, c.from, k)
    case Storing(c) => !Carries(c, k) && c.from <= |stores| && Uncounted(stores, c.from, k)
    case Finished => true
  }

  /** Recorded, not in the total, and no job under way brings it back. */
  predicate Overwritten(s: State, k: Key) {
    && Backward(s.stores) && k in s.recorded && Uncounted(s.stores, |s.stores|, k)
    && forall j | j in s.jobs :: JobWithout(s.stores, s.jobs[j], k)
  }

  lemma {:induction false} UncountedOfPrefix(stores: seq<Claim>, c: Claim, n: nat, k: Key)
    requires Backward(stores) && n <= |stores| && c.from <= |stores|
    ensures Backward(stores + [c]) && Uncounted(stores + [c], n, k) == Uncounted(stores, n, k)
    decreases n
  {
    if n > 0 { UncountedOfPrefix(stores, c, stores[n - 1].from, k); }
  }

  lemma JobWithoutAfterStore(stores: seq<Claim>, c: Claim, job: Job, k: Key)
    requires Backward(stores) && c.from <= |stores| && JobWithout(stores, job, k)
    ensures Backward(stores + [c]) && JobWithout(stores + [c], job, k)
  {
    UncountedOfPrefix(stores, c, |stores|, k);
    if job.Loaded? || job.Fetched? {
      UncountedOfPrefix(stores, c, job.from, k);
    } else if job.Claiming? || job.Storing? {
      UncountedOfPrefix(stores, c, job.claim.from, k);
    }
  }

  lemma {:induction false} UnseenIsUnrecorded(events: seq<Transfer>, recorded: set<Key>)
    ensures forall t | t in Unseen(events, recorded) :: t in events && t.key !in recorded
  {
    if events != [] { UnseenIsUnrecorded(events[..|events| - 1], recorded); }
  }

  lemma StoreKeepsOverwritten(s: State, j: JobId, k: Key)
    requires Overwritten(s, k) && j in s.jobs && s.jobs[j].Storing? && s.jobs[j].claim.transfers != []
    ensures Overwritten(StoreTotal(s, j, s.jobs[j].claim), k)
  {
    var c := s.jobs[j].claim;
    var d := StoreTotal(s, j, c);
    assert JobWithout(s.stores, s.jobs[j], k);
    if d.stores != s.stores {
      UncountedOfPrefix(s.stores, c, c.from, k);
      forall i | i in d.jobs ensures JobWithout(d.stores, d.jobs[i], k) {
        if i != j { JobWithoutAfterStore(s.stores, c, s.jobs[i], k); }
      }
    }
  }

  lemma NextKeepsOverwritten(s: State, step: Step, k: Key)
    requires Overwritten(s, k)
    ensures Overwritten(Next(s, step), k)
  {
    if step.Store? {
      if step.job in s.jobs && s.jobs[step.job].Storing? && s.jobs[step.job].claim.transfers != [] {
        StoreKeepsOverwritten(s, step.job, k);
      }
    } else {
      var d := Next(s, step);
      assert d.stores == s.stores && s.recorded <= d.recorded;
      if step.Scan? { UnseenIsUnrecorded(step.events, s.recorded); }
      forall i | i in d.jobs ensures JobWithout(d.stores, d.jobs[i], k) {
        if i in s.jobs { assert JobWithout(s.stores, s.jobs[i], k); }
      }
    }
  }

  /** No redelivery and no reconciliation ever brings an overwritten deposit back. */
  lemma {:induction false} OverwrittenForever(s: State, steps: seq<Step>, k: Key)
    requires Overwritten(s, k)
    ensures Overwritten(Run(s, steps), k)
    decreases steps
  {
    if steps != [] {
      NextKeepsOverwritten(s, steps[0], k);
      OverwrittenForever(Next(s, steps[0]), steps[1..], k);
    }
  }

  // ---------------------------------------------------------------- overlaps that happen

  lemma RunFirst(s: State, step: Step, rest: seq<Step>)
    ensures Run(s, [step] + rest) == Run(Next(s, step), rest)
  {
    assert ([step] + rest)[1..] == rest;
  }

  /** Record, check the status and store, by one job. */
  function Finish(j: JobId): seq<Step> { [Record(j), Guard(j), Store(j)] }

  lemma {:induction false} RunAppend(s: State, a: seq<Step>, b: seq<Step>)
    ensures Run(s, a + b) == Run(Run(s, a), b)
    decreases a
  {
    if a == [] {
      assert a + b == b;
    } else {
      assert (a + b)[1..] == a[1..] + b;
      RunAppend(Next(s, a[0]), a[1..], b);
    }
  }

  lemma RunThree(s: State, a: Step, b: Step, c: Step)
    ensures Run(s, [a, b, c]) == Next(Next(Next(s, a), b), c)
  {
    RunFirst(s, a, [b, c]);
    RunFirst(Next(s, a), b, [c]);
    RunFirst(Next(Next(s, a), b), c, []);
    assert [a] + [b, c] == [a, b, c] && [b] + [c] == [b, c] && [c] + [] == [c];
  }

  /** A job that has loaded an open payment and finishes undisturbed stores its total. */
  lemma FinishStores(s: State, j: JobId)
    requires j in s.jobs && s.jobs[j].Loaded? && CanAcceptDeposit(s.payment.status) && s.taken == {}
    ensures var l := s.jobs[j];
            var total := l.base + l.t.amount;
            var d := Run(s, Finish(j));
            && d.payment.received == total && d.payment.expected == s.payment.expected
            && d.payment.expiresAt == s.payment.expiresAt
            && d.payment.status == (if MeetsThreshold(s.payment, total) then Confirming else Partial)
            && d.recorded == s.recorded + {l.t.key} && d.taken == {} && d.jobs == s.jobs[j := Finished]
            && d.stores == s.stores + [Claim(l.base, l.from, [l.t])]
  {
    var l := s.jobs[j];
    assert Sum([l.t]) == l.t.amount by { assert [l.t][..0] == []; }
    RunThree(s, Record(j), Guard(j), Store(j));
    var d := Run(s, Finish(j));
    assert d.jobs == s.jobs[j := Finished];
  }

  /** A reconciliation that has fetched an open payment and goes on undisturbed: it settles the payment with
      what it fetched plus the transfers unrecorded by now, if they meet the threshold and their last txHash is free. */
  lemma ScanSettles(s: State, j: JobId, events: seq<Transfer>)
    requires j in s.jobs && s.jobs[j].Fetched? && CanAcceptDeposit(s.payment.status)
    ensures var c := Claim(s.jobs[j].base, s.jobs[j].from, Unseen(events, s.recorded));
            var d := Run(s, [Scan(j, events), Guard(j), Store(j)]);
            var settles := c.transfers != [] && MeetsThreshold(s.payment, Total(c))
                           && c.transfers[|c.transfers| - 1].key.tx !in s.taken;
            && d.recorded == s.recorded && d.taken == s.taken && d.jobs == s.jobs[j := Finished]
            && d.stores == (if settles then s.stores + [c] else s.stores)
            && d.payment == if settles
                            then s.payment.(status := Confirming, received := Total(c),
                                            settledBy := Some(c.transfers[|c.transfers| - 1].key.tx))
                            else s.payment
  {
    RunThree(s, Scan(j, events), Guard(j), Store(j));
    hide Unseen, Sum;
    assert Next(s, Scan(j, events)).jobs == s.jobs[j := Next(s, Scan(j, events)).jobs[j]];
    assert Run(s, [Scan(j, events), Guard(j), Store(j)]).jobs == s.jobs[j := Finished];
  }

  const ADDRESS: Address := 7

  const P := Payment(ADDRESS, 1_000, 0, Pending, 100, None)

  function Deposit(tx: TxHash, amount: nat): Transfer { Transfer(Key(tx, 0), ADDRESS, amount) }

  lemma UncountedWithout(stores: seq<Claim>, c: Claim, k: Key)
    requires stores == [c] || (|stores| == 2 && stores[1] == c)
    requires Backward(stores) && c.from == 0 && !Carries(c, k)
    ensures Uncounted(stores, |stores|, k)
  {
    assert Uncounted(stores, 0, k);
  }

  lemma RunFour(s: State, a: Step, b: Step, c: Step, d: Step)
    ensures Run(s, [a, b, c, d]) == Next(Next(Next(Next(s, a), b), c), d)
  {
    RunFirst(s, a, [b, c, d]);
    RunThree(Next(s, a), b, c, d);
    assert [a] + [b, c, d] == [a, b, c, d];
  }

  lemma BothLoad(t: Transfer, u: Transfer) returns (loads: seq<Step>)
    ensures Run(Start(P), loads) == State(P, {}, {}, map[0 := Loaded(t, 0, 0), 1 := Loaded(u, 0, 0)], [])
  {
    loads := [Check(0, t), Check(1, u), Load(0, 0), Load(1, 0)];
    RunFour(Start(P), Check(0, t), Check(1, u), Load(0, 0), Load(1, 0));
  }

  /** Two deposits of 300 and 400, both loaded before either is stored: both are recorded, and 300 are gone for good. */
  lemma OverlapLosesADeposit() returns (steps: seq<Step>)
    ensures var s := Run(Start(P), steps);
            s.payment.received == 400 && Key(2, 0) in s.recorded && Overwritten(s, Key(1, 0))
  {
    var t, u := Deposit(1, 300), Deposit(2, 400);
    var loads := BothLoad(t, u);
    steps := loads + Finish(0) + Finish(1);
    hide Next, Run;
    RunAppend(Start(P), loads, Finish(0));
    RunAppend(Start(P), loads + Finish(0), Finish(1));
    var s1 := Run(Start(P), loads);
    FinishStores(s1, 0);
    var s2 := Run(s1, Finish(0));
    FinishStores(s2, 1);
    var s := Run(s2, Finish(1));
    UncountedWithout(s.stores, s.stores[1], Key(1, 0));
  }

  /** One deposit of 300 delivered twice: both jobs find it unrecorded, the second loads after the first
      stored, and the payment has received 600. */
  lemma OverlapCreditsTwice() returns (steps: seq<Step>)
    ensures Run(Start(P), steps).payment.received == 600 && Run(Start(P), steps).recorded == {Key(1, 0)}
  {
    var t := Deposit(1, 300);
    var loads := [Check(0, t), Check(1, t), Load(0, 0)];
    steps := loads + Finish(0) + ([Load(1, 0)] + Finish(1));
    var s1 := State(P, {}, {}, map[0 := Loaded(t, 0, 0), 1 := Checked(t)], []);
    RunThree(Start(P), Check(0, t), Check(1, t), Load(0, 0));
    assert Run(Start(P), loads) == s1;
    RunAppend(Start(P), loads, Finish(0));
    RunAppend(Start(P), loads + Finish(0), [Load(1, 0)] + Finish(1));
    FinishStores(s1, 0);
    var s2 := Run(s1, Finish(0));
    RunFirst(s2, Load(1, 0), Finish(1));
    var s3 := Next(s2, Load(1, 0));
    assert s3.jobs[1] == Loaded(t, 300, 1);
    FinishStores(s3, 1);
  }

  lemma UnseenOfTwo(t: Transfer, u: Transfer, recorded: set<Key>)
    requires t.key in recorded && u.key !in recorded
    ensures Unseen([t, u], recorded) == [u]
  {
    assert [t, u][..1] == [t] && [t][..0] == [];
    assert Unseen([t], recorded) == [];
  }

  lemma FetchThenLoad(t: Transfer) returns (loads: seq<Step>)
    ensures Run(Start(P), loads) == State(P, {}, {}, map[0 := Fetched(0, 0), 1 := Loaded(t, 0, 0)], [])
  {
    loads := [Fetch(0, 0), Check(1, t), Load(1, 0)];
    RunThree(Start(P), Fetch(0, 0), Check(1, t), Load(1, 0));
  }

  lemma FetchThenStore(t: Transfer) returns (steps: seq<Step>)
    requires t.amount == 300
    ensures Run(Start(P), steps)
            == State(P.(received := 300, status := Partial), {t.key}, {}, map[0 := Fetched(0, 0), 1 := Finished],
                     [Claim(0, 0, [t])])
  {
    var loads := FetchThenLoad(t);
    steps := loads + Finish(1);
    hide Next, Run;
    RunAppend(Start(P), loads, Finish(1));
    FinishStores(Run(Start(P), loads), 1);
  }

  /** A reconciliation run that fetched the payment before a job stored 300, and compares keys after it,
      settles with the 1000 of the other deposit alone. */
  lemma StaleReconciliationLosesADeposit() returns (steps: seq<Step>)
    ensures var s := Run(Start(P), steps);
            s.payment.received == 1_000 && s.payment.status.Confirming? && Overwritten(s, Key(1, 0))
  {
    var t, u := Deposit(1, 300), Deposit(2, 1_000);
    var stored := FetchThenStore(t);
    var settles := [Scan(0, [t, u]), Guard(0), Store(0)];
    steps := stored + settles;
    hide Next, Run, Unseen;
    RunAppend(Start(P), stored, settles);
    var s2 := Run(Start(P), stored);
    UnseenOfTwo(t, u, s2.recorded);
    assert Sum([u]) == 1_000 by { assert [u][..0] == []; }
    hide Sum;
    ScanSettles(s2, 0, [t, u]);
    var s := Run(s2, settles);
    UncountedWithout(s.stores, Claim(0, 0, [u]), Key(1, 0));
  }

  /** Exactly when a store leaves the status of a payment alone that stopped accepting deposits after the
      job's status check: if its total settles the payment and either that is its status already or the
      txHash is taken. A short total pulls the payment back to PARTIAL, whatever it had become. */
  lemma StatusSurvivesIff(s: State, j: JobId)
    requires j in s.jobs && s.jobs[j].Storing? && s.jobs[j].claim.transfers != []
    requires !CanAcceptDeposit(s.payment.status)
    ensures var c := s.jobs[j].claim;
            var met := MeetsThreshold(s.payment, Total(c));
            var after := Next(s, Store(j)).payment.status;
            && (after == s.payment.status <==>
                met && (s.payment.status.Confirming? || c.transfers[|c.transfers| - 1].key.tx in s.taken))
            && (!met ==> after.Partial?)
  {
  }

  lemma GuardThenLoad(t: Transfer, u: Transfer) returns (early: seq<Step>)
    requires t.key != u.key
    ensures Run(Start(P), early)
            == State(P, {t.key}, {}, map[0 := Storing(Claim(0, 0, [t])), 1 := Loaded(u, 0, 0)], [])
  {
    var recorded := State(P, {t.key}, {}, map[0 := Claiming(Claim(0, 0, [t]))], []);
    RunThree(Start(P), Check(0, t), Load(0, 0), Record(0));
    assert Run(Start(P), [Check(0, t), Load(0, 0), Record(0)]) == recorded;
    RunThree(recorded, Guard(0), Check(1, u), Load(1, 0));
    RunAppend(Start(P), [Check(0, t), Load(0, 0), Record(0)], [Guard(0), Check(1, u), Load(1, 0)]);
    early := [Check(0, t), Load(0, 0), Record(0)] + [Guard(0), Check(1, u), Load(1, 0)];
  }

  /** It happens: 1000 settle the payment between another job's status check and its store of 300. */
  lemma SettledPaymentReopens() returns (settled: seq<Step>, last: Step)
    ensures Run(Start(P), settled).payment.status.Confirming? && Run(Start(P), settled).payment.received == 1_000
    ensures var s := Next(Run(Start(P), settled), last); s.payment.status.Partial? && s.payment.received == 300
  {
    var t, u := Deposit(1, 300), Deposit(2, 1_000);
    var early := GuardThenLoad(t, u);
    settled, last := early + Finish(1), Store(0);
    RunAppend(Start(P), early, Finish(1));
    FinishStores(Run(Start(P), early), 1);
    hide Run;
    assert Sum([t]) == 300 by { assert [t][..0] == []; }
  }

  // ---------------------------------------------------------------- without overlap

  /** This payment's view of the whole database. */
  ghost predicate Abstracts(s: State, db: Db, pid: Pid) {
    && pid < |db.payments| && s.payment == db.payments[pid] && s.recorded == db.records.Keys
    && forall tx :: tx in s.taken <==> TxTaken(db.payments, pid, tx)
  }

  function JobSteps(j: JobId, t: Transfer, now: int): seq<Step> { [Check(j, t), Load(j, now)] + Finish(j) }

  function ScanSteps(j: JobId, events: seq<Transfer>, now: int): seq<Step> {
    [Fetch(j, now), Scan(j, events), Guard(j), Store(j)]
  }

  lemma RunJob(s: State, j: JobId, t: Transfer, now: int)
    ensures Run(s, JobSteps(j, t, now))
            == Next(Next(Next(Next(Next(s, Check(j, t)), Load(j, now)), Record(j)), Guard(j)), Store(j))
  {
    assert JobSteps(j, t, now) == [Check(j, t)] + ([Load(j, now)] + Finish(j));
    RunFirst(s, Check(j, t), [Load(j, now)] + Finish(j));
    RunFirst(Next(s, Check(j, t)), Load(j, now), Finish(j));
    RunThree(Next(Next(s, Check(j, t)), Load(j, now)), Record(j), Guard(j), Store(j));
  }

  lemma OthersUntouched(db: Db, d: Db, pid: Pid)
    requires pid < |db.payments| == |d.payments| && d.payments == db.payments[pid := d.payments[pid]]
    ensures forall tx :: TxTaken(d.payments, pid, tx) <==> TxTaken(db.payments, pid, tx)
  {
    assert forall q | 0 <= q < |db.payments| && q != pid :: d.payments[q] == db.payments[q];
  }

  /** A job whose five steps run undisturbed does to its payment what the whole delivery does. */
  lemma UndisturbedJobIsADelivery(s: State, db: Db, pid: Pid, j: JobId, t: Transfer, now: int)
    requires Abstracts(s, db, pid) && DistinctAddresses(db) && t.to == s.payment.address && j !in s.jobs
    ensures Abstracts(Run(s, JobSteps(j, t, now)), HandleTransfer(db, t, now, false), pid)
  {
    RunJob(s, j, t, now);
    hide Run;
    var d := HandleTransfer(db, t, now, false);
    if t.key !in db.records && Open(s.payment, now) {
      assert FindOpen(db.payments, t.to, now) == Some(pid);
      DeliveryEffect(db, t, now, false);
      OthersUntouched(db, d, pid);
      assert Sum([t]) == t.amount by { assert [t][..0] == []; }
    } else if t.key !in db.records {
      assert FindOpen(db.payments, t.to, now).None?;
    }
  }

  lemma {:induction false} UnseenIsUnknown(events: seq<Transfer>, records: map<Key, Pid>, pid: Pid)
    requires forall e | e in events :: e.key in records ==> records[e.key] == pid
    ensures Unseen(events, records.Keys) == Unknown(events, records, pid)
  {
    if events != [] {
      assert events[|events| - 1] in events;
      UnseenIsUnknown(events[..|events| - 1], records, pid);
    }
  }

  lemma ReconcileIs(db: Db, pid: Pid, events: seq<Transfer>)
    requires pid < |db.payments| && CanAcceptDeposit(db.payments[pid].status)
    ensures var p := db.payments[pid];
            var unseen := Unknown(events, db.records, pid);
            var total := p.received + Sum(unseen);
            var d := Reconcile(db, pid, events).db;
            && d.records == db.records && |d.payments| == |db.payments|
            && d.payments == db.payments[pid := d.payments[pid]]
            && d.payments[pid] ==
                 if unseen == [] || !MeetsThreshold(p, total) then p
                 else
                   var tx := unseen[|unseen| - 1].key.tx;
                   if TxTaken(db.payments, pid, tx) then p
                   else p.(status := Confirming, received := total, settledBy := Some(tx))
  {
    hide Unknown, Sum, TxTaken;
  }

  /** And a reconciliation whose four steps run undisturbed what the whole one does. */
  lemma UndisturbedScanIsAReconciliation(s: State, db: Db, pid: Pid, j: JobId, events: seq<Transfer>, now: int)
    requires Abstracts(s, db, pid) && Open(s.payment, now) && j !in s.jobs
    requires forall e | e in events :: e.key in db.records ==> db.records[e.key] == pid
    ensures Abstracts(Run(s, ScanSteps(j, events, now)), Reconcile(db, pid, events).db, pid)
  {
    UnseenIsUnknown(events, db.records, pid);
    var s1 := Next(s, Fetch(j, now));
    assert ScanSteps(j, events, now) == [Fetch(j, now)] + [Scan(j, events), Guard(j), Store(j)];
    RunFirst(s, Fetch(j, now), [Scan(j, events), Guard(j), Store(j)]);
    hide Next, Run, Unknown, Unseen, Sum;
    ScanSettles(s1, j, events);
    ReconcileIs(db, pid, events);
    OthersUntouched(db, Reconcile(db, pid, events).db, pid);
  }
}
