/**
 What crediting keeps over every run: job redelivery, duplication and reordering, crashes after a
 transfer is recorded, reconciliation scans, expiry, settlement and manual confirmation, in any order.
 Jobs run one at a time; `chain` holds the transfers that exist on chain.
 */
module DepositProperties {
  import opened Common
  import opened Deposits

  datatype Step =
    | Create(address: Address, expected: nat, expiresAt: int)
    | Deliver(key: Key, now: int, crash: bool)
    | Recon(pid: Pid, scan: seq<Key>, now: int)
    | Move(pid: Pid, to: Status)
    | ManualConfirm(pid: Pid, tx: TxHash)

  type Chain = c: map<Key, Transfer> | forall k | k in c :: c[k].key == k witness map[]

  predicate DistinctKeys(ks: seq<Key>) { forall i, j | 0 <= i < j < |ks| :: ks[i] != ks[j] }

  /** What the filtered log query can return for a payment: distinct transfers to its address. */
  predicate ValidScan(chain: Chain, db: Db, pid: Pid, scan: seq<Key>) {
    && pid < |db.payments|
    && DistinctKeys(scan)
    && forall k | k in scan :: k in chain && chain[k].to == db.payments[pid].address
  }

  function Fetch(chain: Chain, scan: seq<Key>): seq<Transfer>
    requires forall k | k in scan :: k in chain
  {
    seq(|scan|, i requires 0 <= i < |scan| => chain[scan[i]])
  }

  function Next(chain: Chain, db: Db, s: Step): Db {
    match s
    case Create(a, expected, expiresAt) =>
      db.(payments := db.payments + [Payment(a, expected, 0, Pending, expiresAt, None)])
    case Deliver(k, now, crash) => if k in chain then HandleTransfer(db, chain[k], now, crash) else db
    case Recon(pid, scan, now) =>
      if ValidScan(chain, db, pid, scan) && Open(db.payments[pid], now)
      then Reconcile(db, pid, Fetch(chain, scan)).db else db
    case Move(pid, to) =>
      if pid < |db.payments| && CanTransition(db.payments[pid].status, to)
         && (to.Expired? || to.Failed? || to.Completed? || to.Refunded?)
      then db.(payments := db.payments[pid := db.payments[pid].(status := to)]) else db
    case ManualConfirm(pid, tx) =>
      if pid < |db.payments| && db.payments[pid].status.Pending?
         && forall q | 0 <= q < |db.payments| :: db.payments[q].settledBy != Some(tx)
      then db.(payments := db.payments[pid := db.payments[pid].(status := Completed, settledBy := Some(tx))]) else db
  }

  function Run(chain: Chain, db: Db, steps: seq<Step>): Db
    decreases steps
  {
    if steps == [] then db else Run(chain, Next(chain, db, steps[0]), steps[1..])
  }

  const EMPTY := Db([], map[], [])

  /** Each payment has a deposit address of its own. */
  predicate DistinctAddresses(db: Db) {
    forall p, q | 0 <= p < q < |db.payments| :: db.payments[p].address != db.payments[q].address
  }

  predicate CreditedOnce(db: Db) {
    forall i, j | 0 <= i < j < |db.credits| :: db.credits[i].key != db.credits[j].key
  }

  function CreditedTo(cs: seq<Credit>, pid: Pid): nat {
    if cs == [] then 0
    else CreditedTo(cs[..|cs| - 1], pid) + if cs[|cs| - 1].pid == pid then cs[|cs| - 1].amount else 0
  }

  predicate RecordsValid(chain: Chain, ps: seq<Payment>, records: map<Key, Pid>) {
    forall k | k in records :: k in chain && records[k] < |ps| && ps[records[k]].address == chain[k].to
  }

  predicate CreditValid(chain: Chain, ps: seq<Payment>, c: Credit) {
    c.key in chain && c.pid < |ps| && c.amount == chain[c.key].amount && ps[c.pid].address == chain[c.key].to
  }

  predicate TotalsMatch(ps: seq<Payment>, cs: seq<Credit>) {
    forall p | 0 <= p < |ps| :: ps[p].received == CreditedTo(cs, p)
  }

  /** While its payment accepts deposits, a credited transfer is linked to it. */
  predicate Linked(ps: seq<Payment>, records: map<Key, Pid>, c: Credit) {
    c.pid < |ps| && CanAcceptDeposit(ps[c.pid].status) ==> c.key in records && records[c.key] == c.pid
  }

  predicate Inv(chain: Chain, db: Db) {
    && RecordsValid(chain, db.payments, db.records)
    && (forall c | c in db.credits :: CreditValid(chain, db.payments, c))
    && TotalsMatch(db.payments, db.credits)
    && (forall c | c in db.credits :: Linked(db.payments, db.records, c))
    && CreditedOnce(db)
  }

  // ---------------------------------------------------------------- bookkeeping lemmas

  lemma CreditedSnoc(cs: seq<Credit>, c: Credit, p: Pid)
    ensures CreditedTo(cs + [c], p) == CreditedTo(cs, p) + if c.pid == p then c.amount else 0
  {
    assert (cs + [c])[..|cs|] == cs;
  }

  lemma CreditsForSnoc(ts: seq<Transfer>, pid: Pid)
    requires ts != []
    ensures var n := |ts| - 1;
            CreditsFor(ts, pid) == CreditsFor(ts[..n], pid) + [Credit(ts[n].key, pid, ts[n].amount)]
  {
  }

  lemma {:induction false} CreditedBatch(cs: seq<Credit>, ts: seq<Transfer>, pid: Pid, p: Pid)
    ensures CreditedTo(cs + CreditsFor(ts, pid), p) == CreditedTo(cs, p) + if p == pid then Sum(ts) else 0
  {
    if ts == [] {
      assert cs + CreditsFor(ts, pid) == cs;
    } else {
      hide CreditsFor, CreditedTo;
      var n := |ts| - 1;
      var c := Credit(ts[n].key, pid, ts[n].amount);
      CreditedBatch(cs, ts[..n], pid, p);
      CreditsForSnoc(ts, pid);
      assert cs + CreditsFor(ts, pid) == (cs + CreditsFor(ts[..n], pid)) + [c];
      CreditedSnoc(cs + CreditsFor(ts[..n], pid), c, p);
    }
  }

  lemma {:induction false} NoCredits(cs: seq<Credit>, p: Pid)
    requires forall c | c in cs :: c.pid != p
    ensures CreditedTo(cs, p) == 0
  {
    if cs != [] { NoCredits(cs[..|cs| - 1], p); }
  }

  predicate DistinctTransfers(ts: seq<Transfer>) { forall i, j | 0 <= i < j < |ts| :: ts[i].key != ts[j].key }

  lemma {:induction false} UnknownSelects(events: seq<Transfer>, records: map<Key, Pid>, pid: Pid)
    ensures forall t | t in Unknown(events, records, pid) ::
              t in events && !(t.key in records && records[t.key] == pid)
    ensures DistinctTransfers(events) ==> DistinctTransfers(Unknown(events, records, pid))
  {
    if events != [] {
      var n := |events| - 1;
      UnknownSelects(events[..n], records, pid);
      if DistinctTransfers(events) {
        forall t | t in events[..n] ensures t.key != events[n].key {
          var i :| 0 <= i < n && events[i] == t;
        }
      }
    }
  }

  // ---------------------------------------------------------------- one step

  lemma AddressesOnlyGrow(chain: Chain, db: Db, s: Step)
    ensures var d := Next(chain, db, s);
            && |db.payments| <= |d.payments|
            && (forall p | 0 <= p < |db.payments| :: d.payments[p].address == db.payments[p].address)
            && (DistinctAddresses(d) ==> DistinctAddresses(db))
  {
    var d := Next(chain, db, s);
    assert |db.payments| <= |d.payments|;
    assert forall p | 0 <= p < |db.payments| :: d.payments[p].address == db.payments[p].address;
  }

  lemma AppendKeepsOnce(cs: seq<Credit>, ts: seq<Transfer>, pid: Pid)
    requires forall i, j | 0 <= i < j < |cs| :: cs[i].key != cs[j].key
    requires DistinctTransfers(ts)
    requires forall t, c | t in ts && c in cs :: t.key != c.key
    ensures var all := cs + CreditsFor(ts, pid); forall i, j | 0 <= i < j < |all| :: all[i].key != all[j].key
  {
    var all := cs + CreditsFor(ts, pid);
    forall i, j | 0 <= i < j < |all| ensures all[i].key != all[j].key {
      if i < |cs| <= j {
        assert cs[i] in cs && ts[j - |cs|] in ts;
      }
    }
  }

  /** Crediting transfers `ts`, none of them credited before, to an open payment keeps everything. */
  lemma CreditingKeepsInv(chain: Chain, db: Db, pid: Pid, ts: seq<Transfer>, d: Db)
    requires Inv(chain, db) && pid < |db.payments| && CanAcceptDeposit(db.payments[pid].status)
    requires forall t | t in ts :: t.key in chain && t == chain[t.key] && t.to == db.payments[pid].address
    requires DistinctTransfers(ts)
    requires forall t, c | t in ts && c in db.credits :: t.key != c.key
    requires |d.payments| == |db.payments| && d.payments[pid].address == db.payments[pid].address
    requires d.payments == db.payments[pid := d.payments[pid]]
    requires d.payments[pid].received == db.payments[pid].received + Sum(ts)
    requires d.credits == db.credits + CreditsFor(ts, pid)
    requires RecordsValid(chain, d.payments, d.records)
    requires forall k | k in db.records :: k in d.records && d.records[k] == db.records[k]
    requires CanAcceptDeposit(d.payments[pid].status) ==>
               forall t | t in ts :: t.key in d.records && d.records[t.key] == pid
    ensures Inv(chain, d)
  {
    var added := CreditsFor(ts, pid);
    forall c | c in added ensures CreditValid(chain, d.payments, c) && Linked(d.payments, d.records, c) {
      var i :| 0 <= i < |added| && added[i] == c;
      assert ts[i] in ts;
    }
    forall c | c in db.credits ensures CreditValid(chain, d.payments, c) && Linked(d.payments, d.records, c) {
      assert CreditValid(chain, db.payments, c) && Linked(db.payments, db.records, c);
    }
    forall p | 0 <= p < |db.payments| ensures d.payments[p].received == CreditedTo(d.credits, p) {
      CreditedBatch(db.credits, ts, pid, p);
    }
    AppendKeepsOnce(db.credits, ts, pid);
  }

  /** What a first delivery does to an open payment `pid`: it records the transfer, and either stops there
      or credits it as well. */
  lemma DeliveryEffect(db: Db, t: Transfer, now: int, crash: bool)
    requires t.key !in db.records && FindOpen(db.payments, t.to, now).Some?
    ensures var pid := FindOpen(db.payments, t.to, now).value;
            var d := HandleTransfer(db, t, now, crash);
            var p := db.payments[pid];
            && d.records == db.records[t.key := pid]
            && |d.payments| == |db.payments| && d.payments[pid].address == p.address
            && d.payments == db.payments[pid := d.payments[pid]]
            && (if crash || (MeetsThreshold(p, p.received + t.amount) && TxTaken(db.payments, pid, t.key.tx))
                then d.payments == db.payments && d.credits == db.credits
                else d.payments[pid].received == p.received + t.amount
                     && d.credits == db.credits + [Credit(t.key, pid, t.amount)]
                     && d.payments[pid].status
                        == (if MeetsThreshold(p, p.received + t.amount) then Confirming else Partial))
  {
    hide TxTaken, MeetsThreshold;
  }

  lemma UnrecordedIsUncredited(chain: Chain, db: Db, k: Key, pid: Pid)
    requires Inv(chain, db) && DistinctAddresses(db) && k in chain && k !in db.records
    requires pid < |db.payments| && db.payments[pid].address == chain[k].to && CanAcceptDeposit(db.payments[pid].status)
    ensures forall c | c in db.credits :: c.key != k
  {
    forall c | c in db.credits ensures c.key != k {
      assert CreditValid(chain, db.payments, c) && Linked(db.payments, db.records, c);
    }
  }

  lemma RecordingKeepsInv(chain: Chain, db: Db, k: Key, pid: Pid)
    requires Inv(chain, db) && k in chain && k !in db.records
    requires pid < |db.payments| && db.payments[pid].address == chain[k].to
    ensures RecordsValid(chain, db.payments, db.records[k := pid])
    ensures Inv(chain, db.(records := db.records[k := pid]))
  {
    var d := db.(records := db.records[k := pid]);
    forall c | c in db.credits ensures Linked(d.payments, d.records, c) {
      assert Linked(db.payments, db.records, c);
    }
  }

  lemma CreditingOneKeepsInv(chain: Chain, db: Db, t: Transfer, pid: Pid, d: Db)
    requires Inv(chain, db) && DistinctAddresses(db) && t.key in chain && t == chain[t.key] && t.key !in db.records
    requires pid < |db.payments| && db.payments[pid].address == t.to && CanAcceptDeposit(db.payments[pid].status)
    requires d.records == db.records[t.key := pid] && d.credits == db.credits + [Credit(t.key, pid, t.amount)]
    requires |d.payments| == |db.payments| && d.payments == db.payments[pid := d.payments[pid]]
    requires d.payments[pid].address == t.to && d.payments[pid].received == db.payments[pid].received + t.amount
    ensures Inv(chain, d)
  {
    UnrecordedIsUncredited(chain, db, t.key, pid);
    assert CreditsFor([t], pid) == [Credit(t.key, pid, t.amount)];
    assert Sum([t]) == t.amount by { assert [t][..0] == []; }
    assert RecordsValid(chain, d.payments, d.records);
    hide Inv, DistinctAddresses, RecordsValid, CreditsFor, Sum;
    CreditingKeepsInv(chain, db, pid, [t], d);
  }

  lemma DeliverKeepsInv(chain: Chain, db: Db, k: Key, now: int, crash: bool)
    requires Inv(chain, db) && DistinctAddresses(db) && k in chain
    ensures Inv(chain, HandleTransfer(db, chain[k], now, crash))
  {
    var t := chain[k];
    var d := HandleTransfer(db, t, now, crash);
    if k !in db.records && FindOpen(db.payments, t.to, now).Some? {
      hide Inv, DistinctAddresses, HandleTransfer, FindOpen, TxTaken, MeetsThreshold;
      var pid := FindOpen(db.payments, t.to, now).value;
      DeliveryEffect(db, t, now, crash);
      if d.credits == db.credits {
        RecordingKeepsInv(chain, db, k, pid);
        assert d == db.(records := db.records[k := pid]);
      } else {
        CreditingOneKeepsInv(chain, db, t, pid, d);
      }
    }
  }

  lemma FetchIsOnChain(chain: Chain, db: Db, pid: Pid, scan: seq<Key>)
    requires ValidScan(chain, db, pid, scan)
    ensures var ts := Fetch(chain, scan);
            && DistinctTransfers(ts)
            && forall t | t in ts :: t.key in chain && t == chain[t.key] && t.to == db.payments[pid].address
  {
    var ts := Fetch(chain, scan);
    forall t | t in ts ensures t.key in chain && t == chain[t.key] && t.to == db.payments[pid].address {
      var i :| 0 <= i < |ts| && ts[i] == t;
      assert scan[i] in scan;
    }
  }

  lemma UnknownIsUncredited(chain: Chain, db: Db, pid: Pid, ts: seq<Transfer>)
    requires Inv(chain, db) && DistinctAddresses(db) && pid < |db.payments| && CanAcceptDeposit(db.payments[pid].status)
    requires forall t | t in ts :: t.key in chain && t == chain[t.key] && t.to == db.payments[pid].address
    requires forall t | t in ts :: !(t.key in db.records && db.records[t.key] == pid)
    ensures forall t, c | t in ts && c in db.credits :: t.key != c.key
  {
    forall t, c | t in ts && c in db.credits ensures t.key != c.key {
      assert CreditValid(chain, db.payments, c) && Linked(db.payments, db.records, c);
    }
  }

  /** What one reconciliation changes, if it changes anything. */
  lemma ReconcileEffect(db: Db, pid: Pid, events: seq<Transfer>)
    requires pid < |db.payments|
    ensures var unseen := Unknown(events, db.records, pid);
            var d := Reconcile(db, pid, events).db;
            && d.records == db.records && |d.payments| == |db.payments|
            && (d == db ||
                (d.payments == db.payments[pid := d.payments[pid]]
                 && d.payments[pid].address == db.payments[pid].address
                 && d.payments[pid].status.Confirming?
                 && d.payments[pid].received == db.payments[pid].received + Sum(unseen)
                 && d.credits == db.credits + CreditsFor(unseen, pid)))
  {
    hide TxTaken, MeetsThreshold, Unknown, Sum, CreditsFor;
  }

  lemma ReconKeepsInv(chain: Chain, db: Db, pid: Pid, scan: seq<Key>, now: int)
    requires Inv(chain, db) && DistinctAddresses(db)
    requires ValidScan(chain, db, pid, scan) && Open(db.payments[pid], now)
    ensures Inv(chain, Reconcile(db, pid, Fetch(chain, scan)).db)
  {
    var events := Fetch(chain, scan);
    var unseen := Unknown(events, db.records, pid);
    var d := Reconcile(db, pid, events).db;
    FetchIsOnChain(chain, db, pid, scan);
    UnknownSelects(events, db.records, pid);
    ReconcileEffect(db, pid, events);
    if d != db {
      UnknownIsUncredited(chain, db, pid, unseen);
      assert RecordsValid(chain, d.payments, d.records);
      hide Inv, DistinctAddresses, RecordsValid, DistinctTransfers, Reconcile, Unknown, Fetch, Sum, CreditsFor;
      CreditingKeepsInv(chain, db, pid, unseen, d);
    }
  }

  lemma CreateKeepsInv(chain: Chain, db: Db, p: Payment)
    requires Inv(chain, db) && p.received == 0
    ensures Inv(chain, db.(payments := db.payments + [p]))
  {
    var d := db.(payments := db.payments + [p]);
    var n := |db.payments|;
    assert forall q | 0 <= q < n :: d.payments[q] == db.payments[q];
    forall c | c in db.credits ensures CreditValid(chain, d.payments, c) && Linked(d.payments, d.records, c) {
      assert CreditValid(chain, db.payments, c) && Linked(db.payments, db.records, c);
    }
    NoCredits(db.credits, n);
  }

  /** A status change that accepts no deposits, whatever else it sets, as long as amount and address stay. */
  lemma ClosingKeepsInv(chain: Chain, db: Db, pid: Pid, p: Payment)
    requires Inv(chain, db) && pid < |db.payments|
    requires p.received == db.payments[pid].received && p.address == db.payments[pid].address
    requires CanAcceptDeposit(p.status) ==> CanAcceptDeposit(db.payments[pid].status)
    ensures Inv(chain, db.(payments := db.payments[pid := p]))
  {
    var d := db.(payments := db.payments[pid := p]);
    forall c | c in db.credits ensures CreditValid(chain, d.payments, c) && Linked(d.payments, d.records, c) {
      assert CreditValid(chain, db.payments, c) && Linked(db.payments, db.records, c);
    }
  }

  lemma NextKeepsInv(chain: Chain, db: Db, s: Step)
    requires Inv(chain, db) && DistinctAddresses(db)
    ensures Inv(chain, Next(chain, db, s))
  {
    hide Inv, DistinctAddresses, HandleTransfer, Reconcile;
    match s
    case Create(a, expected, expiresAt) => CreateKeepsInv(chain, db, Payment(a, expected, 0, Pending, expiresAt, None));
    case Deliver(k, now, crash) => if k in chain { DeliverKeepsInv(chain, db, k, now, crash); }
    case Recon(pid, scan, now) =>
      if ValidScan(chain, db, pid, scan) && Open(db.payments[pid], now) { ReconKeepsInv(chain, db, pid, scan, now); }
    case Move(pid, to) =>
      if pid < |db.payments| && !CanAcceptDeposit(to) {
        ClosingKeepsInv(chain, db, pid, db.payments[pid].(status := to));
      }
    case ManualConfirm(pid, tx) =>
      if pid < |db.payments| {
        ClosingKeepsInv(chain, db, pid, db.payments[pid].(status := Completed, settledBy := Some(tx)));
      }
  }

  lemma {:induction false} RunDistinctBackwards(chain: Chain, db: Db, steps: seq<Step>)
    requires DistinctAddresses(Run(chain, db, steps))
    ensures DistinctAddresses(db)
    decreases steps
  {
    if steps != [] {
      RunDistinctBackwards(chain, Next(chain, db, steps[0]), steps[1..]);
      AddressesOnlyGrow(chain, db, steps[0]);
    }
  }

  lemma {:induction false} RunKeepsInv(chain: Chain, db: Db, steps: seq<Step>)
    requires Inv(chain, db) && DistinctAddresses(Run(chain, db, steps))
    ensures DistinctAddresses(db) && Inv(chain, Run(chain, db, steps))
    decreases steps
  {
    if steps != [] {
      var d := Next(chain, db, steps[0]);
      RunDistinctBackwards(chain, d, steps[1..]);
      AddressesOnlyGrow(chain, db, steps[0]);
      NextKeepsInv(chain, db, steps[0]);
      RunKeepsInv(chain, d, steps[1..]);
    }
  }

  // ---------------------------------------------------------------- sums over distinct transfers

  ghost function SumKeys(chain: Chain, ks: set<Key>): nat
    requires ks <= chain.Keys
  {
    if !exists k :: k in ks then 0
    else
      var k :| k in ks;
      chain[k].amount + SumKeys(chain, ks - {k})
  }

  lemma {:induction false} SumKeysRemove(chain: Chain, ks: set<Key>, k: Key)
    requires ks <= chain.Keys && k in ks
    ensures SumKeys(chain, ks) == chain[k].amount + SumKeys(chain, ks - {k})
    decreases ks
  {
    var x :| x in ks && SumKeys(chain, ks) == chain[x].amount + SumKeys(chain, ks - {x});
    if x != k {
      SumKeysRemove(chain, ks - {x}, k);
      SumKeysRemove(chain, ks - {k}, x);
      assert ks - {x} - {k} == ks - {k} - {x};
    }
  }

  lemma {:induction false} SumKeysMonotone(chain: Chain, ks: set<Key>, ls: set<Key>)
    requires ks <= ls <= chain.Keys
    ensures SumKeys(chain, ks) <= SumKeys(chain, ls)
    decreases ls
  {
    if k :| k in ks {
      SumKeysRemove(chain, ks, k);
      SumKeysRemove(chain, ls, k);
      SumKeysMonotone(chain, ks - {k}, ls - {k});
    }
  }

  function CreditedKeys(cs: seq<Credit>, pid: Pid): set<Key> {
    set c | c in cs && c.pid == pid :: c.key
  }

  function RecordedKeys(db: Db, pid: Pid): set<Key> { set k | k in db.records && db.records[k] == pid }

  function TransfersTo(chain: Chain, a: Address): set<Key> { set k | k in chain && chain[k].to == a }

  lemma {:induction false} CreditedIsSum(chain: Chain, ps: seq<Payment>, cs: seq<Credit>, pid: Pid)
    requires forall c | c in cs :: CreditValid(chain, ps, c)
    requires forall i, j | 0 <= i < j < |cs| :: cs[i].key != cs[j].key
    ensures CreditedKeys(cs, pid) <= chain.Keys
    ensures CreditedTo(cs, pid) == SumKeys(chain, CreditedKeys(cs, pid))
  {
    if cs != [] {
      var n := |cs| - 1;
      CreditedIsSum(chain, ps, cs[..n], pid);
      assert CreditValid(chain, ps, cs[n]);
      assert cs == cs[..n] + [cs[n]];
      if cs[n].pid == pid {
        assert CreditedKeys(cs, pid) == CreditedKeys(cs[..n], pid) + {cs[n].key};
        assert CreditedKeys(cs, pid) - {cs[n].key} == CreditedKeys(cs[..n], pid);
        SumKeysRemove(chain, CreditedKeys(cs, pid), cs[n].key);
      } else {
        assert CreditedKeys(cs, pid) == CreditedKeys(cs[..n], pid);
      }
    }
  }

  // ---------------------------------------------------------------- main results over runs

  /** Whatever the interleaving, every transfer is credited at most once and to one payment only, the
      payment it was sent to; a payment's received total is exactly the sum of the transfers credited
      to it and never exceeds the sum of the distinct transfers to its address. */
  lemma {:induction false} CreditedAtMostOnce(chain: Chain, steps: seq<Step>)
    requires DistinctAddresses(Run(chain, EMPTY, steps))
    ensures var db := Run(chain, EMPTY, steps);
            && CreditedOnce(db)
            && (forall c | c in db.credits :: CreditValid(chain, db.payments, c))
            && forall p | 0 <= p < |db.payments| ::
                 CreditedKeys(db.credits, p) <= TransfersTo(chain, db.payments[p].address)
                 && db.payments[p].received == SumKeys(chain, CreditedKeys(db.credits, p))
                    <= SumKeys(chain, TransfersTo(chain, db.payments[p].address))
  {
    RunKeepsInv(chain, EMPTY, steps);
    var db := Run(chain, EMPTY, steps);
    forall p | 0 <= p < |db.payments|
      ensures CreditedKeys(db.credits, p) <= TransfersTo(chain, db.payments[p].address)
      ensures db.payments[p].received == SumKeys(chain, CreditedKeys(db.credits, p))
              <= SumKeys(chain, TransfersTo(chain, db.payments[p].address))
    {
      CreditedIsSum(chain, db.payments, db.credits, p);
      SumKeysMonotone(chain, CreditedKeys(db.credits, p), TransfersTo(chain, db.payments[p].address));
    }
  }

  predicate Credited(db: Db, k: Key) { exists c :: c in db.credits && c.key == k }

  /** Recorded, hence skipped by both workers, but never added to any payment. */
  predicate Lost(db: Db, k: Key) { k in db.records && !Credited(db, k) }

  /** Exactly when a first delivery to an open payment is lost: the worker stopped after recording it,
      or it would settle the payment under a txHash that another payment already holds. */
  lemma DeliveryLostIff(chain: Chain, db: Db, k: Key, now: int, crash: bool)
    requires Inv(chain, db) && DistinctAddresses(db) && k in chain && k !in db.records
    requires FindOpen(db.payments, chain[k].to, now).Some?
    ensures var pid := FindOpen(db.payments, chain[k].to, now).value;
            var d := HandleTransfer(db, chain[k], now, crash);
            && (Lost(d, k) <==> crash || (MeetsThreshold(db.payments[pid], db.payments[pid].received + chain[k].amount)
                                          && TxTaken(db.payments, pid, k.tx)))
            && k in d.records && d.records[k] == pid
            && (!Lost(d, k) ==> d.payments[pid].received == db.payments[pid].received + chain[k].amount
                                && (d.payments[pid].status.Confirming? <==>
                                    MeetsThreshold(db.payments[pid], d.payments[pid].received)))
  {
    var pid := FindOpen(db.payments, chain[k].to, now).value;
    var d := HandleTransfer(db, chain[k], now, crash);
    UnrecordedIsUncredited(chain, db, k, pid);
    DeliveryEffect(db, chain[k], now, crash);
    hide Inv, DistinctAddresses, HandleTransfer, FindOpen, TxTaken;
    if d.credits != db.credits {
      assert d.credits[|db.credits|] in d.credits;
    }
  }

  lemma LostStaysLostStep(chain: Chain, db: Db, k: Key, s: Step)
    requires Inv(chain, db) && DistinctAddresses(db) && Lost(db, k)
    ensures Lost(Next(chain, db, s), k)
  {
    if s.Recon? && ValidScan(chain, db, s.pid, s.scan) && Open(db.payments[s.pid], s.now) {
      FetchIsOnChain(chain, db, s.pid, s.scan);
      var events := Fetch(chain, s.scan);
      var unseen := Unknown(events, db.records, s.pid);
      UnknownSelects(events, db.records, s.pid);
      var added := CreditsFor(unseen, s.pid);
      forall c | c in added ensures c.key != k {
        var i :| 0 <= i < |added| && added[i] == c;
        assert unseen[i] in unseen;
      }
    }
  }

  /** The safety net does not catch a lost deposit: no redelivery and no reconciliation ever credits it. */
  lemma {:induction false} LostForever(chain: Chain, db: Db, k: Key, steps: seq<Step>)
    requires Inv(chain, db) && Lost(db, k) && DistinctAddresses(Run(chain, db, steps))
    ensures Lost(Run(chain, db, steps), k)
    decreases steps
  {
    if steps != [] {
      var d := Next(chain, db, steps[0]);
      RunDistinctBackwards(chain, d, steps[1..]);
      AddressesOnlyGrow(chain, db, steps[0]);
      NextKeepsInv(chain, db, steps[0]);
      LostStaysLostStep(chain, db, k, steps[0]);
      LostForever(chain, d, k, steps[1..]);
    }
  }

  predicate DeliveryThrows(chain: Chain, db: Db, k: Key, now: int)
    requires k in chain
  {
    var found := FindOpen(db.payments, chain[k].to, now);
    found.Some? && MeetsThreshold(db.payments[found.value], db.payments[found.value].received + chain[k].amount)
    && TxTaken(db.payments, found.value, k.tx)
  }

  /** No reconciliation, and no delivery that stops or fails between recording and crediting. */
  predicate LiveWithoutLoss(chain: Chain, db: Db, steps: seq<Step>)
    decreases steps
  {
    steps == [] ||
    (!steps[0].Recon?
     && (steps[0].Deliver? && steps[0].key in chain ==>
           !steps[0].crash && !DeliveryThrows(chain, db, steps[0].key, steps[0].now))
     && LiveWithoutLoss(chain, Next(chain, db, steps[0]), steps[1..]))
  }

  /** Credits and records agree entirely. */
  predicate InStep(db: Db) {
    && (forall c | c in db.credits :: c.key in db.records && db.records[c.key] == c.pid)
    && (forall k | k in db.records :: Credited(db, k))
  }

  lemma DeliveryInStep(chain: Chain, db: Db, k: Key, now: int)
    requires Inv(chain, db) && DistinctAddresses(db) && InStep(db)
    requires k in chain && k !in db.records && FindOpen(db.payments, chain[k].to, now).Some?
    requires !DeliveryThrows(chain, db, k, now)
    ensures InStep(HandleTransfer(db, chain[k], now, false))
  {
    hide Inv, DistinctAddresses, HandleTransfer, TxTaken, MeetsThreshold, FindOpen;
    var d := HandleTransfer(db, chain[k], now, false);
    DeliveryEffect(db, chain[k], now, false);
    assert d.credits[|db.credits|] in d.credits;
    forall q | q in d.records ensures Credited(d, q) {
      if q != k {
        var c :| c in db.credits && c.key == q;
        assert c in d.credits;
      }
    }
  }

  lemma OtherStepsKeepBooks(chain: Chain, db: Db, s: Step)
    requires !s.Recon?
    requires s.Deliver? && s.key in chain && s.key !in db.records ==>
               FindOpen(db.payments, chain[s.key].to, s.now).None?
    ensures Next(chain, db, s).credits == db.credits && Next(chain, db, s).records == db.records
  {
  }

  lemma LiveStepInStep(chain: Chain, db: Db, s: Step)
    requires Inv(chain, db) && DistinctAddresses(db) && InStep(db)
    requires LiveWithoutLoss(chain, db, [s])
    ensures InStep(Next(chain, db, s))
  {
    hide Inv, DistinctAddresses, HandleTransfer, DeliveryThrows, FindOpen;
    if s.Deliver? && s.key in chain && s.key !in db.records && FindOpen(db.payments, chain[s.key].to, s.now).Some? {
      DeliveryInStep(chain, db, s.key, s.now);
    } else {
      hide Next;
      var d := Next(chain, db, s);
      OtherStepsKeepBooks(chain, db, s);
      forall k | k in d.records ensures Credited(d, k) { assert Credited(db, k); }
    }
  }

  lemma {:induction false} LiveRunInStep(chain: Chain, db: Db, steps: seq<Step>)
    requires Inv(chain, db) && InStep(db) && DistinctAddresses(Run(chain, db, steps))
    requires LiveWithoutLoss(chain, db, steps)
    ensures InStep(Run(chain, db, steps))
    decreases steps
  {
    if steps != [] {
      var d := Next(chain, db, steps[0]);
      RunDistinctBackwards(chain, d, steps[1..]);
      AddressesOnlyGrow(chain, db, steps[0]);
      NextKeepsInv(chain, db, steps[0]);
      LiveStepInStep(chain, db, steps[0]);
      LiveRunInStep(chain, d, steps[1..]);
    }
  }

  /** In loss-free runs of the live worker a payment has received exactly the sum of its recorded transfers. */
  lemma {:induction false} LiveReceivesWhatItRecords(chain: Chain, steps: seq<Step>, p: Pid)
    requires DistinctAddresses(Run(chain, EMPTY, steps)) && LiveWithoutLoss(chain, EMPTY, steps)
    requires p < |Run(chain, EMPTY, steps).payments|
    ensures var db := Run(chain, EMPTY, steps);
            RecordedKeys(db, p) <= chain.Keys && db.payments[p].received == SumKeys(chain, RecordedKeys(db, p))
  {
    var db := Run(chain, EMPTY, steps);
    RunKeepsInv(chain, EMPTY, steps);
    LiveRunInStep(chain, EMPTY, steps);
    CreditedIsSum(chain, db.payments, db.credits, p);
    forall k | k in RecordedKeys(db, p) ensures k in CreditedKeys(db.credits, p) {
      var c :| c in db.credits && c.key == k;
    }
    assert RecordedKeys(db, p) == CreditedKeys(db.credits, p);
  }

  // ---------------------------------------------------------------- the assumptions are needed

  lemma KeyTwice(cs: seq<Credit>, more: seq<Credit>, c: Credit, again: Credit)
    requires c in cs && again in more && c.key == again.key
    ensures exists i, j | 0 <= i < j < |cs + more| :: (cs + more)[i].key == (cs + more)[j].key
  {
    var i :| 0 <= i < |cs| && cs[i] == c;
    var j :| 0 <= j < |more| && more[j] == again;
    var all := cs + more;
    assert all[i].key == all[|cs| + j].key;
  }

  lemma {:induction false} UnlinkedIsUnknown(events: seq<Transfer>, records: map<Key, Pid>, pid: Pid, t: Transfer)
    requires t in events && !(t.key in records && records[t.key] == pid)
    ensures t in Unknown(events, records, pid)
  {
    var n := |events| - 1;
    if t != events[n] {
      assert events == events[..n] + [events[n]];
      UnlinkedIsUnknown(events[..n], records, pid, t);
    }
  }

  /** If two payments share an address, a scan for the second that finds a transfer already credited to the
      first credits it again exactly when the transfers not linked to the second meet its threshold and the
      last one's txHash is free. */
  lemma SharedAddressCreditsTwiceIff(db: Db, p: Pid, q: Pid, events: seq<Transfer>, t: Transfer)
    requires p != q && q < |db.payments| && CanAcceptDeposit(db.payments[q].status)
    requires t in events && t.key in db.records && db.records[t.key] == p
    requires CreditedOnce(db) && Credit(t.key, p, t.amount) in db.credits
    ensures var unseen := Unknown(events, db.records, q);
            && t in unseen
            && (!CreditedOnce(Reconcile(db, q, events).db) <==>
                MeetsThreshold(db.payments[q], db.payments[q].received + Sum(unseen))
                && !TxTaken(db.payments, q, unseen[|unseen| - 1].key.tx))
  {
    var unseen := Unknown(events, db.records, q);
    UnlinkedIsUnknown(events, db.records, q, t);
    var again := Credit(t.key, q, t.amount);
    var k :| 0 <= k < |unseen| && unseen[k] == t;
    assert CreditsFor(unseen, q)[k] == again;
    hide Unknown, Sum, CreditsFor, MeetsThreshold, TxTaken;
    KeyTwice(db.credits, CreditsFor(unseen, q), Credit(t.key, p, t.amount), again);
  }

  // ---------------------------------------------------------------- expired and closed payments

  /** The payment takes no deposits at this moment: its time is up, or it is neither pending nor partial. */
  predicate ShutToDeposits(p: Payment, now: int) { p.expiresAt <= now || (p.status != Pending && p.status != Partial) }

  /** A transfer to an address without an open payment is discarded: not even recorded. */
  lemma TransferToShutPaymentIsDiscarded(db: Db, t: Transfer, now: int, crash: bool)
    requires forall q | 0 <= q < |db.payments| && db.payments[q].address == t.to :: ShutToDeposits(db.payments[q], now)
    ensures HandleTransfer(db, t, now, crash) == db
  {
  }

  /** And one to an address with an open payment is not. */
  lemma TransferToOpenPaymentIsRecorded(db: Db, t: Transfer, now: int, crash: bool, q: Pid)
    requires q < |db.payments| && db.payments[q].address == t.to && !ShutToDeposits(db.payments[q], now)
    ensures t.key in HandleTransfer(db, t, now, crash).records
  {
    if t.key !in db.records {
      assert FindOpen(db.payments, t.to, now).Some?;
      DeliveryEffect(db, t, now, crash);
    }
  }

  lemma ReconciliationSkipsShutPayments(chain: Chain, db: Db, pid: Pid, scan: seq<Key>, now: int)
    requires pid < |db.payments| && ShutToDeposits(db.payments[pid], now)
    ensures Next(chain, db, Recon(pid, scan, now)) == db
  {
  }

  /** The moment at which a crediting step happens. */
  function MomentOf(s: Step): int {
    match s
    case Deliver(_, now, _) => now
    case Recon(_, _, now) => now
    case _ => 0
  }

  /** At every step of the run, each credit it adds goes to a payment open at that moment. */
  predicate CreditsInTime(chain: Chain, db: Db, steps: seq<Step>)
    decreases steps
  {
    steps == [] ||
    var d := Next(chain, db, steps[0]);
    && db.credits <= d.credits
    && (forall i | |db.credits| <= i < |d.credits| ::
          && (steps[0].Deliver? || steps[0].Recon?)
          && d.credits[i].pid < |db.payments| && !ShutToDeposits(db.payments[d.credits[i].pid], MomentOf(steps[0])))
    && CreditsInTime(chain, d, steps[1..])
  }

  predicate OnlyCredits(db: Db, d: Db, pid: Pid) {
    db.credits <= d.credits && forall i | |db.credits| <= i < |d.credits| :: d.credits[i].pid == pid
  }

  lemma DeliveryCreditsOpen(db: Db, t: Transfer, now: int, crash: bool)
    ensures var d := HandleTransfer(db, t, now, crash);
            d.credits == db.credits ||
            exists pid: Pid :: pid < |db.payments| && !ShutToDeposits(db.payments[pid], now) && OnlyCredits(db, d, pid)
  {
    if t.key !in db.records && FindOpen(db.payments, t.to, now).Some? {
      DeliveryEffect(db, t, now, crash);
      hide HandleTransfer, TxTaken, MeetsThreshold;
      var pid := FindOpen(db.payments, t.to, now).value;
      assert !ShutToDeposits(db.payments[pid], now);
      var d := HandleTransfer(db, t, now, crash);
      assert d.credits == db.credits || OnlyCredits(db, d, pid);
    }
  }

  lemma ReconciliationCreditsOnly(db: Db, pid: Pid, events: seq<Transfer>)
    requires pid < |db.payments|
    ensures OnlyCredits(db, Reconcile(db, pid, events).db, pid)
  {
    ReconcileEffect(db, pid, events);
    hide Reconcile, Unknown, Sum;
  }

  lemma StepCreditsInTime(chain: Chain, db: Db, s: Step)
    ensures CreditsInTime(chain, db, [s])
  {
    hide HandleTransfer, Reconcile;
    match s
    case Deliver(k, now, crash) => if k in chain { DeliveryCreditsOpen(db, chain[k], now, crash); }
    case Recon(pid, scan, now) =>
      if ValidScan(chain, db, pid, scan) && Open(db.payments[pid], now) {
        ReconciliationCreditsOnly(db, pid, Fetch(chain, scan));
      }
    case _ =>
  }

  /** Over every run, whatever its steps, no credit is ever added to a payment that has expired or is closed. */
  lemma {:induction false} CreditsGoToOpenPayments(chain: Chain, db: Db, steps: seq<Step>)
    ensures CreditsInTime(chain, db, steps)
    decreases steps
  {
    if steps != [] {
      StepCreditsInTime(chain, db, steps[0]);
      CreditsGoToOpenPayments(chain, Next(chain, db, steps[0]), steps[1..]);
    }
  }

  /** The service itself ignores a deposit to a payment that is neither pending nor partial. */
  lemma ClosedPaymentIgnoresDeposits(ps: seq<Payment>, pid: Pid, tx: TxHash, total: nat)
    requires pid < |ps| && ps[pid].status != Pending && ps[pid].status != Partial
    ensures PartialDeposit(ps, pid, total) == TxDetected(ps, pid, tx, total) == Update(ps, false, false)
  {
  }

  /** What a reconciliation reports, whatever has become of the payment since its row was fetched: recovered or
      failed exactly if unlinked transfers meet the threshold, and failed exactly if moreover the payment still
      accepts deposits and the last txHash is taken. A payment closed meanwhile counts as recovered untouched. */
  lemma ReconciliationReport(db: Db, pid: Pid, row: Payment, events: seq<Transfer>)
    requires pid < |db.payments|
    ensures var unseen := Unknown(events, db.records, pid);
            var r := ReconcileFetched(db, pid, row, events);
            var due := unseen != [] && row.received + Sum(unseen) >= row.expected - 1;
            var open := db.payments[pid].status == Pending || db.payments[pid].status == Partial;
            && (r.recovered || r.threw <==> due)
            && (r.threw <==> due && open && TxTaken(db.payments, pid, unseen[|unseen| - 1].key.tx))
            && (r.db != db ==> due && open && !r.threw)
  {
    hide Unknown, Sum, TxTaken;
  }

  /** Manual confirmation: for a pending payment and a txHash that no payment has, and it changes nothing else. */
  lemma ManualConfirmation(chain: Chain, db: Db, pid: Pid, tx: TxHash)
    requires pid < |db.payments|
    ensures var d := Next(chain, db, ManualConfirm(pid, tx));
            var p := db.payments[pid];
            d == if p.status == Pending && forall q | 0 <= q < |db.payments| :: db.payments[q].settledBy != Some(tx)
                 then
                   var confirmed := Payment(p.address, p.expected, p.received, Completed, p.expiresAt, Some(tx));
                   db.(payments := db.payments[pid := confirmed])
                 else db
  {
  }

  // ---------------------------------------------------------------- statuses and settling transactions

  /** A payment with the one status may come to have the other. */
  predicate MayBecome(from: Status, to: Status) {
    from == to ||
    match from
    case Pending => true
    case Partial => to != Pending
    case Confirming => to == Completed || to == Failed || to == Refunded
    case Completed => to == Refunded
    case _ => false
  }

  lemma StepAdvancesStatus(chain: Chain, db: Db, s: Step, p: Pid)
    requires p < |db.payments|
    ensures var d := Next(chain, db, s);
            p < |d.payments| && MayBecome(db.payments[p].status, d.payments[p].status)
  {
    hide Unknown, Sum, TxTaken, MeetsThreshold;
  }

  /** While jobs do not overlap, payments only advance: a settled one never accepts deposits again, and failed,
      expired and refunded ones stay so. */
  lemma {:induction false} StatusesOnlyAdvance(chain: Chain, db: Db, steps: seq<Step>, p: Pid)
    requires p < |db.payments|
    ensures var d := Run(chain, db, steps);
            p < |d.payments| && MayBecome(db.payments[p].status, d.payments[p].status)
    decreases steps
  {
    if steps != [] {
      StepAdvancesStatus(chain, db, steps[0], p);
      StatusesOnlyAdvance(chain, Next(chain, db, steps[0]), steps[1..], p);
    }
  }

  predicate OneEach(ps: seq<Payment>) {
    forall p, q | 0 <= p < q < |ps| && ps[p].settledBy.Some? :: ps[p].settledBy != ps[q].settledBy
  }

  lemma StepKeepsOneEach(chain: Chain, db: Db, s: Step)
    requires OneEach(db.payments)
    ensures OneEach(Next(chain, db, s).payments)
  {
    hide Unknown, Sum, MeetsThreshold;
  }

  lemma {:induction false} RunKeepsOneEach(chain: Chain, db: Db, steps: seq<Step>)
    requires OneEach(db.payments)
    ensures OneEach(Run(chain, db, steps).payments)
    decreases steps
  {
    if steps != [] {
      StepKeepsOneEach(chain, db, steps[0]);
      RunKeepsOneEach(chain, Next(chain, db, steps[0]), steps[1..]);
    }
  }

  /** No transaction ever settles two payments. */
  lemma {:induction false} TransactionsSettleOnce(chain: Chain, steps: seq<Step>)
    ensures OneEach(Run(chain, EMPTY, steps).payments)
  {
    RunKeepsOneEach(chain, EMPTY, steps);
  }

  // ---------------------------------------------------------------- the failures happen

  lemma RunFirst(chain: Chain, db: Db, s: Step, rest: seq<Step>)
    ensures Run(chain, db, [s] + rest) == Run(chain, Next(chain, db, s), rest)
  {
    assert ([s] + rest)[1..] == rest;
  }

  lemma RunTwo(chain: Chain, db: Db, a: Step, b: Step)
    ensures Run(chain, db, [a, b]) == Next(chain, Next(chain, db, a), b)
  {
    RunFirst(chain, db, a, [b]);
    RunFirst(chain, Next(chain, db, a), b, []);
    assert [a] + [b] == [a, b] && [b] + [] == [b];
  }

  lemma {:induction false} RunAppend(chain: Chain, db: Db, a: seq<Step>, b: seq<Step>)
    ensures Run(chain, db, a + b) == Run(chain, Run(chain, db, a), b)
    decreases a
  {
    if a == [] {
      assert a + b == b;
    } else {
      assert (a + b)[1..] == a[1..] + b;
      RunAppend(chain, Next(chain, db, a[0]), a[1..], b);
    }
  }

  /** A job that stops after recording the only deposit to a new payment. */
  lemma CrashLosesADeposit() returns (chain: Chain, k: Key, steps: seq<Step>)
    ensures DistinctAddresses(Run(chain, EMPTY, steps)) && Lost(Run(chain, EMPTY, steps), k)
  {
    k := Key(1, 0);
    chain := map[k := Transfer(k, 7, 1_000)];
    steps := [Create(7, 1_000, 100), Deliver(k, 0, true)];
    RunTwo(chain, EMPTY, Create(7, 1_000, 100), Deliver(k, 0, true));
    var db := Next(chain, EMPTY, Create(7, 1_000, 100));
    assert db.payments == [Payment(7, 1_000, 0, Pending, 100, None)];
    assert FindOpen(db.payments, 7, 0) == Some(0);
  }

  lemma DeliverTwice(chain: Chain, db: Db, first: Key, k: Key)
    requires first != k && first.tx == k.tx && first in chain && k in chain
    requires chain[first] == Transfer(first, 7, 1_000) && chain[k] == Transfer(k, 8, 1_000)
    requires db == Db([Payment(7, 1_000, 0, Pending, 100, None), Payment(8, 1_000, 0, Pending, 100, None)], map[], [])
    ensures var d := Next(chain, Next(chain, db, Deliver(first, 0, false)), Deliver(k, 0, false));
            DistinctAddresses(d) && Lost(d, k)
  {
    assert FindOpen(db.payments, 7, 0) == Some(0);
    DeliveryEffect(db, chain[first], 0, false);
    var d := Next(chain, db, Deliver(first, 0, false));
    assert d.payments[1] == db.payments[1];
    hide HandleTransfer;
    assert FindOpen(d.payments, 8, 0) == Some(1);
    assert TxTaken(d.payments, 1, k.tx);
    DeliveryEffect(d, chain[k], 0, false);
  }

  lemma CreateTwo(chain: Chain, p: Payment, q: Payment) returns (steps: seq<Step>)
    requires p.received == q.received == 0 && p.status.Pending? && q.status.Pending?
    requires p.settledBy.None? && q.settledBy.None?
    ensures |steps| == 2 && steps[0].Create? && steps[1].Create?
    ensures Run(chain, EMPTY, steps) == Db([p, q], map[], [])
  {
    steps := [Create(p.address, p.expected, p.expiresAt), Create(q.address, q.expected, q.expiresAt)];
    RunTwo(chain, EMPTY, steps[0], steps[1]);
  }

  /** One transaction that pays two payments in full: its second transfer is recorded and never credited. */
  lemma SharedTransactionLosesADeposit() returns (chain: Chain, k: Key, steps: seq<Step>)
    ensures DistinctAddresses(Run(chain, EMPTY, steps)) && Lost(Run(chain, EMPTY, steps), k)
    ensures forall s | s in steps && s.Deliver? :: !s.crash
  {
    var first := Key(1, 0);
    k := Key(1, 1);
    chain := map[first := Transfer(first, 7, 1_000), k := Transfer(k, 8, 1_000)];
    var created := Db([Payment(7, 1_000, 0, Pending, 100, None), Payment(8, 1_000, 0, Pending, 100, None)], map[], []);
    var creates := CreateTwo(chain, created.payments[0], created.payments[1]);
    var delivers := [Deliver(first, 0, false), Deliver(k, 0, false)];
    steps := creates + delivers;
    hide Run, Next, Lost, DistinctAddresses;
    RunAppend(chain, EMPTY, creates, delivers);
    RunTwo(chain, created, delivers[0], delivers[1]);
    DeliverTwice(chain, created, first, k);
  }

  lemma DeliverToShared(chain: Chain, db: Db, k: Key)
    requires k in chain && chain[k] == Transfer(k, 7, 300)
    requires db == Db([Payment(7, 1_000, 0, Pending, 100, None), Payment(7, 300, 0, Pending, 100, None)], map[], [])
    ensures Next(chain, db, Deliver(k, 0, false))
            == Db([Payment(7, 1_000, 300, Partial, 100, None), db.payments[1]], map[k := 0], [Credit(k, 0, 300)])
  {
    assert FindOpen(db.payments[..1], 7, 0) == Some(0);
    assert FindOpen(db.payments, 7, 0) == Some(0);
  }

  lemma UnknownOfOne(records: map<Key, Pid>, t: Transfer)
    requires t.key in records && records[t.key] == 0
    ensures Unknown([t], records, 1) == [t] && Sum([t]) == t.amount
  {
    UnknownAt([t], records, 1, 0);
    assert [t][..0] == [] && [t][..1] == [t];
  }

  lemma ScanCreditsAgain(chain: Chain, db: Db, k: Key)
    requires k in chain && chain[k] == Transfer(k, 7, 300)
    requires db == Db([Payment(7, 1_000, 300, Partial, 100, None), Payment(7, 300, 0, Pending, 100, None)],
                      map[k := 0], [Credit(k, 0, 300)])
    ensures !CreditedOnce(Next(chain, db, Recon(1, [k], 0)))
  {
    var t := chain[k];
    UnknownOfOne(db.records, t);
    assert Fetch(chain, [k]) == [t];
    assert ValidScan(chain, db, 1, [k]);
    assert CreditedOnce(db) && Credit(k, 0, 300) in db.credits && !TxTaken(db.payments, 1, k.tx);
    hide Unknown, Sum, Fetch, ValidScan, Reconcile, TxTaken, CreditedOnce;
    SharedAddressCreditsTwiceIff(db, 0, 1, [t], t);
  }

  /** A deposit of 300 to an address that a payment of 1000 and a payment of 300 share: the live worker adds it
      to the first, reconciliation settles the second with it. */
  lemma SharedAddressCreditsTwice() returns (chain: Chain, steps: seq<Step>)
    ensures !CreditedOnce(Run(chain, EMPTY, steps)) && |chain| == 1
  {
    var k := Key(1, 0);
    var t := Transfer(k, 7, 300);
    chain := map[k := t];
    var created := Db([Payment(7, 1_000, 0, Pending, 100, None), Payment(7, 300, 0, Pending, 100, None)], map[], []);
    var creates := CreateTwo(chain, created.payments[0], created.payments[1]);
    var credits := [Deliver(k, 0, false), Recon(1, [k], 0)];
    steps := creates + credits;
    hide Run, Next, CreditedOnce;
    RunAppend(chain, EMPTY, creates, credits);
    RunTwo(chain, created, credits[0], credits[1]);
    DeliverToShared(chain, created, k);
    ScanCreditsAgain(chain, Next(chain, created, credits[0]), k);
  }
}
