/**
 USDC deposit accumulation: the live worker credits one Transfer log per job, the reconciliation
 worker credits the unrecorded logs of a scan window in one go. Amounts are atomic units.
 */
module Deposits {
  import opened Common

  type Pid = nat
  type Address = nat   // a deposit address on one chain, lower-cased
  type TxHash = nat

  /** (txHash, logIndex) */
  datatype Key = Key(tx: TxHash, logIndex: nat)

  datatype Transfer = Transfer(key: Key, to: Address, amount: nat)

  datatype Status = Pending | Partial | Confirming | Completed | Failed | Refunded | Expired

  /** `settledBy` is the payment's txHash column, which is unique across payments. */
  datatype Payment = Payment(address: Address, expected: nat, received: nat, status: Status,
                             expiresAt: int, settledBy: Option<TxHash>)

  /** One amount added to one payment's received total on account of one transfer. */
  datatype Credit = Credit(key: Key, pid: Pid, amount: nat)

  /** Payments in creation order, the payment each recorded transfer is linked to, and the history of credits. */
  datatype Db = Db(payments: seq<Payment>, records: map<Key, Pid>, credits: seq<Credit>)

  // ---------------------------------------------------------------- payment rules

  predicate CanAcceptDeposit(s: Status) { s.Pending? || s.Partial? }

  predicate CanTransition(from: Status, to: Status) {
    from == to ||
    match to
    case Pending => false
    case Partial => from.Pending?
    case Confirming => from.Pending? || from.Partial?
    case Expired => from.Pending? || from.Partial?
    case Failed => from.Pending? || from.Partial? || from.Confirming?
    case Completed => from.Confirming?
    case Refunded => from.Completed?
  }

  predicate Open(p: Payment, now: int) { CanAcceptDeposit(p.status) && p.expiresAt > now }

  /** findPendingByAddress: the first open payment with this address. */
  function FindOpen(ps: seq<Payment>, to: Address, now: int): (r: Option<Pid>)
    ensures r.Some? ==> r.value < |ps| && ps[r.value].address == to && Open(ps[r.value], now)
    ensures r.None? ==> forall q | 0 <= q < |ps| :: !(ps[q].address == to && Open(ps[q], now))
  {
    if ps == [] then None
    else
      var r := FindOpen(ps[..|ps| - 1], to, now);
      if r.Some? then r
      else if ps[|ps| - 1].address == to && Open(ps[|ps| - 1], now) then Some(|ps| - 1)
      else None
  }

  predicate TxTaken(ps: seq<Payment>, pid: Pid, tx: TxHash) {
    exists q | 0 <= q < |ps| :: q != pid && ps[q].settledBy == Some(tx)
  }

  predicate MeetsThreshold(p: Payment, total: nat) { total >= p.expected - 1 }

  /** Result of a payment update; `threw` is the unique-constraint violation on txHash. */
  datatype Update = Update(payments: seq<Payment>, changed: bool, threw: bool)

  /** handlePartialDeposit */
  function PartialDeposit(ps: seq<Payment>, pid: Pid, total: nat): Update
    requires pid < |ps|
  {
    if !CanAcceptDeposit(ps[pid].status) then Update(ps, false, false)
    else Update(ps[pid := ps[pid].(status := Partial, received := total)], true, false)
  }

  /** handleTxDetected */
  function TxDetected(ps: seq<Payment>, pid: Pid, tx: TxHash, total: nat): Update
    requires pid < |ps|
  {
    if !CanAcceptDeposit(ps[pid].status) then Update(ps, false, false)
    else if TxTaken(ps, pid, tx) then Update(ps, false, true)
    else Update(ps[pid := ps[pid].(status := Confirming, received := total, settledBy := Some(tx))], true, false)
  }

  // ---------------------------------------------------------------- the live worker

  /** handleTransfer after its deduplication check. `crash` stops it once the transfer is recorded. */
  function Process(db: Db, t: Transfer, now: int, crash: bool): Db {
    var found := FindOpen(db.payments, t.to, now);
    if found.None? then db
    else
      var pid := found.value;
      var total := db.payments[pid].received + t.amount;
      var recorded := if t.key in db.records then db else db.(records := db.records[t.key := pid]);
      if crash then recorded
      else
        var u := if MeetsThreshold(db.payments[pid], total) then TxDetected(db.payments, pid, t.key.tx, total)
                 else PartialDeposit(db.payments, pid, total);
        if u.changed then recorded.(payments := u.payments, credits := db.credits + [Credit(t.key, pid, t.amount)])
        else recorded
  }

  function HandleTransfer(db: Db, t: Transfer, now: int, crash: bool): Db {
    if t.key in db.records then db else Process(db, t, now, crash)
  }

  // ---------------------------------------------------------------- the reconciliation worker

  /** The scanned logs not yet linked to this payment, in scan order. */
  function Unknown(events: seq<Transfer>, records: map<Key, Pid>, pid: Pid): seq<Transfer> {
    if events == [] then []
    else
      var e := events[|events| - 1];
      var rest := Unknown(events[..|events| - 1], records, pid);
      if e.key in records && records[e.key] == pid then rest else rest + [e]
  }

  function Sum(ts: seq<Transfer>): nat {
    if ts == [] then 0 else Sum(ts[..|ts| - 1]) + ts[|ts| - 1].amount
  }

  lemma UnknownAt(events: seq<Transfer>, records: map<Key, Pid>, pid: Pid, i: nat)
    requires i < |events|
    ensures var u := Unknown(events[..i], records, pid);
            && Unknown(events[..i + 1], records, pid)
               == (if events[i].key in records && records[events[i].key] == pid then u else u + [events[i]])
            && Sum(u + [events[i]]) == Sum(u) + events[i].amount
  {
    assert events[..i + 1][..i] == events[..i];
    var u := Unknown(events[..i], records, pid);
    assert (u + [events[i]])[..|u|] == u;
  }

  function CreditsFor(ts: seq<Transfer>, pid: Pid): seq<Credit> {
    seq(|ts|, i requires 0 <= i < |ts| => Credit(ts[i].key, pid, ts[i].amount))
  }

  datatype Reconciled = Reconciled(db: Db, recovered: bool, threw: bool)

  /** reconcilePayment, given the payment's row as fetched at the start of the run and the Transfer logs to
      its address in the scan window. */
  function ReconcileFetched(db: Db, pid: Pid, row: Payment, events: seq<Transfer>): (r: Reconciled)
    requires pid < |db.payments|
    ensures |r.db.payments| == |db.payments|
    ensures !(r.recovered && r.threw)
  {
    var unseen := Unknown(events, db.records, pid);
    var total := row.received + Sum(unseen);
    if unseen == [] || !MeetsThreshold(row, total) then Reconciled(db, false, false)
    else
      var u := TxDetected(db.payments, pid, unseen[|unseen| - 1].key.tx, total);
      if u.threw then Reconciled(db, false, true)
      else if u.changed then
        Reconciled(db.(payments := u.payments, credits := db.credits + CreditsFor(unseen, pid)), true, false)
      else Reconciled(db, true, false)
  }

  /** The same with a row that is still current. */
  function Reconcile(db: Db, pid: Pid, events: seq<Transfer>): (r: Reconciled)
    requires pid < |db.payments|
    ensures |r.db.payments| == |db.payments|
    ensures !(r.recovered && r.threw)
  {
    ReconcileFetched(db, pid, db.payments[pid], events)
  }

  /** One run over the open payments, whose rows were fetched together; a scan that failed yields None. */
  function ReconcileAll(db: Db, rows: seq<Payment>, open: seq<Pid>, scan: Pid -> Option<seq<Transfer>>):
    (r: (Db, nat, nat))
    requires |rows| == |db.payments| && forall i | 0 <= i < |open| :: open[i] < |rows|
    ensures |r.0.payments| == |db.payments|
    ensures r.1 + r.2 <= |open|
  {
    if open == [] then (db, 0, 0)
    else
      var (d, recovered, errors) := ReconcileAll(db, rows, open[..|open| - 1], scan);
      var pid := open[|open| - 1];
      assert pid < |d.payments|;
      if scan(pid).None? then (d, recovered, errors + 1)
      else
        var r := ReconcileFetched(d, pid, rows[pid], scan(pid).value);
        (r.db, if r.recovered then recovered + 1 else recovered, if r.threw then errors + 1 else errors)
  }

  // ---------------------------------------------------------------- the workers as objects

  class Database {
    var payments: seq<Payment>
    var records: map<Key, Pid>
    ghost var credits: seq<Credit>

    ghost function View(): Db
      reads this
    {
      Db(payments, records, credits)
    }

    constructor ()
      ensures View() == Db([], map[], [])
    {
      payments, records, credits := [], map[], [];
    }

    method FindPendingByAddress(to: Address, now: int) returns (r: Option<Pid>)
      ensures r == FindOpen(payments, to, now)
    {
      r := None;
      for i := 0 to |payments|
        invariant r == FindOpen(payments[..i], to, now)
      {
        assert payments[..i + 1][..i] == payments[..i];
        if r.None? && payments[i].address == to && Open(payments[i], now) { r := Some(i); }
      }
      assert payments[..|payments|] == payments;
    }

    method HandlePartialDeposit(pid: Pid, total: nat) returns (changed: bool)
      requires pid < |payments|
      modifies this`payments
      ensures Update(payments, changed, false) == PartialDeposit(old(payments), pid, total)
    {
      if !CanAcceptDeposit(payments[pid].status) { return false; }
      payments := payments[pid := payments[pid].(status := Partial, received := total)];
      return true;
    }

    method HandleTxDetected(pid: Pid, tx: TxHash, total: nat) returns (changed: bool, threw: bool)
      requires pid < |payments|
      modifies this`payments
      ensures Update(payments, changed, threw) == TxDetected(old(payments), pid, tx, total)
    {
      if !CanAcceptDeposit(payments[pid].status) { return false, false; }
      if exists q | 0 <= q < |payments| :: q != pid && payments[q].settledBy == Some(tx) { return false, true; }
      payments := payments[pid := payments[pid].(status := Confirming, received := total, settledBy := Some(tx))];
      return true, false;
    }
  }

  class BlockchainEventsWorker {
    const db: Database

    constructor (db: Database)
      ensures this.db == db
    {
      this.db := db;
    }

    method Handle(t: Transfer, now: int, crash: bool)
      modifies db
      ensures db.View() == HandleTransfer(old(db.View()), t, now, crash)
    {
      if t.key in db.records { return; }
      var payment := db.FindPendingByAddress(t.to, now);
      if payment.None? { return; }
      var pid := payment.value;
      var total := db.payments[pid].received + t.amount;
      db.records := db.records[t.key := pid];
      if crash { return; }
      var changed, threw;
      if total >= db.payments[pid].expected - 1 {
        changed, threw := db.HandleTxDetected(pid, t.key.tx, total);
      } else {
        changed := db.HandlePartialDeposit(pid, total);
      }
      if changed { db.credits := db.credits + [Credit(t.key, pid, t.amount)]; }
    }
  }

  class ReconciliationWorker {
    const db: Database

    constructor (db: Database)
      ensures this.db == db
    {
      this.db := db;
    }

    /** The loop of reconcilePayment over the scanned logs. */
    method Accumulate(pid: Pid, row: Payment, events: seq<Transfer>)
      returns (cumulative: nat, latestMatch: Option<Transfer>)
      ensures var u := Unknown(events, db.records, pid);
              && cumulative == row.received + Sum(u)
              && latestMatch == (if u == [] then None else Some(u[|u| - 1]))
    {
      cumulative, latestMatch := row.received, None;
      for i := 0 to |events|
        invariant var u := Unknown(events[..i], db.records, pid);
                  && cumulative == row.received + Sum(u)
                  && latestMatch == (if u == [] then None else Some(u[|u| - 1]))
      {
        UnknownAt(events, db.records, pid, i);
        var e := events[i];
        if !(e.key in db.records && db.records[e.key] == pid) {
          cumulative := cumulative + e.amount;
          latestMatch := Some(e);
        }
      }
      assert events[..|events|] == events;
    }

    method ReconcilePayment(pid: Pid, row: Payment, events: seq<Transfer>) returns (recovered: bool, threw: bool)
      requires pid < |db.payments|
      modifies db
      ensures Reconciled(db.View(), recovered, threw) == ReconcileFetched(old(db.View()), pid, row, events)
    {
      hide Unknown, Sum, CreditsFor;
      var cumulative, latestMatch := Accumulate(pid, row, events);
      if latestMatch.None? { return false, false; }
      if !(cumulative >= row.expected - 1) { return false, false; }
      var changed;
      changed, threw := db.HandleTxDetected(pid, latestMatch.value.key.tx, cumulative);
      if changed { db.credits := db.credits + CreditsFor(Unknown(events, db.records, pid), pid); }
      recovered := !threw;
    }

    method RunReconciliation(open: seq<Pid>, scan: Pid -> Option<seq<Transfer>>) returns (recovered: nat, errors: nat)
      requires forall i | 0 <= i < |open| :: open[i] < |db.payments|
      modifies db
      ensures (db.View(), recovered, errors) == ReconcileAll(old(db.View()), old(db.payments), open, scan)
      ensures recovered + errors <= |open|
    {
      hide ReconcileFetched;
      var rows := db.payments;
      recovered, errors := 0, 0;
      for i := 0 to |open|
        invariant |db.payments| == |rows|
        invariant (db.View(), recovered, errors) == ReconcileAll(old(db.View()), rows, open[..i], scan)
      {
        assert open[..i + 1][..i] == open[..i];
        var events := scan(open[i]);
        if events.None? {
          errors := errors + 1;
        } else {
          var found, threw := ReconcilePayment(open[i], rows[open[i]], events.value);
          if found { recovered := recovered + 1; }
          if threw { errors := errors + 1; }
        }
      }
      assert open[..|open|] == open;
    }
  }
}
