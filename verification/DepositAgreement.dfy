/**
 The two crediting algorithms agree: delivering a set of unrecorded transfers one job at a time, in
 any order, settles a payment exactly when one reconciliation pass over the same set does.
 */
module DepositAgreement {
  import opened Common
  import opened Deposits
  import opened DepositProperties

  function DeliverAll(db: Db, ts: seq<Transfer>, now: int): Db
    decreases ts
  {
    if ts == [] then db else DeliverAll(HandleTransfer(db, ts[0], now, false), ts[1..], now)
  }

  // ---------------------------------------------------------------- sums

  lemma {:induction false} SumHead(ts: seq<Transfer>)
    requires ts != []
    ensures Sum(ts) == ts[0].amount + Sum(ts[1..])
  {
    var n := |ts| - 1;
    if n > 0 {
      SumHead(ts[..n]);
      assert ts[..n][1..] == ts[1..][..n - 1];
    }
  }

  lemma SumSnoc(ts: seq<Transfer>, t: Transfer)
    ensures Sum(ts + [t]) == Sum(ts) + t.amount
  {
    assert (ts + [t])[..|ts|] == ts;
  }

  lemma {:induction false} SumRemoveAt(ts: seq<Transfer>, i: nat)
    requires i < |ts|
    ensures Sum(ts) == ts[i].amount + Sum(ts[..i] + ts[i + 1..])
  {
    hide Sum;
    var n := |ts| - 1;
    var front := ts[..n];
    assert ts == front + [ts[n]];
    SumSnoc(front, ts[n]);
    if i < n {
      SumRemoveAt(front, i);
      var rest := front[..i] + front[i + 1..];
      assert ts[..i] + ts[i + 1..] == rest + [ts[n]];
      SumSnoc(rest, ts[n]);
    } else {
      assert ts[..i] + ts[i + 1..] == front;
    }
  }

  lemma HeadInPermutation(ts: seq<Transfer>, us: seq<Transfer>) returns (i: nat)
    requires ts != [] && multiset(ts) == multiset(us)
    ensures i < |us| && us[i] == ts[0]
    ensures multiset(ts[1..]) == multiset(us[..i] + us[i + 1..])
  {
    assert ts[0] in multiset(us);
    i :| 0 <= i < |us| && us[i] == ts[0];
    assert ts == [ts[0]] + ts[1..];
    assert us == us[..i] + [us[i]] + us[i + 1..];
    assert multiset(ts[1..]) == multiset(ts) - multiset{ts[0]};
    assert multiset(us[..i] + us[i + 1..]) == multiset(us) - multiset{us[i]};
  }

  /** The order of the transfers does not matter to their sum. */
  lemma {:induction false} SumOfPermutation(ts: seq<Transfer>, us: seq<Transfer>)
    requires multiset(ts) == multiset(us)
    ensures Sum(ts) == Sum(us)
    decreases ts
  {
    if ts == [] {
      assert |multiset(us)| == 0;
      assert us == [];
    } else {
      var i := HeadInPermutation(ts, us);
      SumHead(ts);
      SumRemoveAt(us, i);
      SumOfPermutation(ts[1..], us[..i] + us[i + 1..]);
    }
  }

  lemma {:induction false} UnknownOfUnrecorded(us: seq<Transfer>, records: map<Key, Pid>, pid: Pid)
    requires forall t | t in us :: t.key !in records
    ensures Unknown(us, records, pid) == us
  {
    if us != [] {
      UnknownOfUnrecorded(us[..|us| - 1], records, pid);
      assert us == us[..|us| - 1] + [us[|us| - 1]];
    }
  }

  // ---------------------------------------------------------------- one job at a time

  lemma {:induction false} ClosedPaymentStays(db: Db, pid: Pid, ts: seq<Transfer>, now: int)
    requires pid < |db.payments| && !CanAcceptDeposit(db.payments[pid].status)
    ensures pid < |DeliverAll(db, ts, now).payments|
    ensures DeliverAll(db, ts, now).payments[pid] == db.payments[pid]
    decreases ts
  {
    if ts != [] { ClosedPaymentStays(HandleTransfer(db, ts[0], now, false), pid, ts[1..], now); }
  }

  /** Unrecorded transfers to one open payment. */
  predicate Arriving(db: Db, pid: Pid, ts: seq<Transfer>, now: int) {
    && DistinctAddresses(db)
    && pid < |db.payments| && Open(db.payments[pid], now)
    && DistinctTransfers(ts)
    && forall t | t in ts :: t.key !in db.records && t.to == db.payments[pid].address
  }

  /** Some other payment was settled under this transfer's txHash. */
  predicate Taken(db: Db, pid: Pid, t: Transfer) { TxTaken(db.payments, pid, t.key.tx) }

  predicate NoneTaken(db: Db, pid: Pid, ts: seq<Transfer>) { forall t | t in ts :: !Taken(db, pid, t) }

  predicate AllTaken(db: Db, pid: Pid, ts: seq<Transfer>) { forall t | t in ts :: Taken(db, pid, t) }

  /** Stored plus sum is at least the expected amount minus one. */
  predicate Met(db: Db, pid: Pid, ts: seq<Transfer>)
    requires pid < |db.payments|
  {
    MeetsThreshold(db.payments[pid], db.payments[pid].received + Sum(ts))
  }

  lemma FirstDelivery(db: Db, pid: Pid, ts: seq<Transfer>, now: int)
    requires ts != [] && Arriving(db, pid, ts, now)
    ensures var d := HandleTransfer(db, ts[0], now, false);
            var p := db.payments[pid];
            var total := p.received + ts[0].amount;
            var met := MeetsThreshold(p, total);
            var dropped := met && Taken(db, pid, ts[0]);
            && pid < |d.payments| == |db.payments|
            && d.payments[pid].expected == p.expected
            && d.payments[pid].received == (if dropped then p.received else total)
            && d.payments[pid].status == (if dropped then p.status else if met then Confirming else Partial)
            && (!met || dropped ==> Arriving(d, pid, ts[1..], now))
            && (forall t :: Taken(d, pid, t) == Taken(db, pid, t))
  {
    var d := HandleTransfer(db, ts[0], now, false);
    assert ts[0] in ts;
    assert FindOpen(db.payments, ts[0].to, now) == Some(pid);
    DeliveryEffect(db, ts[0], now, false);
    hide HandleTransfer, FindOpen;
    assert forall q | 0 <= q < |db.payments| && q != pid :: d.payments[q] == db.payments[q];
    forall t ensures Taken(d, pid, t) == Taken(db, pid, t) { }
    forall t | t in ts[1..] ensures t.key !in d.records && t.to == d.payments[pid].address { assert t in ts; }
  }

  /** After delivering all of `ts`: settled if stored plus sum meets the threshold, otherwise partial with
      the full total. If the threshold is met no txHash may be taken. */
  lemma {:induction false} LiveOutcome(db: Db, pid: Pid, ts: seq<Transfer>, now: int)
    requires ts != [] && Arriving(db, pid, ts, now)
    requires Met(db, pid, ts) ==> NoneTaken(db, pid, ts)
    ensures pid < |DeliverAll(db, ts, now).payments|
    ensures var p := db.payments[pid];
            var live := DeliverAll(db, ts, now).payments[pid];
            && (live.status.Confirming? <==> Met(db, pid, ts))
            && (Met(db, pid, ts) ==> live.received <= p.received + Sum(ts) && MeetsThreshold(p, live.received))
            && (!Met(db, pid, ts) ==> live.status.Partial? && live.received == p.received + Sum(ts))
    decreases ts
  {
    hide HandleTransfer, Arriving, Taken;
    SumHead(ts);
    FirstDelivery(db, pid, ts, now);
    var d := HandleTransfer(db, ts[0], now, false);
    assert Met(db, pid, ts) ==> !Taken(db, pid, ts[0]);
    if d.payments[pid].status.Confirming? {
      ClosedPaymentStays(d, pid, ts[1..], now);
    } else if ts[1..] == [] {
      assert DeliverAll(d, ts[1..], now) == d;
    } else {
      assert Met(d, pid, ts[1..]) == Met(db, pid, ts);
      LiveOutcome(d, pid, ts[1..], now);
    }
  }

  predicate LiveSettles(db: Db, pid: Pid, ts: seq<Transfer>, now: int) {
    var d := DeliverAll(db, ts, now);
    pid < |d.payments| && d.payments[pid].status.Confirming?
  }

  /** If every txHash is taken the payment never settles: whatever would settle it is dropped. */
  lemma {:induction false} LiveNeverSettlesIfAllTaken(db: Db, pid: Pid, ts: seq<Transfer>, now: int)
    requires Arriving(db, pid, ts, now) && AllTaken(db, pid, ts)
    ensures !LiveSettles(db, pid, ts, now)
    decreases ts
  {
    if ts != [] {
      hide HandleTransfer, Taken;
      FirstDelivery(db, pid, ts, now);
      LiveNeverSettlesIfAllTaken(HandleTransfer(db, ts[0], now, false), pid, ts[1..], now);
    }
  }

  predicate Unrecorded(db: Db, us: seq<Transfer>) { forall t | t in us :: t.key !in db.records }

  /** One pass over unrecorded transfers: if they meet the threshold it settles with the full total, or
      fails on a taken txHash; otherwise nothing happens. */
  lemma ScanOutcome(db: Db, pid: Pid, us: seq<Transfer>)
    requires us != [] && pid < |db.payments| && CanAcceptDeposit(db.payments[pid].status)
    requires Unrecorded(db, us)
    ensures var p := db.payments[pid];
            var scanned := Reconcile(db, pid, us);
            var taken := Taken(db, pid, us[|us| - 1]);
            && |scanned.db.payments| == |db.payments|
            && scanned.recovered == (Met(db, pid, us) && !taken) && scanned.threw == (Met(db, pid, us) && taken)
            && (scanned.recovered ==> scanned.db.payments[pid].status.Confirming?
                                      && scanned.db.payments[pid].received == p.received + Sum(us))
            && (!scanned.recovered ==> scanned.db == db)
  {
    UnknownOfUnrecorded(us, db.records, pid);
  }

  predicate ScanSettles(db: Db, pid: Pid, us: seq<Transfer>)
    requires pid < |db.payments|
  {
    Reconcile(db, pid, us).db.payments[pid].status.Confirming?
  }

  lemma ScanSettlesIff(db: Db, pid: Pid, now: int, us: seq<Transfer>)
    requires us != [] && Arriving(db, pid, us, now)
    ensures ScanSettles(db, pid, us) <==> Met(db, pid, us) && !Taken(db, pid, us[|us| - 1])
  {
    ScanOutcome(db, pid, us);
  }

  predicate SameTransfers(ts: seq<Transfer>, us: seq<Transfer>) { multiset(ts) == multiset(us) }

  lemma {:induction false} DistinctOccurOnce(ts: seq<Transfer>, t: Transfer)
    requires DistinctTransfers(ts)
    ensures multiset(ts)[t] <= 1
  {
    if ts != [] {
      var n := |ts| - 1;
      DistinctOccurOnce(ts[..n], t);
      assert ts == ts[..n] + [ts[n]];
      if t == ts[n] { assert forall i | 0 <= i < n :: ts[..n][i] == ts[i] != t; }
    }
  }

  lemma TwiceCountsTwice(us: seq<Transfer>, i: nat, j: nat)
    requires i < j < |us| && us[i] == us[j]
    ensures multiset(us)[us[i]] >= 2
  {
    assert us == us[..j] + us[j..];
    assert us[..j][i] == us[i] && us[j..][0] == us[j];
    assert us[i] in us[..j] && us[i] in us[j..];
  }

  lemma DistinctIsPermuted(ts: seq<Transfer>, us: seq<Transfer>)
    requires SameTransfers(ts, us) && DistinctTransfers(ts)
    ensures DistinctTransfers(us)
  {
    forall i, j | 0 <= i < j < |us| ensures us[i].key != us[j].key {
      if us[i] == us[j] {
        TwiceCountsTwice(us, i, j);
        DistinctOccurOnce(ts, us[i]);
      } else {
        assert us[i] in multiset(us) && us[j] in multiset(us);
        var k :| 0 <= k < |ts| && ts[k] == us[i];
        var l :| 0 <= l < |ts| && ts[l] == us[j];
      }
    }
  }

  lemma PermutedArrives(db: Db, pid: Pid, now: int, ts: seq<Transfer>, us: seq<Transfer>)
    requires ts != [] && SameTransfers(ts, us) && Arriving(db, pid, ts, now)
    ensures us != [] && Arriving(db, pid, us, now)
    ensures Met(db, pid, us) == Met(db, pid, ts)
    ensures NoneTaken(db, pid, ts) ==> NoneTaken(db, pid, us)
    ensures AllTaken(db, pid, ts) ==> AllTaken(db, pid, us)
  {
    forall t | t in us ensures t in ts { assert t in multiset(us); }
    assert ts[0] in multiset(us);
    SumOfPermutation(ts, us);
    DistinctIsPermuted(ts, us);
  }

  /** Live delivery of a nonempty set of unrecorded transfers in one order, and one reconciliation pass
      over the same set in another, end in CONFIRMING for the same payments: exactly when the stored
      amount plus their sum is at least the expected amount minus one. */
  lemma LiveAndReconciliationAgree(db: Db, pid: Pid, now: int, ts: seq<Transfer>, us: seq<Transfer>)
    requires ts != [] && SameTransfers(ts, us)
    requires Arriving(db, pid, ts, now) && NoneTaken(db, pid, ts)
    ensures LiveSettles(db, pid, ts, now) <==> db.payments[pid].received + Sum(ts) >= db.payments[pid].expected - 1
    ensures ScanSettles(db, pid, us) <==> LiveSettles(db, pid, ts, now)
  {
    PermutedArrives(db, pid, now, ts, us);
    hide DeliverAll, Reconcile, Sum, SameTransfers, Taken;
    LiveOutcome(db, pid, ts, now);
    assert us[|us| - 1] in us;
    ScanSettlesIff(db, pid, now, us);
  }

  /** Live delivery and reconciliation reach the same verdict, whatever the two orders. */
  ghost predicate AgreeInEveryOrder(db: Db, pid: Pid, ts: seq<Transfer>, now: int)
    requires pid < |db.payments|
  {
    forall us, vs | SameTransfers(ts, us) && SameTransfers(ts, vs) ::
      LiveSettles(db, pid, us, now) <==> ScanSettles(db, pid, vs)
  }

  function MoveLast(ts: seq<Transfer>, i: nat): seq<Transfer>
    requires i < |ts|
  {
    ts[..i] + ts[i + 1..] + [ts[i]]
  }

  lemma MoveLastPermutes(ts: seq<Transfer>, i: nat)
    requires i < |ts|
    ensures SameTransfers(ts, MoveLast(ts, i))
  {
    assert ts == ts[..i] + [ts[i]] + ts[i + 1..];
  }

  lemma AgreementHolds(db: Db, pid: Pid, now: int, ts: seq<Transfer>, us: seq<Transfer>, vs: seq<Transfer>)
    requires ts != [] && Arriving(db, pid, ts, now)
    requires !Met(db, pid, ts) || NoneTaken(db, pid, ts) || AllTaken(db, pid, ts)
    requires SameTransfers(ts, us) && SameTransfers(ts, vs)
    ensures LiveSettles(db, pid, us, now) <==> ScanSettles(db, pid, vs)
  {
    PermutedArrives(db, pid, now, ts, us);
    PermutedArrives(db, pid, now, ts, vs);
    hide DeliverAll, Reconcile, Sum, SameTransfers, Taken, Arriving;
    assert vs[|vs| - 1] in vs;
    ScanSettlesIff(db, pid, now, vs);
    if Met(db, pid, ts) && AllTaken(db, pid, ts) {
      LiveNeverSettlesIfAllTaken(db, pid, us, now);
    } else {
      LiveOutcome(db, pid, us, now);
    }
  }

  lemma AgreementFails(db: Db, pid: Pid, now: int, ts: seq<Transfer>, taken: nat, free: nat)
    requires Arriving(db, pid, ts, now) && Met(db, pid, ts)
    requires taken < |ts| && Taken(db, pid, ts[taken])
    requires free < |ts| && !Taken(db, pid, ts[free])
    ensures !AgreeInEveryOrder(db, pid, ts, now)
  {
    var us, vs := MoveLast(ts, taken), MoveLast(ts, free);
    MoveLastPermutes(ts, taken);
    MoveLastPermutes(ts, free);
    PermutedArrives(db, pid, now, ts, us);
    PermutedArrives(db, pid, now, ts, vs);
    hide DeliverAll, Reconcile, Sum, Taken, Arriving, LiveSettles, ScanSettles, Met;
    ScanSettlesIff(db, pid, now, us);
    ScanSettlesIff(db, pid, now, vs);
    assert SameTransfers(ts, ts);
    assert (LiveSettles(db, pid, ts, now) <==> ScanSettles(db, pid, us)) ==>
           !(LiveSettles(db, pid, ts, now) <==> ScanSettles(db, pid, vs));
  }

  /** Exactly when the two agree in every order: unless the transfers meet the threshold and the txHash
      of some of them, but not of all, already settled another payment. */
  lemma AgreementIff(db: Db, pid: Pid, now: int, ts: seq<Transfer>)
    requires ts != [] && Arriving(db, pid, ts, now)
    ensures AgreeInEveryOrder(db, pid, ts, now) <==>
            !Met(db, pid, ts) || NoneTaken(db, pid, ts) || AllTaken(db, pid, ts)
  {
    if !Met(db, pid, ts) || NoneTaken(db, pid, ts) || AllTaken(db, pid, ts) {
      forall us, vs | SameTransfers(ts, us) && SameTransfers(ts, vs)
        ensures LiveSettles(db, pid, us, now) <==> ScanSettles(db, pid, vs)
      {
        AgreementHolds(db, pid, now, ts, us, vs);
      }
    } else {
      var taken :| 0 <= taken < |ts| && Taken(db, pid, ts[taken]);
      var free :| 0 <= free < |ts| && !Taken(db, pid, ts[free]);
      AgreementFails(db, pid, now, ts, taken, free);
    }
  }

  /** They do part: payment 7 was settled by transaction 1, which also pays 600 to payment 8; together with 400
      from transaction 2 that settles payment 8 in one order of delivery or scan and not in another. */
  lemma AgreementCanFail() returns (db: Db, pid: Pid, ts: seq<Transfer>)
    ensures ts != [] && Arriving(db, pid, ts, 0) && !AgreeInEveryOrder(db, pid, ts, 0)
  {
    var settled := Payment(7, 1_000, 1_000, Confirming, 100, Some(1));
    var pending := Payment(8, 1_000, 0, Pending, 100, None);
    db, pid := Db([settled, pending], map[Key(1, 0) := 0], [Credit(Key(1, 0), 0, 1_000)]), 1;
    var t, u := Transfer(Key(1, 1), 8, 600), Transfer(Key(2, 0), 8, 400);
    ts := [t, u];
    SumHead(ts);
    SumHead([u]);
    assert ts[1..] == [u] && [u][1..] == [];
    assert Sum(ts) == 1_000;
    assert db.payments[0].settledBy == Some(1) && db.payments[1].settledBy.None?;
    assert Taken(db, 1, ts[0]) && !Taken(db, 1, ts[1]);
    hide AgreeInEveryOrder, Sum, Taken;
    AgreementFails(db, 1, 0, ts, 0, 1);
  }

  // ---------------------------------------------------------------- one reconciliation run

  function CountConfirming(ps: seq<Payment>, open: seq<Pid>): nat
    requires forall i | 0 <= i < |open| :: open[i] < |ps|
  {
    if open == [] then 0
    else CountConfirming(ps, open[..|open| - 1]) + if ps[open[|open| - 1]].status.Confirming? then 1 else 0
  }

  /** The scan failed, or found unlinked transfers that meet the threshold. */
  predicate Due(db: Db, pid: Pid, scan: Option<seq<Transfer>>)
    requires pid < |db.payments|
  {
    scan.Some? ==>
      var unseen := Unknown(scan.value, db.records, pid);
      unseen != [] && MeetsThreshold(db.payments[pid], db.payments[pid].received + Sum(unseen))
  }

  function CountDue(db: Db, open: seq<Pid>, scan: Pid -> Option<seq<Transfer>>): nat
    requires forall i | 0 <= i < |open| :: open[i] < |db.payments|
  {
    if open == [] then 0
    else CountDue(db, open[..|open| - 1], scan) + if Due(db, open[|open| - 1], scan(open[|open| - 1])) then 1 else 0
  }

  lemma {:induction false} CountIgnoresOthers(ps: seq<Payment>, qs: seq<Payment>, open: seq<Pid>)
    requires |ps| == |qs| && forall i | 0 <= i < |open| :: open[i] < |ps| && ps[open[i]] == qs[open[i]]
    ensures CountConfirming(ps, open) == CountConfirming(qs, open)
  {
    if open != [] { CountIgnoresOthers(ps, qs, open[..|open| - 1]); }
  }

  /** Reconciling one open payment touches no other and reports whether it settled this one. */
  lemma ReconcileSettlesOne(db: Db, pid: Pid, events: seq<Transfer>)
    requires pid < |db.payments| && CanAcceptDeposit(db.payments[pid].status)
    ensures var r := Reconcile(db, pid, events);
            && |r.db.payments| == |db.payments| && r.db.records == db.records
            && (forall p | 0 <= p < |db.payments| && p != pid :: r.db.payments[p] == db.payments[p])
            && (r.recovered <==> r.db.payments[pid].status.Confirming?)
            && (r.recovered || r.threw <==> Due(db, pid, Some(events)))
  {
  }

  lemma DueUnchanged(db: Db, d: Db, pid: Pid, scan: Option<seq<Transfer>>)
    requires pid < |db.payments| && pid < |d.payments|
    requires d.payments[pid] == db.payments[pid] && d.records == db.records
    ensures Due(d, pid, scan) == Due(db, pid, scan)
  {
  }

  lemma DueIfFailed(db: Db, pid: Pid)
    requires pid < |db.payments|
    ensures Due(db, pid, None)
  {
  }

  /** A reconciliation run over open payments reports as recovered exactly the payments it moved to
      CONFIRMING and as errors all others that were due: those whose scan failed or whose transfers met the
      threshold. It touches no payment outside its list and none whose scan failed. */
  lemma {:induction false} RecoveredCountsSettled(db: Db, open: seq<Pid>, scan: Pid -> Option<seq<Transfer>>)
    requires forall i | 0 <= i < |open| :: open[i] < |db.payments| && CanAcceptDeposit(db.payments[open[i]].status)
    requires forall i, j | 0 <= i < j < |open| :: open[i] != open[j]
    ensures var r := ReconcileAll(db, db.payments, open, scan);
            && r.1 == CountConfirming(r.0.payments, open)
            && r.1 + r.2 == CountDue(db, open, scan)
            && (forall p | 0 <= p < |db.payments| && p !in open :: r.0.payments[p] == db.payments[p])
            && (forall i | 0 <= i < |open| && scan(open[i]).None? :: r.0.payments[open[i]] == db.payments[open[i]])
            && r.0.records == db.records
  {
    if open != [] {
      hide ReconcileFetched, Due;
      var n := |open| - 1;
      var pid := open[n];
      RecoveredCountsSettled(db, open[..n], scan);
      var (d, recovered, errors) := ReconcileAll(db, db.payments, open[..n], scan);
      var r := ReconcileAll(db, db.payments, open, scan).0;
      assert d.payments[pid] == db.payments[pid] by { assert pid !in open[..n]; }
      if scan(pid).Some? {
        ReconcileSettlesOne(d, pid, scan(pid).value);
        DueUnchanged(db, d, pid, scan(pid));
      } else {
        DueIfFailed(db, pid);
      }
      forall i | 0 <= i < n ensures r.payments[open[..n][i]] == d.payments[open[..n][i]] {
        assert open[i] != pid;
      }
      CountIgnoresOthers(r.payments, d.payments, open[..n]);
    }
  }
}
