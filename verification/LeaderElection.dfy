/**
 Listener leader election: a Redis lease (SET NX EX 30, compare-and-expire, compare-and-delete)
 together with the local "active" state of every listener instance.

 Each step below is one atomic Redis command or one uninterrupted stretch of event-loop code.
 Timers may fire at any moment, replies may be handled arbitrarily late or get lost, and
 instances may come and go, so every interleaving of the real program is a run of this model.
 */
module LeaderElection {
  import opened Common

  type Id = int

  const LEADER_TTL_MS := 30_000

  // ---------------------------------------------------------------- the Redis key

  /** What is stored under the leader key. An expired value is still stored but not visible. */
  datatype Lease = Absent | Held(owner: Id, expiresAt: int)

  datatype Reply = Reply(key: Lease, ok: bool)

  function Visible(key: Lease, now: int): Lease {
    if key.Held? && now > key.expiresAt then Absent else key
  }

  predicate Owns(key: Lease, now: int, id: Id) {
    Visible(key, now).Held? && key.owner == id
  }

  /** SET key id EX 30 NX */
  function SetNx(key: Lease, now: int, id: Id): Reply {
    if Visible(key, now).Absent? then Reply(Held(id, now + LEADER_TTL_MS), true) else Reply(key, false)
  }

  /** The renewal script: extend the TTL only if the key still holds our id. */
  function CompareAndExpire(key: Lease, now: int, id: Id): Reply {
    if Owns(key, now, id) then Reply(Held(id, now + LEADER_TTL_MS), true) else Reply(key, false)
  }

  /** The release script: delete the key only if it still holds our id. */
  function CompareAndDelete(key: Lease, now: int, id: Id): Reply {
    if Owns(key, now, id) then Reply(Absent, true) else Reply(key, false)
  }

  class Redis {
    var now: int
    var key: Lease

    constructor (start: int)
      ensures now == start && key == Absent
    {
      now, key := start, Absent;
    }
  }

  class LeaderElectionService {
    const instanceId: Id
    const redis: Redis

    constructor (id: Id, redis: Redis)
      ensures instanceId == id && this.redis == redis
    {
      instanceId, this.redis := id, redis;
    }

    method TryAcquire() returns (acquired: bool)
      modifies redis`key
      ensures Reply(redis.key, acquired) == SetNx(old(redis.key), redis.now, instanceId)
      ensures acquired ==> Owns(redis.key, redis.now, instanceId)
    {
      if redis.key.Held? && redis.now <= redis.key.expiresAt {
        return false;
      }
      redis.key := Held(instanceId, redis.now + LEADER_TTL_MS);
      return true;
    }

    method Renew() returns (renewed: bool)
      modifies redis`key
      ensures Reply(redis.key, renewed) == CompareAndExpire(old(redis.key), redis.now, instanceId)
      ensures renewed == old(Owns(redis.key, redis.now, instanceId))
    {
      if redis.key.Held? && redis.now <= redis.key.expiresAt && redis.key.owner == instanceId {
        redis.key := Held(instanceId, redis.now + LEADER_TTL_MS);
        return true;
      }
      return false;
    }

    method Release()
      modifies redis`key
      ensures redis.key == CompareAndDelete(old(redis.key), redis.now, instanceId).key
      ensures !Owns(redis.key, redis.now, instanceId)
      ensures old(redis.key).Held? && old(redis.key).owner != instanceId ==> redis.key == old(redis.key)
    {
      if redis.key.Held? && redis.now <= redis.key.expiresAt && redis.key.owner == instanceId {
        redis.key := Absent;
      }
    }

    method IsLeaderAbsent() returns (absent: bool)
      ensures absent == Visible(redis.key, redis.now).Absent?
    {
      absent := redis.key.Absent? || redis.now > redis.key.expiresAt;
    }
  }

  // ---------------------------------------------------------------- one listener instance

  /** The fields of one listener: its leader state, the number of activations awaiting
      `activateIngestion`, whether a subscription or poll loop is on, and whether shutdown began. */
  datatype Local = Local(active: bool, activating: nat, ingesting: bool, stopping: bool)

  const BOOTED := Local(false, 0, false, false)

  function BeginActive(l: Local): Local { l.(active := true, activating := l.activating + 1) }

  function FinishActive(l: Local): Local
    requires l.activating > 0
  {
    l.(activating := l.activating - 1, ingesting := true)
  }

  function BecomeStandby(l: Local): Local { l.(active := false, ingesting := false) }

  function BeginShutdown(l: Local): Local { l.(stopping := true, ingesting := false) }

  /** The instance takes in transfers, or has decided to and is setting that up. */
  predicate Serving(l: Local) { l.ingesting || l.activating > 0 }

  class PaymentListener {
    const leader: LeaderElectionService
    var leaderActive: bool
    var activating: nat
    var ingesting: bool
    var stopping: bool

    function View(): Local
      reads this
    {
      Local(leaderActive, activating, ingesting, stopping)
    }

    constructor (leader: LeaderElectionService)
      ensures View() == BOOTED && this.leader == leader
    {
      this.leader, leaderActive, activating, ingesting, stopping := leader, false, 0, false, false;
    }

    /** becomeActive up to its first await */
    method StartActivation()
      modifies this
      ensures View() == BeginActive(old(View())) && Serving(View())
    {
      leaderActive := true;
      activating := activating + 1;
    }

    /** becomeActive after activateIngestion: watchdog and renewal start */
    method CompleteActivation()
      requires activating > 0
      modifies this
      ensures View() == FinishActive(old(View())) && Serving(View())
    {
      activating := activating - 1;
      ingesting := true;
    }

    /** One firing of the renewal timer whose reply is handled at once. */
    method RenewalTick()
      modifies this, leader.redis`key
      ensures leader.redis.key == CompareAndExpire(old(leader.redis.key), leader.redis.now, leader.instanceId).key
      ensures View() == if old(Owns(leader.redis.key, leader.redis.now, leader.instanceId))
                        then old(View()) else BecomeStandby(old(View()))
    {
      var ok := leader.Renew();
      if !ok {
        leaderActive := false;
        ingesting := false;
      }
    }

    /** One firing of the standby probe whose replies are handled at once. */
    method ProbeTick()
      modifies this, leader.redis`key
      ensures old(leaderActive) ==> View() == old(View()) && leader.redis.key == old(leader.redis.key)
      ensures !old(leaderActive) ==>
                var r := SetNx(old(leader.redis.key), leader.redis.now, leader.instanceId);
                leader.redis.key == r.key && View() == if r.ok then BeginActive(old(View())) else old(View())
    {
      if leaderActive { return; }
      var absent := leader.IsLeaderAbsent();
      if !absent { return; }
      var acquired := leader.TryAcquire();
      if acquired { StartActivation(); }
    }

    /** onApplicationShutdown when nothing runs between its awaits */
    method Shutdown()
      modifies this, leader.redis`key
      ensures View() == BeginShutdown(old(View())) && stopping && !ingesting
      ensures leader.redis.key == if old(leaderActive)
                                  then CompareAndDelete(old(leader.redis.key), leader.redis.now, leader.instanceId).key
                                  else old(leader.redis.key)
    {
      stopping := true;
      ingesting := false;
      if leaderActive { leader.Release(); }
    }
  }

  // ---------------------------------------------------------------- all instances together

  /** One instance with its callbacks in flight: `attempts` will issue SET NX, `grants` are
      successful SET NX replies not yet handled, `refusals` failed renewals not yet handled.
      `lastGrant` is the Redis time of its last successful acquire or renewal. */
  datatype Node = Node(local: Local, attempts: nat, grants: nat, refusals: nat, lastGrant: Option<int>)

  datatype World = World(now: int, key: Lease, nodes: map<Id, Node>)

  datatype Step =
    | Tick(to: int)
    | Boot(id: Id)
    | Probe(id: Id)
    | TryAcquire(id: Id, lost: bool)
    | Granted(id: Id)
    | Activated(id: Id)
    | Renew(id: Id, lost: bool)
    | Demoted(id: Id)
    | Shutdown(id: Id)
    | Release(id: Id)

  function Put(w: World, i: Id, n: Node): World { w.(nodes := w.nodes[i := n]) }

  function NodeNext(w: World, s: Step, n: Node): World
    requires !s.Tick? && !s.Boot?
  {
    match s
    case Probe(i) =>
      if !n.local.active && Visible(w.key, w.now).Absent? then Put(w, i, n.(attempts := n.attempts + 1)) else w
    case TryAcquire(i, lost) =>
      if n.attempts == 0 then w else
      var r := SetNx(w.key, w.now, i);
      Put(w.(key := r.key), i,
          n.(attempts := n.attempts - 1,
             grants := if r.ok && !lost then n.grants + 1 else n.grants,
             lastGrant := if r.ok then Some(w.now) else n.lastGrant))
    case Granted(i) =>
      if n.grants == 0 then w else Put(w, i, n.(grants := n.grants - 1, local := BeginActive(n.local)))
    case Activated(i) =>
      if n.local.activating == 0 then w else Put(w, i, n.(local := FinishActive(n.local)))
    case Renew(i, lost) =>
      var r := CompareAndExpire(w.key, w.now, i);
      Put(w.(key := r.key), i,
          n.(refusals := if r.ok && !lost then n.refusals else n.refusals + 1,
             lastGrant := if r.ok then Some(w.now) else n.lastGrant))
    case Demoted(i) =>
      if n.refusals == 0 then w else Put(w, i, n.(refusals := n.refusals - 1, local := BecomeStandby(n.local)))
    case Shutdown(i) => Put(w, i, n.(local := BeginShutdown(n.local)))
    case Release(i) =>
      if n.local.stopping && n.local.active then w.(key := CompareAndDelete(w.key, w.now, i).key) else w
  }

  /** A step that is not possible leaves the world as it is. */
  function Next(w: World, s: Step): World {
    if s.Tick? then w.(now := if s.to >= w.now then s.to else w.now)
    else if s.Boot? then
      if s.id in w.nodes then w else w.(nodes := w.nodes[s.id := Node(BOOTED, 1, 0, 0, None)])
    else if s.id !in w.nodes then w
    else NodeNext(w, s, w.nodes[s.id])
  }

  function Run(w: World, steps: seq<Step>): World
    decreases steps
  {
    if steps == [] then w else Run(Next(w, steps[0]), steps[1..])
  }

  const START := World(0, Absent, map[])

  /** At most 30 s since the Redis time of the instance's last successful acquire or renewal. */
  predicate Fresh(w: World, n: Node) { n.lastGrant.Some? && w.now <= n.lastGrant.value + LEADER_TTL_MS }

  /** Serving now, or holding a grant that will make it serve. */
  predicate Engaged(n: Node) { Serving(n.local) || n.grants > 0 }

  predicate Exclusive(w: World) {
    forall i, j | i in w.nodes && j in w.nodes
                  && Serving(w.nodes[i].local) && Fresh(w, w.nodes[i])
                  && Serving(w.nodes[j].local) && Fresh(w, w.nodes[j]) :: i == j
  }

  /** The shutdown release does not pull the lease from under the instance's own activation. */
  predicate CleanRelease(w: World, i: Id) {
    i in w.nodes && Owns(w.key, w.now, i) ==> !Engaged(w.nodes[i])
  }

  predicate CleanRun(w: World, steps: seq<Step>)
    decreases steps
  {
    steps == [] ||
    ((steps[0].Release? ==> CleanRelease(w, steps[0].id)) && CleanRun(Next(w, steps[0]), steps[1..]))
  }

  /** The key records its owner's last grant. */
  predicate KeyInv(w: World) {
    w.key.Held? ==> w.key.owner in w.nodes && w.nodes[w.key.owner].lastGrant == Some(w.key.expiresAt - LEADER_TTL_MS)
  }

  predicate EngagedInv(w: World, i: Id, n: Node) {
    Engaged(n) ==> n.lastGrant.Some? && (Fresh(w, n) ==> w.key == Held(i, n.lastGrant.value + LEADER_TTL_MS))
  }

  predicate ActiveInv(n: Node) { n.local.active ==> Serving(n.local) || n.local.stopping }

  predicate Inv(w: World) {
    KeyInv(w) && forall i | i in w.nodes :: EngagedInv(w, i, w.nodes[i]) && ActiveInv(w.nodes[i])
  }

  lemma NextKeepsNode(w: World, s: Step, i: Id)
    requires Inv(w) && i in Next(w, s).nodes
    requires s.Release? ==> CleanRelease(w, s.id)
    ensures var d := Next(w, s); EngagedInv(d, i, d.nodes[i]) && ActiveInv(d.nodes[i])
  {
    if i in w.nodes { assert EngagedInv(w, i, w.nodes[i]) && ActiveInv(w.nodes[i]); }
    if !s.Tick? && !s.Boot? && s.id in w.nodes { assert EngagedInv(w, s.id, w.nodes[s.id]); }
  }

  lemma NextKeepsInv(w: World, s: Step)
    requires Inv(w)
    requires s.Release? ==> CleanRelease(w, s.id)
    ensures Inv(Next(w, s))
  {
    assert KeyInv(Next(w, s));
    hide Next, EngagedInv, ActiveInv, CleanRelease;
    forall i | i in Next(w, s).nodes
      ensures EngagedInv(Next(w, s), i, Next(w, s).nodes[i]) && ActiveInv(Next(w, s).nodes[i])
    {
      NextKeepsNode(w, s, i);
    }
  }

  lemma {:induction false} RunKeepsInv(w: World, steps: seq<Step>)
    requires Inv(w) && CleanRun(w, steps)
    ensures Inv(Run(w, steps))
    decreases steps
  {
    if steps != [] {
      NextKeepsInv(w, steps[0]);
      RunKeepsInv(Next(w, steps[0]), steps[1..]);
    }
  }

  /** Safety over every run: an instance that serves within 30 s of its last successful acquire or
      renewal owns the key, so no two such instances serve at once; and an instance whose leader
      state is "active" serves unless it is shutting down. */
  lemma {:induction false} AtMostOneLeader(steps: seq<Step>)
    requires CleanRun(START, steps)
    ensures var w := Run(START, steps);
            && Exclusive(w)
            && (forall i | i in w.nodes && Serving(w.nodes[i].local) && Fresh(w, w.nodes[i]) :: Owns(w.key, w.now, i))
            && (forall i | i in w.nodes && w.nodes[i].local.active && !w.nodes[i].local.stopping ::
                  Serving(w.nodes[i].local))
  {
    RunKeepsInv(START, steps);
  }

  // ---------------------------------------------------------------- when the release is not clean

  lemma {:induction false} BoundedIds(s: set<Id>) returns (bound: Id)
    ensures forall i | i in s :: i < bound
  {
    if !exists x :: x in s {
      bound := 0;
    } else {
      var x :| x in s;
      var rest := BoundedIds(s - {x});
      bound := if rest > x then rest else x + 1;
      assert forall i | i in s :: i == x || i in s - {x};
    }
  }

  lemma RunFour(w: World, a: Step, b: Step, c: Step, d: Step)
    ensures Run(w, [a, b, c, d]) == Next(Next(Next(Next(w, a), b), c), d)
  {
    assert [a, b, c, d][1..] == [b, c, d] && [b, c, d][1..] == [c, d] && [c, d][1..] == [d] && [d][1..] == [];
    assert Run(w, [a, b, c, d]) == Run(Next(w, a), [b, c, d]);
    assert Run(Next(w, a), [b, c, d]) == Run(Next(Next(w, a), b), [c, d]);
    assert Run(Next(Next(w, a), b), [c, d]) == Run(Next(Next(Next(w, a), b), c), [d]);
  }

  lemma {:induction false} CleanWithoutRelease(w: World, steps: seq<Step>)
    requires forall s | s in steps :: !s.Release?
    ensures CleanRun(w, steps)
    decreases steps
  {
    if steps != [] { CleanWithoutRelease(Next(w, steps[0]), steps[1..]); }
  }

  /** A release under an unfinished activation lets a newly booted instance lead beside this one. */
  lemma UncleanReleaseSplits(w: World, i: Id) returns (steps: seq<Step>)
    requires Inv(w) && i in w.nodes
    requires w.nodes[i].local.stopping && w.nodes[i].local.active
    requires !CleanRelease(w, i)
    ensures CleanRun(Next(w, Release(i)), steps) && !Exclusive(Run(Next(w, Release(i)), steps))
  {
    var j := BoundedIds(w.nodes.Keys);
    var w1 := Next(w, Release(i));
    steps := [Boot(j), TryAcquire(j, false), Granted(j), Granted(i)];
    RunFour(w1, Boot(j), TryAcquire(j, false), Granted(j), Granted(i));
    CleanWithoutRelease(w1, steps);
    var w2 := Next(w1, Boot(j));
    var w3 := Next(w2, TryAcquire(j, false));
    assert w3.nodes[j].grants == 1 && w3.nodes[j].lastGrant == Some(w.now);
    var w4 := Next(w3, Granted(j));
    var w5 := Next(w4, Granted(i));
    assert i in w5.nodes && Serving(w5.nodes[i].local) && Fresh(w5, w5.nodes[i]);
    assert j in w5.nodes && Serving(w5.nodes[j].local) && Fresh(w5, w5.nodes[j]);
  }

  lemma {:induction false} RunAppend(w: World, a: seq<Step>, b: seq<Step>)
    ensures Run(w, a + b) == Run(Run(w, a), b)
    decreases a
  {
    if a == [] {
      assert a + b == b;
    } else {
      assert (a + b)[1..] == a[1..] + b;
      RunAppend(Next(w, a[0]), a[1..], b);
    }
  }

  /** It happens: the first instance is shut down while its activation is under way, and a second one boots. */
  lemma ShutdownDuringActivationSplits() returns (steps: seq<Step>)
    ensures !Exclusive(Run(START, steps))
  {
    var booting := [Boot(0), TryAcquire(0, false), Granted(0), Shutdown(0)];
    RunFour(START, Boot(0), TryAcquire(0, false), Granted(0), Shutdown(0));
    var w := Run(START, booting);
    CleanWithoutRelease(START, booting);
    RunKeepsInv(START, booting);
    assert 0 in w.nodes && w.nodes[0].local == Local(true, 1, false, true) && Owns(w.key, w.now, 0);
    hide Next, Exclusive, Inv;
    var rest := UncleanReleaseSplits(w, 0);
    assert ([Release(0)] + rest)[1..] == rest;
    RunAppend(START, booting, [Release(0)] + rest);
    steps := booting + ([Release(0)] + rest);
  }

  /** Exactly when the shutdown release is safe: no run after it whose own releases are clean has two leaders,
      if and only if the releasing owner has no activation or unhandled grant in flight. */
  lemma ReleaseIsSafeIffClean(w: World, i: Id)
    requires Inv(w) && i in w.nodes
    requires w.nodes[i].local.stopping && w.nodes[i].local.active
    ensures CleanRelease(w, i) <==>
            forall steps: seq<Step> | CleanRun(Next(w, Release(i)), steps) :: Exclusive(Run(Next(w, Release(i)), steps))
  {
    if CleanRelease(w, i) {
      NextKeepsInv(w, Release(i));
      forall steps: seq<Step> | CleanRun(Next(w, Release(i)), steps)
        ensures Exclusive(Run(Next(w, Release(i)), steps))
      {
        RunKeepsInv(Next(w, Release(i)), steps);
      }
    } else {
      var steps := UncleanReleaseSplits(w, i);
    }
  }

  // ---------------------------------------------------------------- without any timing assumption

  /** In any world at all, an instance that does not own the key cannot change it by renewing or
      releasing, and its next renewal demotes it. */
  lemma StaleLeaderSteppedDown(w: World, i: Id, lost: bool)
    requires i in w.nodes && !Owns(w.key, w.now, i)
    ensures Next(w, Renew(i, lost)).key == w.key && Next(w, Release(i)).key == w.key
    ensures var w' := Next(Next(w, Renew(i, lost)), Demoted(i));
            w'.key == w.key && !w'.nodes[i].local.active && !w'.nodes[i].local.ingesting
            && w'.nodes[i].lastGrant == w.nodes[i].lastGrant
  {
    var w1 := Next(w, Renew(i, lost));
    assert w1.nodes[i].refusals == w.nodes[i].refusals + 1;
  }

  /** Ownership, once lost, comes back only through SET NX: without it every later renewal fails. */
  lemma {:induction false} OwnershipNeedsAcquire(w: World, i: Id, steps: seq<Step>)
    requires !Owns(w.key, w.now, i)
    requires forall s | s in steps :: !(s.TryAcquire? && s.id == i)
    ensures !Owns(Run(w, steps).key, Run(w, steps).now, i)
    ensures !CompareAndExpire(Run(w, steps).key, Run(w, steps).now, i).ok
    decreases steps
  {
    if steps != [] { OwnershipNeedsAcquire(Next(w, steps[0]), i, steps[1..]); }
  }

  /** Failover: once the lease has run out, one probe of any standby instance takes over, and no
      probe does anything while a lease is visible. */
  lemma StandbyTakesOver(w: World, j: Id)
    requires j in w.nodes && !w.nodes[j].local.active
    ensures var w' := Next(Next(Next(w, Probe(j)), TryAcquire(j, false)), Granted(j));
            Visible(w.key, w.now).Absent? ==>
              && Owns(w'.key, w'.now, j) && Fresh(w', w'.nodes[j])
              && w'.nodes[j].local.active && Serving(w'.nodes[j].local)
    ensures Visible(w.key, w.now).Held? ==> Next(w, Probe(j)) == w
  {
    var w1 := Next(w, Probe(j));
    var w2 := Next(w1, TryAcquire(j, false));
    assert Visible(w.key, w.now).Absent? ==> w2.nodes[j].grants > 0;
  }

  // ---------------------------------------------------------------- an ordinary shutdown

  /** Nothing of an activation is under way. */
  predicate Settled(n: Node) { n.local.activating == 0 && n.grants == 0 }

  /** An ordinary shutdown ends ingestion before it gives up the lease. */
  lemma ShutdownStopsServing(w: World, i: Id)
    requires i in w.nodes && Settled(w.nodes[i])
    ensures var stopped := Next(w, Shutdown(i));
            && !Serving(stopped.nodes[i].local) && CleanRelease(stopped, i)
            && stopped.nodes[i].local.active == w.nodes[i].local.active && stopped.key == w.key
    ensures w.nodes[i].local.active ==>
              var released := Next(Next(w, Shutdown(i)), Release(i));
              !Serving(released.nodes[i].local) && !Owns(released.key, released.now, i)
  {
  }

  predicate HandlesNoGrant(steps: seq<Step>, i: Id) { forall s | s in steps :: s != Granted(i) }

  lemma {:induction false} StaysStopped(w: World, i: Id, steps: seq<Step>)
    requires i in w.nodes && !Serving(w.nodes[i].local) && HandlesNoGrant(steps, i)
    ensures i in Run(w, steps).nodes && !Serving(Run(w, steps).nodes[i].local)
    decreases steps
  {
    if steps != [] {
      assert steps[0] in steps;
      assert forall s | s in steps[1..] :: s in steps;
      StaysStopped(Next(w, steps[0]), i, steps[1..]);
    }
  }

  /** A graceful shutdown hands over: after any clean run, an active instance with no activation under way stops
      serving and releases; over every later clean run no two instances lead, and the one shut down does not
      serve again unless it handles a grant it was still waiting for. */
  lemma {:induction false} ShutdownHandsOver(before: seq<Step>, i: Id, after: seq<Step>)
    requires CleanRun(START, before)
    requires var w := Run(START, before); i in w.nodes && w.nodes[i].local.active && Settled(w.nodes[i])
    requires CleanRun(Next(Next(Run(START, before), Shutdown(i)), Release(i)), after)
    ensures var released := Next(Next(Run(START, before), Shutdown(i)), Release(i));
            var d := Run(released, after);
            && !Owns(released.key, released.now, i) && Exclusive(d)
            && (HandlesNoGrant(after, i) ==> i in d.nodes && !Serving(d.nodes[i].local))
  {
    RunKeepsInv(START, before);
    var w := Run(START, before);
    var stopped := Next(w, Shutdown(i));
    var released := Next(stopped, Release(i));
    ShutdownStopsServing(w, i);
    NextKeepsInv(w, Shutdown(i));
    NextKeepsInv(stopped, Release(i));
    RunKeepsInv(released, after);
    if HandlesNoGrant(after, i) { StaysStopped(released, i, after); }
  }

  // ---------------------------------------------------------------- the length of the lease

  /** After a grant or a renewal nobody else gets the lease for 30 seconds, and anybody does right after them. */
  lemma LeaseLastsThirtySeconds(w: World, i: Id, renew: bool, j: Id, to: int)
    requires i in w.nodes && j != i && to >= w.now
    requires if renew then Owns(w.key, w.now, i) else w.nodes[i].attempts > 0 && Visible(w.key, w.now).Absent?
    ensures var granted := Next(Next(w, if renew then Renew(i, false) else TryAcquire(i, false)), Tick(to));
            && (SetNx(granted.key, to, j).ok <==> to > w.now + 30_000)
            && (Owns(granted.key, to, i) <==> to <= w.now + 30_000)
  {
  }
}
