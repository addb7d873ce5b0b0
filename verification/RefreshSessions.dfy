/**
 Refresh-token rotation: one row per live session, keyed by the token's hash. Looking a session up and
 deleting it are two database calls, so concurrent refreshes of one token interleave between them.
 Times and token contents play no part; equal tokens have equal hashes.
 */
module RefreshSessions {
  import opened Common

  type Hash = nat
  type Uid = nat
  type ReqId = nat

  /** refresh_sessions: the owner of each live token hash. */
  type Table = map<Hash, Uid>

  function OwnedBy(t: Table, u: Uid): set<Hash> { set h | h in t && t[h] == u }

  // ---------------------------------------------------------------- the repository and the service

  class AuthRepository {
    var sessions: Table

    constructor ()
      ensures sessions == map[]
    {
      sessions := map[];
    }

    /** Fails on a hash that is already stored: tokenHash is unique. */
    method CreateRefreshSession(h: Hash, u: Uid) returns (ok: bool)
      modifies this
      ensures ok <==> h !in old(sessions)
      ensures sessions == if ok then old(sessions)[h := u] else old(sessions)
    {
      ok := h !in sessions;
      if ok { sessions := sessions[h := u]; }
    }

    method FindSession(h: Hash) returns (owner: Option<Uid>)
      ensures owner == if h in sessions then Some(sessions[h]) else None
    {
      owner := if h in sessions then Some(sessions[h]) else None;
    }

    /** Throws if the row is gone. */
    method DeleteSession(h: Hash) returns (ok: bool)
      modifies this
      ensures ok <==> h in old(sessions)
      ensures sessions == old(sessions) - {h}
    {
      ok := h in sessions;
      sessions := sessions - {h};
    }

    method DeleteAllRefreshSessions(u: Uid)
      modifies this
      ensures sessions == old(sessions) - OwnedBy(old(sessions), u)
      ensures OwnedBy(sessions, u) == {}
    {
      sessions := map h | h in sessions && sessions[h] != u :: sessions[h];
    }
  }

  class AuthService {
    const repo: AuthRepository

    constructor (repo: AuthRepository)
      ensures this.repo == repo
    {
      this.repo := repo;
    }

    /** refreshTokens when no other request interleaves: `next` is the hash of the token it would issue. */
    method RefreshTokens(userId: Uid, h: Hash, next: Hash) returns (ok: bool)
      modifies repo
      ensures var before := old(repo.sessions);
              if h !in before then
                !ok && repo.sessions == before - OwnedBy(before, userId)
              else if before[h] != userId then
                !ok && repo.sessions == before - {h} - OwnedBy(before - {h}, userId)
              else
                (ok <==> next !in before - {h})
                && repo.sessions == if ok then (before - {h})[next := userId] else before - {h}
    {
      var user := repo.FindSession(h);
      if user.None? {
        repo.DeleteAllRefreshSessions(userId);
        return false;
      }
      var _ := repo.DeleteSession(h);
      if user.value != userId {
        repo.DeleteAllRefreshSessions(userId);
        return false;
      }
      ok := repo.CreateRefreshSession(next, user.value);
    }
  }

  // ---------------------------------------------------------------- interleaved requests

  /** Where one refresh request stands. */
  datatype Stage =
    | Found(hash: Hash, owner: Uid, claimed: Uid)   // the lookup saw a session
    | Revoking(user: Uid)                           // reuse or mismatch: all of the user's sessions must go
    | Rotating(hash: Hash, user: Uid)               // the old session is deleted, the new one not yet stored
    | Succeeded(hash: Hash)
    | Rejected

  /** The table, the requests, and the history of hashes issued, consumed by rotation and revoked. */
  datatype State = State(live: Table, requests: map<ReqId, Stage>,
                         issued: multiset<Hash>, consumed: multiset<Hash>, revoked: multiset<Hash>)

  const INITIAL := State(map[], map[], multiset{}, multiset{}, multiset{})

  datatype Step =
    | Login(hash: Hash, user: Uid)
    | Find(req: ReqId, hash: Hash, claimed: Uid)
    | Delete(req: ReqId)
    | Revoke(req: ReqId)
    | Create(req: ReqId, hash: Hash)
    | Logout(hash: Hash)
    | LogoutAll(user: Uid)

  function Issue(s: State, h: Hash, u: Uid): State { s.(live := s.live[h := u], issued := s.issued + multiset{h}) }

  function RevokeAll(s: State, hs: set<Hash>): State { s.(live := s.live - hs, revoked := s.revoked + multiset(hs)) }

  function At(s: State, r: ReqId, stage: Stage): State { s.(requests := s.requests[r := stage]) }

  function Next(s: State, step: Step): State {
    match step
    case Login(h, u) => if h in s.live then s else Issue(s, h, u)
    case Find(r, h, claimed) =>
      if r in s.requests then s
      else At(s, r, if h in s.live then Found(h, s.live[h], claimed) else Revoking(claimed))
    case Delete(r) =>
      if !(r in s.requests && s.requests[r].Found?) then s
      else
        var f := s.requests[r];
        if f.hash !in s.live then At(s, r, Rejected)
        else
          At(s.(live := s.live - {f.hash}, consumed := s.consumed + multiset{f.hash}), r,
             if f.owner == f.claimed then Rotating(f.hash, f.owner) else Revoking(f.claimed))
    case Revoke(r) =>
      if !(r in s.requests && s.requests[r].Revoking?) then s
      else At(RevokeAll(s, OwnedBy(s.live, s.requests[r].user)), r, Rejected)
    case Create(r, h) =>
      if !(r in s.requests && s.requests[r].Rotating?) then s
      else if h in s.live then At(s, r, Rejected)
      else At(Issue(s, h, s.requests[r].user), r, Succeeded(s.requests[r].hash))
    case Logout(h) => if h in s.live then RevokeAll(s, {h}) else s
    case LogoutAll(u) => RevokeAll(s, OwnedBy(s.live, u))
  }

  function Run(s: State, steps: seq<Step>): State
    decreases steps
  {
    if steps == [] then s else Run(Next(s, steps[0]), steps[1..])
  }

  // ---------------------------------------------------------------- accounting

  /** Every session ever issued under this hash is live, was consumed, or was revoked: once each. */
  predicate Balanced(s: State, h: Hash) {
    s.issued[h] == (if h in s.live then 1 else 0) + s.consumed[h] + s.revoked[h]
  }

  /** The requests that have got past deleting this hash on its owner's behalf. */
  function Winners(s: State, h: Hash): set<ReqId> {
    set r | r in s.requests && ((s.requests[r].Rotating? || s.requests[r].Succeeded?) && s.requests[r].hash == h)
  }

  lemma NextKeepsBalance(s: State, step: Step, h: Hash)
    requires Balanced(s, h)
    ensures Balanced(Next(s, step), h)
  {
  }

  lemma SmallerSet(a: set<ReqId>, b: set<ReqId>)
    requires a <= b
    ensures |a| <= |b|
  {
    assert |b| == |a| + |b - a| by { assert b == a + (b - a); }
  }

  lemma NextKeepsWinners(s: State, step: Step, h: Hash)
    requires |Winners(s, h)| <= s.consumed[h]
    ensures |Winners(Next(s, step), h)| <= Next(s, step).consumed[h]
  {
    var d := Next(s, step);
    if && step.Delete? && step.req in s.requests && s.requests[step.req].Found?
       && s.requests[step.req].hash == h && h in s.live
    {
      SmallerSet(Winners(d, h), Winners(s, h) + {step.req});
    } else {
      SmallerSet(Winners(d, h), Winners(s, h));
    }
  }

  lemma {:induction false} RunKeepsAccounts(s: State, steps: seq<Step>, h: Hash)
    requires Balanced(s, h) && |Winners(s, h)| <= s.consumed[h]
    ensures Balanced(Run(s, steps), h) && |Winners(Run(s, steps), h)| <= Run(s, steps).consumed[h]
    decreases steps
  {
    if steps != [] {
      NextKeepsBalance(s, steps[0], h);
      NextKeepsWinners(s, steps[0], h);
      RunKeepsAccounts(Next(s, steps[0]), steps[1..], h);
    }
  }

  lemma {:induction false} RunKeepsBalance(s: State, steps: seq<Step>, h: Hash)
    requires Balanced(s, h)
    ensures Balanced(Run(s, steps), h)
    decreases steps
  {
    if steps != [] {
      NextKeepsBalance(s, steps[0], h);
      RunKeepsBalance(Next(s, steps[0]), steps[1..], h);
    }
  }

  function SucceededWith(s: State, h: Hash): set<ReqId> { set r | r in s.requests && s.requests[r] == Succeeded(h) }

  /** Under any interleaving of lookups and deletes, each token hash has been issued exactly as often as it
      is live, was consumed and was revoked; it is live at most once; and the refreshes that succeeded
      with it number at most its issues. */
  lemma {:induction false} EverySessionAccountedFor(steps: seq<Step>, h: Hash)
    ensures var s := Run(INITIAL, steps);
            && s.issued[h] == (if h in s.live then 1 else 0) + s.consumed[h] + s.revoked[h]
            && |SucceededWith(s, h)| <= s.consumed[h] <= s.issued[h]
  {
    assert Winners(INITIAL, h) == {};
    RunKeepsAccounts(INITIAL, steps, h);
    var s := Run(INITIAL, steps);
    SmallerSet(SucceededWith(s, h), Winners(s, h));
  }

  // ---------------------------------------------------------------- replays

  /** A replayed token, looked up after its session is gone, costs the claimed user every session live
      at that step and nobody else's. */
  lemma ReplayRevokesAll(s: State, r: ReqId, h: Hash, claimed: Uid)
    requires r !in s.requests && h !in s.live
    ensures var d := Next(Next(s, Find(r, h, claimed)), Revoke(r));
            && OwnedBy(d.live, claimed) == {}
            && d.live == s.live - OwnedBy(s.live, claimed)
            && d.requests[r].Rejected?
  {
  }

  /** No step issues this hash again. */
  predicate Reissues(step: Step, h: Hash) { (step.Login? || step.Create?) && step.hash == h }

  predicate NoReissue(steps: seq<Step>, h: Hash) { forall step | step in steps :: !Reissues(step, h) }

  /** The session under this hash is gone, or is still the same user's. */
  predicate OwnedIfLive(s: State, h: Hash, u: Uid) { h in s.live ==> s.live[h] == u }

  lemma StepSpends(s: State, step: Step, h: Hash, u: Uid)
    requires !Reissues(step, h) && OwnedIfLive(s, h, u)
    ensures var d := Next(s, step);
            OwnedIfLive(d, h, u) && (h in d.live ==> h in s.live) && d.issued[h] == s.issued[h]
  {
  }

  /** Without reissue a hash keeps its owner until its one consumption or revocation, after which it stays gone. */
  lemma {:induction false} LiveUntilSpent(s: State, steps: seq<Step>, h: Hash, u: Uid)
    requires NoReissue(steps, h) && OwnedIfLive(s, h, u)
    ensures var d := Run(s, steps);
            && OwnedIfLive(d, h, u) && (h in d.live ==> h in s.live)
            && d.issued[h] == s.issued[h]
    decreases steps
  {
    if steps != [] {
      hide Next, OwnedIfLive, Reissues;
      assert steps[0] in steps && !Reissues(steps[0], h);
      assert forall step | step in steps[1..] :: step in steps;
      StepSpends(s, steps[0], h, u);
      LiveUntilSpent(Next(s, steps[0]), steps[1..], h, u);
    }
  }

  /** The request looked the session up while it was live, on its owner's behalf, or got past deleting it,
      or was turned away. */
  predicate Unalarmed(s: State, r: ReqId, h: Hash, u: Uid) {
    r in s.requests &&
    match s.requests[r]
    case Found(hash, owner, claimed) => hash == h && owner == claimed == u
    case Revoking(_) => false
    case Rotating(hash, _) => hash == h
    case Succeeded(hash) => hash == h
    case Rejected => true
  }

  lemma StepStaysUnalarmed(s: State, step: Step, r: ReqId, h: Hash, u: Uid)
    requires Unalarmed(s, r, h, u)
    ensures Unalarmed(Next(s, step), r, h, u)
  {
  }

  /** The request reaches the state in which it revokes all of its user's sessions. */
  predicate Alarms(s: State, steps: seq<Step>, r: ReqId)
    decreases steps
  {
    (r in s.requests && s.requests[r].Revoking?) || (steps != [] && Alarms(Next(s, steps[0]), steps[1..], r))
  }

  lemma {:induction false} UnalarmedNeverAlarms(s: State, steps: seq<Step>, r: ReqId, h: Hash, u: Uid)
    requires Unalarmed(s, r, h, u)
    ensures !Alarms(s, steps, r) && Unalarmed(Run(s, steps), r, h, u)
    decreases steps
  {
    if steps != [] {
      StepStaysUnalarmed(s, steps[0], r, h, u);
      UnalarmedNeverAlarms(Next(s, steps[0]), steps[1..], r, h, u);
    }
  }

  /** How often the session under this hash has been consumed or revoked. */
  function Spent(s: State, h: Hash): nat { s.consumed[h] + s.revoked[h] }

  /** Exactly when the use of a token raises the reuse alarm, in any interleaving: from a state in which the
      user's session is live, after any steps that do not reissue its hash, a request that looks it up comes
      to revoke all of the user's sessions if and only if the session was consumed or revoked before the lookup. */
  lemma {:induction false} ReuseDetectedIff(s: State, before: seq<Step>, r: ReqId, h: Hash, u: Uid, after: seq<Step>)
    requires Balanced(s, h) && h in s.live && s.live[h] == u
    requires NoReissue(before, h) && r !in Run(s, before).requests
    ensures var m := Run(s, before);
            Alarms(Next(m, Find(r, h, u)), after, r) <==> Spent(m, h) > Spent(s, h)
  {
    LiveUntilSpent(s, before, h, u);
    RunKeepsBalance(s, before, h);
    var m := Run(s, before);
    if h in m.live { UnalarmedNeverAlarms(Next(m, Find(r, h, u)), after, r, h, u); }
  }

  predicate By(step: Step, r: ReqId) { !step.Login? && !step.Logout? && !step.LogoutAll? && step.req == r }

  /** The live sessions that the steps of these two requests take away. */
  function LostTo(s: State, steps: seq<Step>, r: ReqId, q: ReqId): set<Hash>
    decreases steps
  {
    if steps == [] then {}
    else
      var d := Next(s, steps[0]);
      (if By(steps[0], r) || By(steps[0], q) then s.live.Keys - d.live.Keys else {}) + LostTo(d, steps[1..], r, q)
  }

  lemma StepLosesOnly(s: State, step: Step, r: ReqId, h: Hash, u: Uid)
    requires Unalarmed(s, r, h, u) && By(step, r)
    ensures s.live.Keys - Next(s, step).live.Keys <= {h}
  {
  }

  lemma {:induction false} OverlappersLoseOnly(s: State, steps: seq<Step>, r: ReqId, q: ReqId, h: Hash, u: Uid)
    requires Unalarmed(s, r, h, u) && Unalarmed(s, q, h, u)
    ensures LostTo(s, steps, r, q) <= {h}
    decreases steps
  {
    if steps != [] {
      StepStaysUnalarmed(s, steps[0], r, h, u);
      StepStaysUnalarmed(s, steps[0], q, h, u);
      if By(steps[0], r) { StepLosesOnly(s, steps[0], r, h, u); }
      if By(steps[0], q) { StepLosesOnly(s, steps[0], q, h, u); }
      OverlappersLoseOnly(Next(s, steps[0]), steps[1..], r, q, h, u);
    }
  }

  predicate PastDelete(s: State, r: ReqId) { r in s.requests && (s.requests[r].Rotating? || s.requests[r].Succeeded?) }

  /** One of the two still looks for the session, or it is gone. */
  predicate AtMostOnePast(s: State, r: ReqId, q: ReqId, h: Hash) {
    && !(PastDelete(s, r) && PastDelete(s, q))
    && (PastDelete(s, r) || PastDelete(s, q) ==> h !in s.live)
  }

  lemma StepKeepsOnePast(s: State, step: Step, r: ReqId, q: ReqId, h: Hash, u: Uid)
    requires r != q && Unalarmed(s, r, h, u) && Unalarmed(s, q, h, u) && AtMostOnePast(s, r, q, h)
    requires !Reissues(step, h)
    ensures AtMostOnePast(Next(s, step), r, q, h)
  {
  }

  lemma {:induction false} RunKeepsOnePast(s: State, steps: seq<Step>, r: ReqId, q: ReqId, h: Hash, u: Uid)
    requires r != q && Unalarmed(s, r, h, u) && Unalarmed(s, q, h, u) && AtMostOnePast(s, r, q, h)
    requires NoReissue(steps, h)
    ensures AtMostOnePast(Run(s, steps), r, q, h)
    decreases steps
  {
    if steps != [] {
      assert steps[0] in steps;
      assert forall step | step in steps[1..] :: step in steps;
      StepKeepsOnePast(s, steps[0], r, q, h, u);
      StepStaysUnalarmed(s, steps[0], r, h, u);
      StepStaysUnalarmed(s, steps[0], q, h, u);
      RunKeepsOnePast(Next(s, steps[0]), steps[1..], r, q, h, u);
    }
  }

  /** Two uses of one token that both looked the session up while it was live: whatever happens afterwards
      neither raises the alarm, neither costs the user any other session, and unless the hash is issued
      again at most one of them gets new tokens. */
  lemma {:induction false} OverlappingUsesGoUnnoticed(s: State, r: ReqId, q: ReqId, h: Hash, u: Uid, steps: seq<Step>)
    requires r != q && r in s.requests && q in s.requests
    requires s.requests[r] == Found(h, u, u) && s.requests[q] == Found(h, u, u)
    ensures !Alarms(s, steps, r) && !Alarms(s, steps, q)
    ensures LostTo(s, steps, r, q) <= {h}
    ensures NoReissue(steps, h) ==> !(PastDelete(Run(s, steps), r) && PastDelete(Run(s, steps), q))
  {
    UnalarmedNeverAlarms(s, steps, r, h, u);
    UnalarmedNeverAlarms(s, steps, q, h, u);
    OverlappersLoseOnly(s, steps, r, q, h, u);
    if NoReissue(steps, h) { RunKeepsOnePast(s, steps, r, q, h, u); }
  }

  lemma RunFirst(s: State, step: Step, rest: seq<Step>)
    ensures Run(s, [step] + rest) == Run(Next(s, step), rest)
  {
    assert ([step] + rest)[1..] == rest;
  }

  lemma RunThree(s: State, a: Step, b: Step, c: Step, rest: seq<Step>)
    ensures Run(s, [a] + ([b] + ([c] + rest))) == Run(Next(Next(Next(s, a), b), c), rest)
  {
    hide Next, Run;
    RunFirst(s, a, [b] + ([c] + rest));
    RunFirst(Next(s, a), b, [c] + rest);
    RunFirst(Next(Next(s, a), b), c, rest);
  }

  /** It happens: user 7 logs in, two refreshes of the token look its session up, one gets new tokens and the
      other fails, and the user's new session lives on. */
  lemma OverlappingUsesHappen() returns (steps: seq<Step>)
    ensures var s := Run(INITIAL, steps);
            && s.requests == map[0 := Succeeded(1), 1 := Rejected] && s.live == map[2 := 7]
            && s.revoked == multiset{}
  {
    var deletes := [Delete(0)] + ([Delete(1)] + ([Create(0, 2)] + []));
    steps := [Login(1, 7)] + ([Find(0, 1, 7)] + ([Find(1, 1, 7)] + deletes));
    RunThree(INITIAL, Login(1, 7), Find(0, 1, 7), Find(1, 1, 7), deletes);
    var found := Next(Next(Next(INITIAL, Login(1, 7)), Find(0, 1, 7)), Find(1, 1, 7));
    RunThree(found, Delete(0), Delete(1), Create(0, 2), []);
    assert found.live == map[1 := 7];
    assert found.requests == map[0 := Found(1, 7, 7), 1 := Found(1, 7, 7)];
    var end := Next(Next(Next(found, Delete(0)), Delete(1)), Create(0, 2));
    assert Run(end, []) == end;
  }

  // ---------------------------------------------------------------- logging out

  /** Logging out ends the one session, or all of the user's, and nobody else's; the token then only raises
      the alarm. */
  lemma LogoutEndsSessions(s: State, h: Hash, u: Uid, r: ReqId, claimed: Uid)
    requires r !in s.requests
    ensures Next(s, Logout(h)).live == s.live - {h}
    ensures Next(s, LogoutAll(u)).live == s.live - OwnedBy(s.live, u) && OwnedBy(Next(s, LogoutAll(u)).live, u) == {}
    ensures Next(Next(s, Logout(h)), Find(r, h, claimed)).requests[r] == Revoking(claimed)
  {
  }

  /** All the steps a refresh can take, with nothing in between; those that do not apply change nothing. */
  function Undisturbed(s: State, r: ReqId, h: Hash, u: Uid, next: Hash): State {
    Next(Next(Next(Next(s, Find(r, h, u)), Delete(r)), Revoke(r)), Create(r, next))
  }

  lemma UndisturbedReuse(s: State, r: ReqId, h: Hash, u: Uid, next: Hash)
    requires r !in s.requests && h !in s.live
    ensures var d := Undisturbed(s, r, h, u, next);
            d.requests[r].Rejected? && d.live == s.live - OwnedBy(s.live, u)
  {
    var found := Next(s, Find(r, h, u));
    assert found.requests[r] == Revoking(u) && Next(found, Delete(r)) == found;
    var revoked := Next(found, Revoke(r));
    assert revoked.requests[r] == Rejected && Next(revoked, Create(r, next)) == revoked;
  }

  lemma UndisturbedMismatch(s: State, r: ReqId, h: Hash, u: Uid, next: Hash)
    requires r !in s.requests && h in s.live && s.live[h] != u
    ensures var d := Undisturbed(s, r, h, u, next);
            d.requests[r].Rejected? && d.live == s.live - {h} - OwnedBy(s.live - {h}, u)
  {
    var found := Next(s, Find(r, h, u));
    var deleted := Next(found, Delete(r));
    assert deleted.requests[r] == Revoking(u) && deleted.live == s.live - {h};
    var revoked := Next(deleted, Revoke(r));
    assert revoked.requests[r] == Rejected && Next(revoked, Create(r, next)) == revoked;
  }

  lemma UndisturbedRotation(s: State, r: ReqId, h: Hash, u: Uid, next: Hash)
    requires r !in s.requests && h in s.live && s.live[h] == u
    ensures var d := Undisturbed(s, r, h, u, next);
            && r in d.requests && (d.requests[r] == Succeeded(h) <==> next !in s.live - {h})
            && d.live == if next !in s.live - {h} then (s.live - {h})[next := u] else s.live - {h}
  {
    var found := Next(s, Find(r, h, u));
    var deleted := Next(found, Delete(r));
    assert deleted.requests[r] == Rotating(h, u) && deleted.live == s.live - {h};
    assert Next(deleted, Revoke(r)) == deleted;
  }

  /** A refresh whose steps nothing interrupts leaves the sessions as the whole refresh does, and succeeds
      exactly when it does. */
  lemma UndisturbedRefresh(s: State, r: ReqId, h: Hash, u: Uid, next: Hash)
    requires r !in s.requests
    ensures var d := Undisturbed(s, r, h, u, next);
            && (r in d.requests && d.requests[r] == Succeeded(h) <==>
                h in s.live && s.live[h] == u && next !in s.live - {h})
            && d.live == (if h !in s.live then s.live - OwnedBy(s.live, u)
                          else if s.live[h] != u then s.live - {h} - OwnedBy(s.live - {h}, u)
                          else if next !in s.live - {h} then (s.live - {h})[next := u]
                          else s.live - {h})
  {
    hide Undisturbed;
    if h !in s.live {
      UndisturbedReuse(s, r, h, u, next);
    } else if s.live[h] != u {
      UndisturbedMismatch(s, r, h, u, next);
    } else {
      UndisturbedRotation(s, r, h, u, next);
    }
  }
}
