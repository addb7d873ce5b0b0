/** The sliding-window rate limiter: one Lua script over a sorted set of admission times. */
module SlidingWindow {
  import opened Common
  import opened WindowLog

  datatype Decision = Decision(allowed: bool, remaining: int)

  /** ceil(windowMs / 1000) + 1, in milliseconds */
  function TtlMs(windowMs: int): (ttl: int)
    ensures windowMs + 1_000 <= ttl < windowMs + 2_000 && ttl % 1_000 == 0
  {
    ((windowMs + 999) / 1000 + 1) * 1000
  }

  /** SLIDING_WINDOW_SCRIPT; `suffix` is its random number. */
  function Script(z: Zset, now: Time, limit: int, windowMs: int, suffix: nat): (Zset, Decision) {
    var kept := After(Visible(z, now), now - windowMs);
    if |kept| < limit
    then (Zset(kept + {Member(now, suffix)}, Some(now + TtlMs(windowMs))), Decision(true, limit - |kept| - 1))
    else (Zset(kept, z.expiresAt), Decision(false, 0))
  }

  class SlidingWindowRateLimiter {
    var now: Time
    var zset: Zset

    constructor (start: Time)
      ensures now == start && zset == EMPTY
    {
      now, zset := start, EMPTY;
    }

    method Check(limit: int, windowMs: int, suffix: nat) returns (d: Decision)
      modifies this`zset
      ensures (zset, d) == Script(old(zset), now, limit, windowMs, suffix)
    {
      zset := zset.(members := After(Visible(zset, now), now - windowMs));
      var count := |zset.members|;
      if count < limit {
        zset := Zset(zset.members + {Member(now, suffix)}, Some(now + TtlMs(windowMs)));
        return Decision(true, limit - count - 1);
      }
      return Decision(false, 0);
    }
  }

  /** One key over time: the stored set beside the full history of admitted requests. Suffixes are taken
      from a counter, so members are unique. */
  datatype State = State(now: Time, zset: Zset, admitted: Log, next: nat)

  const INITIAL := State(0, EMPTY, {}, 0)

  /** A check after some time has passed. The limit may differ from check to check: it is the caller's tier. */
  datatype Check = Check(elapsed: nat, limit: int)

  function Decide(s: State, c: Check, windowMs: int): Decision {
    Script(s.zset, s.now + c.elapsed, c.limit, windowMs, s.next).1
  }

  function Next(s: State, c: Check, windowMs: int): State {
    var now := s.now + c.elapsed;
    State(now, Script(s.zset, now, c.limit, windowMs, s.next).0,
          if Decide(s, c, windowMs).allowed then s.admitted + {Member(now, s.next)} else s.admitted, s.next + 1)
  }

  function Run(s: State, checks: seq<Check>, windowMs: int): State
    decreases checks
  {
    if checks == [] then s else Run(Next(s, checks[0], windowMs), checks[1..], windowMs)
  }

  /** The requests admitted up to and including `m`, as far back as the window that ends with it. */
  function WindowOf(admitted: Log, m: Member, windowMs: int): Log {
    set x | x in admitted && x.suffix <= m.suffix && x.at > m.at - windowMs
  }

  /** The history by itself: suffixes and times rise together, and no window of an admission is overfull. */
  predicate Ordered(admitted: Log, next: nat, windowMs: int, max: int) {
    && (forall m | m in admitted :: m.suffix < next && |WindowOf(admitted, m, windowMs)| <= max)
    && (forall x, y | x in admitted && y in admitted && x.suffix <= y.suffix :: x.at <= y.at)
  }

  lemma ScriptDecides(z: Zset, used: nat, now: Time, limit: int, windowMs: int, suffix: nat)
    requires |After(Visible(z, now), now - windowMs)| == used
    ensures Script(z, now, limit, windowMs, suffix).1
            == if used < limit then Decision(true, limit - used - 1) else Decision(false, 0)
  {
  }

  /** What one check decides, in terms of the full history. */
  lemma CheckDecides(s: State, c: Check, windowMs: int)
    requires windowMs > 0 && Tracks(s.zset, s.admitted, s.now, windowMs)
    ensures var used := |After(s.admitted, s.now + c.elapsed - windowMs)|;
            Decide(s, c, windowMs) == if used < c.limit then Decision(true, c.limit - used - 1) else Decision(false, 0)
  {
    hide Tracks, After, Visible;
    var now := s.now + c.elapsed;
    SameCount(s.zset, s.admitted, s.now, now, windowMs);
    ScriptDecides(s.zset, |After(s.admitted, now - windowMs)|, now, c.limit, windowMs, s.next);
  }

  lemma AdmissionKeepsOrdered(admitted: Log, now: Time, next: nat, windowMs: int, max: int)
    requires windowMs > 0 && |After(admitted, now - windowMs)| < max
    requires Ordered(admitted, next, windowMs, max) && NothingAfter(admitted, now)
    ensures Ordered(admitted + {Member(now, next)}, next + 1, windowMs, max)
  {
    var latest := Member(now, next);
    var all := admitted + {latest};
    forall m | m in all ensures m.suffix < next + 1 && |WindowOf(all, m, windowMs)| <= max {
      if m == latest {
        assert WindowOf(all, m, windowMs) == After(admitted, now - windowMs) + {latest};
      } else {
        assert WindowOf(all, m, windowMs) == WindowOf(admitted, m, windowMs);
      }
    }
  }

  lemma RefusalKeepsOrdered(admitted: Log, next: nat, windowMs: int, max: int)
    requires Ordered(admitted, next, windowMs, max)
    ensures Ordered(admitted, next + 1, windowMs, max)
  {
  }

  lemma ScriptTracks(z: Zset, history: Log, before: Time, now: Time, limit: int, windowMs: int, suffix: nat)
    requires windowMs > 0 && before <= now && Tracks(z, history, before, windowMs)
    ensures var (z', d) := Script(z, now, limit, windowMs, suffix);
            Tracks(z', if d.allowed then history + {Member(now, suffix)} else history, now, windowMs)
  {
    TracksLater(z, history, before, windowMs, now);
    TracksAdded(z, history, now, windowMs, suffix, now + TtlMs(windowMs));
    TracksTrimmed(z, history, now, windowMs);
  }

  lemma NextTracks(s: State, c: Check, windowMs: int)
    requires windowMs > 0 && Tracks(s.zset, s.admitted, s.now, windowMs)
    ensures var d := Next(s, c, windowMs); Tracks(d.zset, d.admitted, d.now, windowMs)
  {
    hide Tracks, Script;
    ScriptTracks(s.zset, s.admitted, s.now, s.now + c.elapsed, c.limit, windowMs, s.next);
  }

  lemma NextOrdered(s: State, c: Check, windowMs: int, max: int)
    requires windowMs > 0 && Tracks(s.zset, s.admitted, s.now, windowMs) && c.limit <= max
    requires Ordered(s.admitted, s.next, windowMs, max)
    ensures Ordered(Next(s, c, windowMs).admitted, s.next + 1, windowMs, max)
  {
    hide Tracks, After, Visible, NothingAfter, Ordered, Script;
    var now := s.now + c.elapsed;
    CheckDecides(s, c, windowMs);
    TracksPast(s.zset, s.admitted, s.now, now, windowMs);
    if |After(s.admitted, now - windowMs)| < c.limit {
      AdmissionKeepsOrdered(s.admitted, now, s.next, windowMs, max);
    } else {
      RefusalKeepsOrdered(s.admitted, s.next, windowMs, max);
    }
  }

  predicate Caps(checks: seq<Check>, max: int) { checks == [] || (checks[0].limit <= max && Caps(checks[1..], max)) }

  lemma {:induction false} RunTracks(s: State, checks: seq<Check>, windowMs: int)
    requires windowMs > 0 && Tracks(s.zset, s.admitted, s.now, windowMs)
    ensures var d := Run(s, checks, windowMs); Tracks(d.zset, d.admitted, d.now, windowMs)
    decreases checks
  {
    if checks != [] {
      NextTracks(s, checks[0], windowMs);
      RunTracks(Next(s, checks[0], windowMs), checks[1..], windowMs);
    }
  }

  lemma {:induction false} RunOrdered(s: State, checks: seq<Check>, windowMs: int, max: int)
    requires windowMs > 0 && Tracks(s.zset, s.admitted, s.now, windowMs) && Caps(checks, max)
    requires Ordered(s.admitted, s.next, windowMs, max)
    ensures Ordered(Run(s, checks, windowMs).admitted, Run(s, checks, windowMs).next, windowMs, max)
    decreases checks
  {
    if checks != [] {
      NextTracks(s, checks[0], windowMs);
      NextOrdered(s, checks[0], windowMs, max);
      RunOrdered(Next(s, checks[0], windowMs), checks[1..], windowMs, max);
    }
  }

  /** After any sequence of checks, the next one is admitted exactly when fewer than its limit were
      admitted in the window ending now, counted over the full history although old entries have been
      trimmed and the key may have expired; and it reports what is left of the limit. */
  lemma {:induction false} AdmittedIffRoom(checks: seq<Check>, next: Check, windowMs: int)
    requires windowMs > 0
    ensures var s := Run(INITIAL, checks, windowMs);
            var used := |After(s.admitted, s.now + next.elapsed - windowMs)|;
            Decide(s, next, windowMs)
            == if used < next.limit then Decision(true, next.limit - used - 1) else Decision(false, 0)
  {
    hide After;
    RunTracks(INITIAL, checks, windowMs);
    CheckDecides(Run(INITIAL, checks, windowMs), next, windowMs);
  }

  /** The admissions in the window (t - windowMs, t]. */
  function Window(admitted: Log, t: Time, windowMs: int): Log { set m | m in admitted && t - windowMs < m.at <= t }

  lemma {:induction false} LatestMember(log: Log) returns (last: Member)
    requires exists m :: m in log
    ensures last in log && forall m | m in log :: m.suffix <= last.suffix
    decreases log
  {
    last :| last in log;
    var rest := log - {last};
    if exists m :: m in rest {
      var other := LatestMember(rest);
      assert forall m | m in log :: m == last || m in rest;
      if other.suffix > last.suffix { last := other; }
    } else {
      assert forall m | m in log :: m == last || m in rest;
    }
  }

  /** No window of the given length, wherever it ends, holds more admissions than the largest limit. */
  lemma {:induction false} EveryWindowWithinLimit(checks: seq<Check>, windowMs: int, max: nat, t: Time)
    requires windowMs > 0 && Caps(checks, max)
    ensures |Window(Run(INITIAL, checks, windowMs).admitted, t, windowMs)| <= max
  {
    RunOrdered(INITIAL, checks, windowMs, max);
    var admitted := Run(INITIAL, checks, windowMs).admitted;
    var window := Window(admitted, t, windowMs);
    if exists m :: m in window {
      var last := LatestMember(window);
      Subset(window, WindowOf(admitted, last, windowMs));
    } else {
      assert window == {};
    }
  }

  /** The script itself does not make members unique: an admitted request is counted from then on if and
      only if its suffix was not drawn before in the same millisecond. */
  lemma AdmissionCountedIff(z: Zset, now: Time, limit: int, windowMs: int, suffix: nat)
    requires windowMs > 0 && |After(Visible(z, now), now - windowMs)| < limit
    ensures var (z', d) := Script(z, now, limit, windowMs, suffix);
            var before := |After(Visible(z, now), now - windowMs)|;
            var after := |After(Visible(z', now), now - windowMs)|;
            d.allowed && (after == before + 1 <==> Member(now, suffix) !in Visible(z, now))
            && (after == before <==> Member(now, suffix) in Visible(z, now))
  {
    var kept := After(Visible(z, now), now - windowMs);
    var m := Member(now, suffix);
    assert m in kept <==> m in Visible(z, now);
    assert After(kept + {m}, now - windowMs) == kept + {m};
    if m in kept { assert kept + {m} == kept; }
  }
}
