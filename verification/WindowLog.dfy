/**
 Timestamped members kept in a Redis sorted set that is trimmed as time passes, compared with the full
 history of everything ever added. Shared by the sliding-window limiter and the circuit breaker.
 */
module WindowLog {
  import opened Common

  type Time = int

  /** A member is its score and a suffix that tells members of the same moment apart. */
  datatype Member = Member(at: Time, suffix: nat)

  type Log = set<Member>

  /** A sorted set under one key; `expiresAt` is the key's TTL. An expired key reads as empty. */
  datatype Zset = Zset(members: Log, expiresAt: Option<Time>)

  const EMPTY := Zset({}, None)

  function Visible(z: Zset, now: Time): Log {
    if z.expiresAt.Some? && now > z.expiresAt.value then {} else z.members
  }

  /** What ZREMRANGEBYSCORE -inf cut leaves: the members in the half-open window (cut, ...]. */
  function After(log: Log, cut: Time): Log { set m | m in log && m.at > cut }

  predicate NothingAfter(log: Log, now: Time) { forall m | m in log :: m.at <= now }

  /** The kept set and the history agree on everything inside the window that ends now. */
  predicate Tracks(z: Zset, history: Log, now: Time, width: int) {
    && After(Visible(z, now), now - width) == After(history, now - width)
    && NothingAfter(history, now)
    && z.members <= history
    && (forall m | m in z.members :: z.expiresAt.Some? && m.at + width <= z.expiresAt.value)
  }

  /** Time passing, and the key expiring while it does, changes nothing inside the window. */
  lemma TracksLater(z: Zset, history: Log, now: Time, width: int, later: Time)
    requires Tracks(z, history, now, width) && now <= later && width >= 0
    ensures Tracks(z, history, later, width)
  {
    assert After(After(Visible(z, now), now - width), later - width) == After(Visible(z, now), later - width);
    assert After(After(history, now - width), later - width) == After(history, later - width);
  }

  /** Hence the window can be counted on either. */
  lemma SameCount(z: Zset, history: Log, before: Time, now: Time, width: int)
    requires width > 0 && before <= now && Tracks(z, history, before, width)
    ensures |After(Visible(z, now), now - width)| == |After(history, now - width)|
  {
    TracksLater(z, history, before, width, now);
  }

  lemma TracksPast(z: Zset, history: Log, before: Time, now: Time, width: int)
    requires Tracks(z, history, before, width) && before <= now
    ensures NothingAfter(history, now)
  {
  }

  /** Trimming to the current window keeps the agreement. */
  lemma TracksTrimmed(z: Zset, history: Log, now: Time, width: int)
    requires Tracks(z, history, now, width) && width >= 0
    ensures Tracks(Zset(After(Visible(z, now), now - width), z.expiresAt), history, now, width)
  {
    var kept := After(Visible(z, now), now - width);
    assert After(kept, now - width) == kept;
  }

  /** So does adding the present moment to both, with an expiry at least a window away. */
  lemma TracksAdded(z: Zset, history: Log, now: Time, width: int, suffix: nat, expiresAt: Time)
    requires Tracks(z, history, now, width) && width > 0
    requires expiresAt >= now + width
    ensures var m := Member(now, suffix);
            Tracks(Zset(After(Visible(z, now), now - width) + {m}, Some(expiresAt)), history + {m}, now, width)
  {
    var m := Member(now, suffix);
    var kept := After(Visible(z, now), now - width);
    assert After(kept + {m}, now - width) == kept + {m} == After(history + {m}, now - width);
  }

  lemma Subset(a: Log, b: Log)
    requires a <= b
    ensures |a| <= |b|
  {
    assert b == a + (b - a);
  }
}
