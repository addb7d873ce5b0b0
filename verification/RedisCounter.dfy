/** A Redis integer key with an optional expiry. An expired key reads as missing. */
module RedisCounter {
  import opened Common

  datatype Counter = Missing | Stored(val: int, expiresAt: Option<int>)

  function Visible(c: Counter, now: int): Counter {
    if c.Stored? && c.expiresAt.Some? && now > c.expiresAt.value then Missing else c
  }

  function Read(c: Counter, now: int): int {
    var v := Visible(c, now);
    if v.Stored? then v.val else 0
  }

  /** INCRBY: a missing key counts as zero and gets no expiry; an expiry already set is kept. */
  function Add(c: Counter, now: int, delta: int): Counter {
    var v := Visible(c, now);
    if v.Stored? then v.(val := v.val + delta) else Stored(delta, None)
  }

  /** EXPIRE and PEXPIRE on a visible key */
  function ExpireAt(c: Counter, at: int): Counter {
    if c.Stored? then c.(expiresAt := Some(at)) else c
  }

  class Redis {
    var now: int
    var counter: Counter

    constructor (start: int)
      ensures now == start && counter == Missing
    {
      now, counter := start, Missing;
    }

    method IncrBy(delta: int) returns (val: int)
      modifies this`counter
      ensures counter == Add(old(counter), now, delta) && val == Read(counter, now)
      ensures val == Read(old(counter), now) + delta
    {
      if counter.Missing? || (counter.expiresAt.Some? && now > counter.expiresAt.value) {
        counter := Stored(delta, None);
      } else {
        counter := counter.(val := counter.val + delta);
      }
      val := counter.val;
    }

    method Expire(ttl: int)
      requires counter.Stored?
      modifies this`counter
      ensures counter == ExpireAt(old(counter), now + ttl)
    {
      counter := counter.(expiresAt := Some(now + ttl));
    }
  }
}
