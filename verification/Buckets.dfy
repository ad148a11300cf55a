/** The one-second token bucket and the bounded maps that hold one bucket per source. The bound, 65,536
    in the relay, is a parameter of everything that follows. */
module Buckets {
  import opened Net

  function WindowOf(ms: U64): U64 {
    ms / 1000
  }

  datatype TokenBucket = TokenBucket(tokens: U32, window: U64, lastSeen: U64) {

    static function New(capacity: U32, now: U64): TokenBucket {
      TokenBucket(capacity, WindowOf(now), now)
    }

    /** The tokens a caller at `now` would find, a new window refilling to `capacity`. */
    function Left(capacity: U32, w: U64): U32 {
      if window != w then capacity else tokens
    }

    function TrySpend(capacity: U32, now: U64): (r: (TokenBucket, bool))
      ensures r.1 <==> Left(capacity, WindowOf(now)) > 0
      ensures r.0.window == WindowOf(now) && r.0.lastSeen == now
      ensures r.0.tokens == Left(capacity, WindowOf(now)) - (if r.1 then 1 else 0)
    {
      var w := WindowOf(now);
      var refilled := if w != window then TokenBucket(capacity, w, lastSeen) else this;
      var touched := refilled.(lastSeen := now);
      if touched.tokens > 0 then (touched.(tokens := touched.tokens - 1), true) else (touched, false)
    }
  }

  ghost predicate IsLeast<K, V>(m: map<K, V>, victim: K, rank: V -> nat) {
    victim in m && forall k | k in m :: rank(m[victim]) <= rank(m[k])
  }

  /** A least entry of a non-empty map, by one pass over its entries in any order. */
  method LeastKey<K(!new), V(!new)>(m: map<K, V>, rank: V -> nat) returns (victim: K)
    requires |m| > 0
    ensures IsLeast(m, victim, rank)
  {
    victim :| victim in m;
    var rest := m.Keys - {victim};
    while rest != {}
      invariant victim in m && rest <= m.Keys
      invariant forall k | k in m && k !in rest :: rank(m[victim]) <= rank(m[k])
    {
      var k :| k in rest;
      if rank(m[k]) < rank(m[victim]) {
        victim := k;
      }
      rest := rest - {k};
    }
  }

  /** Room for `key`: nothing goes unless it is new and the map is full, and then exactly one entry of
      least rank does. Which of several least entries goes is left open. */
  ghost predicate MadeRoom<K(!new), V(!new)>(
      before: map<K, V>, kept: map<K, V>, key: K, dropped: Option<K>, max: nat, rank: V -> nat)
  {
    if dropped.None? then kept == before && (key in before || |before| < max)
    else key !in before && |before| >= max && IsLeast(before, dropped.value, rank) && kept == before - {dropped.value}
  }

  method EvictLeastIfFull<K(!new), V(!new)>(m: map<K, V>, key: K, max: nat, rank: V -> nat)
    returns (kept: map<K, V>, ghost dropped: Option<K>)
    requires max >= 1
    ensures MadeRoom(m, kept, key, dropped, max, rank)
    ensures exists gone :: MadeRoom(m, kept, key, gone, max, rank)
  {
    kept, dropped := m, None;
    if key !in m && |m| >= max {
      var victim := LeastKey(m, rank);
      kept, dropped := m - {victim}, Some(victim);
    }
    assert MadeRoom(m, kept, key, dropped, max, rank);
  }
}
