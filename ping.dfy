/** The latency prober's cache logic (`get_ping`), on one user's cache.

    The clock is the parameter `now` (seconds, as `time.time()` gives them). The TCP
    connection test is the parameter `net`: the latency, in tenths of a millisecond,
    the network would show for an endpoint, or `None` when the connection fails. */
module Ping {

  import opened Wrappers
  import opened Text
  import opened Address

  /** Seconds a cached measurement stays usable. */
  const PingTtl: real := 600.0

  /** Characters of a descriptor that make up its cache key. */
  const FingerprintLength: nat := 100

  /** The cache key `config[:100]`: descriptors that agree on their first 100
      characters share one entry. */
  function Fingerprint(config: string): (k: string)
    ensures |k| == if |config| < FingerprintLength then |config| else FingerprintLength
    ensures k == config[..|k|]
  {
    if |config| <= FingerprintLength then config else config[..FingerprintLength]
  }

  /** One cache entry: when the lookup that produced it began, and what it found. */
  datatype ProbeResult = ProbeResult(stamp: real, latency: Option<nat>)

  type UserCache = map<string, ProbeResult>

  type Network = Endpoint -> Option<nat>

  /** The cache holds an entry for the descriptor's key that is younger than the TTL. */
  predicate FreshHit(cache: UserCache, config: string, now: real) {
    var key := Fingerprint(config);
    key in cache && now - cache[key].stamp < PingTtl
  }

  /** The outcome of one `get_ping`: the latency reported, the user's cache after it,
      and whether a TCP connection was attempted. */
  datatype Probe = Probe(latency: Option<nat>, cache: UserCache, attempted: bool)

  /** `get_ping` on one user's cache: a fresh entry is returned as it is; otherwise the
      address is extracted, measured when there is one, and stored under the key with
      the time the lookup began. */
  function ProbeStep(cache: UserCache, config: string, now: real, decode: Decoder, net: Network): (p: Probe)
    // a fresh entry answers without a connection and without any change
    ensures FreshHit(cache, config, now) ==>
              p.cache == cache && p.latency == cache[Fingerprint(config)].latency && !p.attempted
    // a stale or missing entry is replaced by one stamped with the lookup time
    ensures !FreshHit(cache, config, now) ==>
              p.cache == cache[Fingerprint(config) := ProbeResult(now, p.latency)]
    // a connection is attempted exactly when the entry is not fresh and there is an address
    ensures p.attempted <==> !FreshHit(cache, config, now) && ParseServerAddress(config, decode).Some?
    ensures !FreshHit(cache, config, now) && p.attempted ==>
              p.latency == net(ParseServerAddress(config, decode).value)
    ensures !p.attempted && !FreshHit(cache, config, now) ==> p.latency == None
    // afterwards the answer is in the cache and fresh
    ensures FreshHit(p.cache, config, now) && p.cache[Fingerprint(config)].latency == p.latency
  {
    var key := Fingerprint(config);
    if FreshHit(cache, config, now) then Probe(cache[key].latency, cache, false)
    else
      match ParseServerAddress(config, decode)
      case None => Probe(None, cache[key := ProbeResult(now, None)], false)
      case Some(e) =>
        var latency := net(e);
        Probe(latency, cache[key := ProbeResult(now, latency)], true)
  }

  /** A lookup that measures is stamped with its own start time, so asking again within
      the TTL of that moment opens no connection and reports the first answer, whatever
      the network does in between. */
  lemma RepeatWithinTtl(cache: UserCache, config: string, t1: real, t2: real,
                        decode: Decoder, net1: Network, net2: Network)
    requires !FreshHit(cache, config, t1)
    requires t1 <= t2 < t1 + PingTtl
    ensures var p1 := ProbeStep(cache, config, t1, decode, net1);
            var p2 := ProbeStep(p1.cache, config, t2, decode, net2);
            !p2.attempted && p2.latency == p1.latency && p2.cache == p1.cache
  {
    var p1 := ProbeStep(cache, config, t1, decode, net1);
    assert p1.cache[Fingerprint(config)].stamp == t1;
    assert FreshHit(p1.cache, config, t2);
  }

  /** Two descriptors that agree on their first 100 characters share an entry: the
      second is answered with the first one's latency, without a connection, even when
      its own address differs. */
  lemma SharedFingerprint(cache: UserCache, c1: string, c2: string, now: real,
                          decode: Decoder, net: Network)
    requires Fingerprint(c1) == Fingerprint(c2)
    ensures var p1 := ProbeStep(cache, c1, now, decode, net);
            var p2 := ProbeStep(p1.cache, c2, now, decode, net);
            !p2.attempted && p2.latency == p1.latency
  {
  }

  /** An entry at least as old as the TTL is measured again when there is an address. */
  lemma StaleEntryRemeasured(cache: UserCache, config: string, now: real, decode: Decoder, net: Network)
    requires Fingerprint(config) in cache && now - cache[Fingerprint(config)].stamp >= PingTtl
    requires ParseServerAddress(config, decode).Some?
    ensures ProbeStep(cache, config, now, decode, net).attempted
  {
  }

  /** The answers of a probing pass over a list of descriptors, the cache after it, and
      the number of connections attempted. */
  datatype Pass = Pass(latencies: seq<Option<nat>>, cache: UserCache, attempts: nat)

  /** The keys a list of descriptors maps to. */
  function Fingerprints(configs: seq<string>): set<string> {
    set i | 0 <= i < |configs| :: Fingerprint(configs[i])
  }

  /** `get_ping` for each descriptor in turn. */
  function ProbeAll(cache: UserCache, configs: seq<string>, now: real, decode: Decoder, net: Network): (r: Pass)
    ensures |r.latencies| == |configs|
    ensures r.attempts <= |configs|
  {
    if configs == [] then Pass([], cache, 0)
    else
      var prev := ProbeAll(cache, configs[..|configs| - 1], now, decode, net);
      var p := ProbeStep(prev.cache, configs[|configs| - 1], now, decode, net);
      Pass(prev.latencies + [p.latency], p.cache, prev.attempts + if p.attempted then 1 else 0)
  }

  /** Each latency of a pass is what the cache holds for that descriptor afterwards. */
  predicate Recorded(latencies: seq<Option<nat>>, cache: UserCache, configs: seq<string>, now: real) {
    |latencies| == |configs|
    && forall i :: 0 <= i < |configs| ==>
         FreshHit(cache, configs[i], now) && cache[Fingerprint(configs[i])].latency == latencies[i]
  }

  /** After a pass every descriptor has a fresh entry, holding the answer reported for it. */
  lemma {:induction false} ProbeAllRecorded(cache: UserCache, configs: seq<string>, now: real, decode: Decoder, net: Network)
    ensures var r := ProbeAll(cache, configs, now, decode, net);
            Recorded(r.latencies, r.cache, configs, now)
  {
    if configs != [] {
      var init := configs[..|configs| - 1];
      ProbeAllRecorded(cache, init, now, decode, net);
      assert configs == init + [configs[|configs| - 1]];
      PassStep(ProbeAll(cache, init, now, decode, net), init, configs[|configs| - 1], now, decode, net);
    }
  }

  /** A pass adds the keys of its descriptors and leaves every other entry untouched. */
  lemma {:induction false} ProbeAllFrame(cache: UserCache, configs: seq<string>, now: real, decode: Decoder, net: Network)
    ensures var r := ProbeAll(cache, configs, now, decode, net);
            r.cache.Keys == cache.Keys + Fingerprints(configs)
            && forall k :: k in cache && k !in Fingerprints(configs) ==> r.cache[k] == cache[k]
  {
    if configs != [] {
      var init := configs[..|configs| - 1];
      var last := configs[|configs| - 1];
      var prev := ProbeAll(cache, init, now, decode, net);
      var step := ProbeStep(prev.cache, last, now, decode, net);
      assert ProbeAll(cache, configs, now, decode, net).cache == step.cache;
      ProbeAllFrame(cache, init, now, decode, net);
      StepFrame(prev.cache, last, now, decode, net);
      FingerprintsLast(configs);
    }
  }

  /** The keys of a list are the keys of all but its last descriptor, and that one's. */
  lemma FingerprintsLast(configs: seq<string>)
    requires configs != []
    ensures Fingerprints(configs)
            == Fingerprints(configs[..|configs| - 1]) + {Fingerprint(configs[|configs| - 1])}
  {
    var init := configs[..|configs| - 1];
    forall k | k in Fingerprints(configs)
      ensures k in Fingerprints(init) + {Fingerprint(configs[|configs| - 1])}
    {
      var i :| 0 <= i < |configs| && k == Fingerprint(configs[i]);
      if i < |init| {
        assert init[i] == configs[i];
      }
    }
    forall k | k in Fingerprints(init) ensures k in Fingerprints(configs) {
      var i :| 0 <= i < |init| && k == Fingerprint(init[i]);
      assert configs[i] == init[i];
    }
  }

  lemma PassStep(prev: Pass, init: seq<string>, last: string, now: real, decode: Decoder, net: Network)
    requires Recorded(prev.latencies, prev.cache, init, now)
    ensures var p := ProbeStep(prev.cache, last, now, decode, net);
            Recorded(prev.latencies + [p.latency], p.cache, init + [last], now)
  {
    var p := ProbeStep(prev.cache, last, now, decode, net);
    var latencies := prev.latencies + [p.latency];
    var configs := init + [last];
    forall i | 0 <= i < |configs|
      ensures FreshHit(p.cache, configs[i], now) && p.cache[Fingerprint(configs[i])].latency == latencies[i]
    {
      if i < |init| {
        assert configs[i] == init[i] && latencies[i] == prev.latencies[i];
        StepKeepsFresh(prev.cache, last, init[i], now, decode, net);
      } else {
        assert configs[i] == last && latencies[i] == p.latency;
      }
    }
  }

  /** A step adds the descriptor's key and changes no other entry. */
  lemma StepFrame(cache: UserCache, config: string, now: real, decode: Decoder, net: Network)
    ensures var p := ProbeStep(cache, config, now, decode, net);
            p.cache.Keys == cache.Keys + {Fingerprint(config)}
            && forall k :: k in cache && k != Fingerprint(config) ==> p.cache[k] == cache[k]
  {
  }

  /** A step leaves every entry that is already fresh as it is. */
  lemma StepKeepsFresh(cache: UserCache, config: string, other: string, now: real, decode: Decoder, net: Network)
    requires FreshHit(cache, other, now)
    ensures var p := ProbeStep(cache, config, now, decode, net);
            FreshHit(p.cache, other, now) && p.cache[Fingerprint(other)] == cache[Fingerprint(other)]
  {
    if Fingerprint(other) == Fingerprint(config) {
      assert FreshHit(cache, config, now);
    }
  }
}
