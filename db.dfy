/** The sorted-set client of db/redis_client.py: one sorted set per protocol
    under the key `prefix:protocol`, members are proxy addresses and scores
    their quality. A client whose connection failed has no server and answers
    every call with its default (`False`, `None`, `[]`, `0`, `{}`). */
module Db {
  import opened Wrappers
  import opened SortedSets
  import opened RedisStore
  import opened Settings

  // ---- the figures of get_stats ----

  /** The dictionary `get_stats` returns when connected. Its `by_score_range`
      part has five fixed keys; it is kept as the five counts in the order of
      `BucketLabels`. */
  datatype Stats = Stats(total: int, byProtocol: map<string, int>, byScoreRange: seq<int>)

  /** The keys of the `by_score_range` dictionary, in bucket order. */
  const BucketLabels: seq<string> := ["0-20", "21-40", "41-60", "61-80", "81-100"]

  /** The score bounds of bucket `b`; the first and the last bucket are open. */
  function BucketLow(b: nat): Bound
    requires b < 5
  {
    if b == 0 then Unbounded else At(20 * b + 1)
  }

  function BucketHigh(b: nat): Bound
    requires b < 5
  {
    if b == 4 then Unbounded else At(20 * b + 20)
  }

  /** The bucket the `if`/`elif` chain of `get_stats` sends a score to. */
  function BucketOf(score: int): (b: nat)
    ensures b < 5
  {
    if score <= 20 then 0
    else if score <= 40 then 1
    else if score <= 60 then 2
    else if score <= 80 then 3
    else 4
  }

  /** Every score lies in exactly one bucket: the one the chain picks. */
  lemma BucketExact(score: int, b: nat)
    requires b < 5
    ensures InRange(score, BucketLow(b), BucketHigh(b)) <==> BucketOf(score) == b
  {
  }

  /** The members of `z` in bucket `b`. */
  function InBucket(z: ZSet, b: nat): ZSet
    requires b < 5
  {
    Band(z, BucketLow(b), BucketHigh(b))
  }

  /** The five buckets of a set together hold each of its members once. */
  lemma {:induction false} BucketsCover(z: ZSet)
    ensures |InBucket(z, 0)| + |InBucket(z, 1)| + |InBucket(z, 2)| + |InBucket(z, 3)| + |InBucket(z, 4)| == |z|
    decreases |z|
  {
    if z != map[] {
      var m :| m in z;
      var z' := z - {m};
      BucketsCover(z');
      forall b | 0 <= b < 5
        ensures |InBucket(z, b)| == |InBucket(z', b)| + (if BucketOf(z[m]) == b then 1 else 0)
      {
        BandWithout(z, m, BucketLow(b), BucketHigh(b));
        BucketExact(z[m], b);
      }
    }
  }

  /** The number of members in bucket `b` across the listed protocols. */
  function BucketOver(st: Store, prefix: string, ps: seq<string>, b: nat): nat
    requires b < 5
  {
    if ps == [] then 0
    else BucketOver(st, prefix, ps[..|ps| - 1], b) + |InBucket(PoolIn(st, prefix, ps[|ps| - 1]), b)|
  }

  /** The `by_score_range` dictionary over the listed protocols. */
  function RangeCounts(st: Store, prefix: string, ps: seq<string>): (r: seq<int>)
    ensures |r| == 5
  {
    seq(5, b requires 0 <= b < 5 => BucketOver(st, prefix, ps, b))
  }

  /** The statistics of a store: the four protocols' sizes, their sum, and how
      many of their members fall in each bucket. */
  function StatsOf(st: Store, prefix: string): Stats {
    Stats(CountOver(st, prefix, Protocols), ProtocolCounts(st, prefix, Protocols), RangeCounts(st, prefix, Protocols))
  }

  /** Across any protocols, the five bucket counts add up to the member count. */
  lemma {:induction false} BucketsAddUp(st: Store, prefix: string, ps: seq<string>)
    ensures BucketOver(st, prefix, ps, 0) + BucketOver(st, prefix, ps, 1) + BucketOver(st, prefix, ps, 2)
      + BucketOver(st, prefix, ps, 3) + BucketOver(st, prefix, ps, 4) == CountOver(st, prefix, ps)
  {
    if ps != [] {
      BucketsAddUp(st, prefix, ps[..|ps| - 1]);
      BucketsCover(PoolIn(st, prefix, ps[|ps| - 1]));
    }
  }

  /** The figures `get_stats` reports agree: the total is the sum of the
      per-protocol counts and also the sum of the five bucket counts. */
  lemma StatsConsistent(st: Store, prefix: string)
    ensures var s := StatsOf(st, prefix);
      && "http" in s.byProtocol && "https" in s.byProtocol && "socks4" in s.byProtocol && "socks5" in s.byProtocol
      && s.total == s.byProtocol["http"] + s.byProtocol["https"] + s.byProtocol["socks4"] + s.byProtocol["socks5"]
      && s.total == s.byScoreRange[0] + s.byScoreRange[1] + s.byScoreRange[2] + s.byScoreRange[3] + s.byScoreRange[4]
  {
    StatsByProtocol(st, prefix);
    StatsByRange(st, prefix);
  }

  lemma StatsByProtocol(st: Store, prefix: string)
    ensures var s := StatsOf(st, prefix);
      && "http" in s.byProtocol && "https" in s.byProtocol && "socks4" in s.byProtocol && "socks5" in s.byProtocol
      && s.total == s.byProtocol["http"] + s.byProtocol["https"] + s.byProtocol["socks4"] + s.byProtocol["socks5"]
  {
    FourProtocolCounts(st, prefix);
  }

  lemma StatsByRange(st: Store, prefix: string)
    ensures var s := StatsOf(st, prefix);
      s.total == s.byScoreRange[0] + s.byScoreRange[1] + s.byScoreRange[2] + s.byScoreRange[3] + s.byScoreRange[4]
  {
    BucketsAddUp(st, prefix, Protocols);
  }

  /** One more protocol of `get_stats`'s loop. */
  lemma CountsStep(st: Store, prefix: string, ps: seq<string>, i: nat)
    requires i < |ps|
    ensures ps[..i + 1] == ps[..i] + [ps[i]]
    ensures CountOver(st, prefix, ps[..i + 1]) == CountOver(st, prefix, ps[..i]) + |PoolIn(st, prefix, ps[i])|
    ensures ProtocolCounts(st, prefix, ps[..i + 1]) == ProtocolCounts(st, prefix, ps[..i])[ps[i] := |PoolIn(st, prefix, ps[i])|]
  {
    assert ps[..i + 1][..i] == ps[..i];
  }

  /** Tallying one more protocol's listing extends the bucket counts to it. */
  lemma RangeStep(st: Store, prefix: string, ps: seq<string>, p: string, proxies: seq<Entry>, after: seq<int>)
    requires Listing(proxies, PoolIn(st, prefix, p))
    requires |after| == 5
    requires forall b :: 0 <= b < 5 ==>
      after[b] == RangeCounts(st, prefix, ps)[b] + |Within(proxies, BucketLow(b), BucketHigh(b))|
    ensures after == RangeCounts(st, prefix, ps + [p])
  {
    assert (ps + [p])[..|ps|] == ps;
    forall b | 0 <= b < 5 ensures after[b] == RangeCounts(st, prefix, ps + [p])[b] {
      WithinCount(proxies, PoolIn(st, prefix, p), BucketLow(b), BucketHigh(b));
    }
  }

  /** One more entry of a listing adds one to exactly its own bucket. */
  lemma WithinStep(s: seq<Entry>, j: nat, b: nat)
    requires j < |s| && b < 5
    ensures |Within(s[..j + 1], BucketLow(b), BucketHigh(b))|
      == |Within(s[..j], BucketLow(b), BucketHigh(b))| + (if BucketOf(s[j].score) == b then 1 else 0)
  {
    assert s[..j + 1][..j] == s[..j];
    BucketExact(s[j].score, b);
  }

  class RedisClient {
    /** `REDIS_KEY`. */
    const keyPrefix: string
    /** The server, or `null` when connecting failed. */
    const redis: Redis?

    /** `server` is what connecting produced: a server, or `null` after a failure. */
    constructor (server: Redis?)
      ensures keyPrefix == RedisKey && redis == server
    {
      keyPrefix := RedisKey;
      redis := server;
    }

    /** `_get_key`. */
    function Key(protocol: string): string {
      KeyOf(keyPrefix, protocol)
    }

    /** The partition of `protocol`; empty when disconnected. */
    function Pool(protocol: string): ZSet
      reads redis
    {
      if redis == null then map[] else redis.Get(Key(protocol))
    }

    /** `add_proxy`: insert with `score` only when the address is absent from
        the partition, and say whether it was inserted. */
    method AddProxy(proxy: string, protocol: string := "http", score: int := ScoreInit) returns (added: bool)
      modifies redis
      ensures redis == null ==> !added
      ensures redis != null ==> added == (proxy !in old(Pool(protocol)))
      ensures redis != null ==>
        redis.data == Bind(old(redis.data), Key(protocol), AddIfAbsent(old(Pool(protocol)), proxy, score))
    {
      if redis == null {
        return false;
      }
      var result := redis.ZAddNX(Key(protocol), proxy, score);
      added := result > 0;
    }

    /** `get_random_proxy`: a member of score at least 60 when there is one,
        otherwise any member, `None` for an empty partition. The choice among
        the candidates is arbitrary. */
    method GetRandomProxy(protocol: string := "http") returns (r: Option<string>)
      ensures r.None? <==> Pool(protocol) == map[]
      ensures r.Some? ==> r.value in Pool(protocol)
      ensures r.Some? && Band(Pool(protocol), At(60), Unbounded) != map[] ==>
        r.value in Band(Pool(protocol), At(60), Unbounded)
    {
      if redis == null {
        return None;
      }
      var key := Key(protocol);
      var high := redis.ZRevRangeByScore(key, Unbounded, At(60));
      ListingEmpty(high, Band(Pool(protocol), At(60), Unbounded));
      if high != [] {
        var i :| 0 <= i < |high|;
        return Some(high[i].member);
      }
      var all, full := redis.ZRevRange(key, 0, -1);
      RedisSliceAllAndHead(full);
      ListingEmpty(all, Pool(protocol));
      if all != [] {
        var i :| 0 <= i < |all|;
        return Some(all[i].member);
      }
      return None;
    }

    /** `pop_proxy`: read the top-scored member and remove it. `top` is the
        member read; `lostRace` says another client removed it between the read
        and this client's `ZREM`, in which case the call returns `None` without
        trying again. */
    method PopProxy(protocol: string := "http", lostRace: bool := false) returns (r: Option<string>, ghost top: Option<string>)
      modifies redis
      ensures top.None? <==> old(Pool(protocol)) == map[]
      ensures top.Some? ==> top.value in old(Pool(protocol))
      ensures top.Some? ==> forall m :: m in old(Pool(protocol)) ==> old(Pool(protocol))[m] <= old(Pool(protocol))[top.value]
      ensures r == if lostRace then None else top
      ensures redis != null && top.Some? ==>
        redis.data == Bind(old(redis.data), Key(protocol), old(Pool(protocol)) - {top.value})
      ensures top.None? && redis != null ==> unchanged(redis)
      ensures top.Some? ==> |Pool(protocol)| == |old(Pool(protocol))| - 1
    {
      if redis == null {
        return None, None;
      }
      var key := Key(protocol);
      var proxies, full := redis.ZRevRange(key, 0, 0);
      RedisSliceAllAndHead(full);
      ListingEmpty(full, Pool(protocol));
      if proxies == [] {
        return None, None;
      }
      var proxy := proxies[0].member;
      ListingHeadMax(full, Pool(protocol));
      top := Some(proxy);
      ghost var before := redis.data;
      ghost var rest := Lookup(before, key) - {proxy};
      if lostRace {
        // the competing client's ZREM lands first
        var _ := redis.ZRem(key, proxy);
        assert redis.data == Bind(before, key, rest);
      }
      ghost var mid := redis.data;
      assert Lookup(mid, key) - {proxy} == rest by {
        if lostRace {
          assert Lookup(mid, key) == rest;
        }
      }
      var result := redis.ZRem(key, proxy);
      if lostRace {
        BindTwice(before, key, rest, rest);
      }
      r := if result > 0 then Some(proxy) else None;
    }

    /** `update_proxy_score`: add +1 after a success or -2 after a failure to
        the stored score, creating the member when it is absent. `logged` is
        the clamped value the call logs; the stored score is not clamped. */
    method UpdateProxyScore(proxy: string, protocol: string := "http", success: bool := true)
      returns (ok: bool, ghost logged: int)
      modifies redis
      ensures ok <==> redis != null
      ensures redis != null ==>
        redis.data == Bind(old(redis.data), Key(protocol), IncrBy(old(Pool(protocol)), proxy, ScoreDelta(success)))
      ensures redis != null ==> logged == LoggedScore(Pool(protocol)[proxy], success)
    {
      if redis == null {
        return false, 0;
      }
      var v := redis.ZIncrBy(Key(protocol), proxy, ScoreDelta(success));
      logged := LoggedScore(v, success);
      ok := true;
    }

    /** `remove_proxy`: remove the address and say whether it was present. */
    method RemoveProxy(proxy: string, protocol: string := "http") returns (removed: bool)
      modifies redis
      ensures removed == (proxy in old(Pool(protocol)))
      ensures redis != null ==>
        redis.data == Bind(old(redis.data), Key(protocol), old(Pool(protocol)) - {proxy})
    {
      if redis == null {
        return false;
      }
      var result := redis.ZRem(Key(protocol), proxy);
      removed := result > 0;
    }

    /** `get_all_proxies`: every member once with its score, highest first. */
    method GetAllProxies(protocol: string := "http") returns (s: seq<Entry>)
      ensures Listing(s, Pool(protocol)) && NonIncreasing(s)
      ensures |s| == |Pool(protocol)|
    {
      if redis == null {
        return [];
      }
      var all, full := redis.ZRevRange(Key(protocol), 0, -1);
      RedisSliceAllAndHead(full);
      ListingLength(all, Pool(protocol));
      s := all;
    }

    /** `get_proxy_count`: the size of the partition. */
    method GetProxyCount(protocol: string := "http") returns (n: nat)
      ensures n == |Pool(protocol)|
    {
      if redis == null {
        return 0;
      }
      n := redis.ZCard(Key(protocol));
    }

    /** `clear_proxies`: drop the partition and say whether it held anything. */
    method ClearProxies(protocol: string := "http") returns (cleared: bool)
      modifies redis
      ensures cleared == (old(Pool(protocol)) != map[])
      ensures redis != null ==> redis.data == Bind(old(redis.data), Key(protocol), map[])
      ensures Pool(protocol) == map[]
    {
      if redis == null {
        return false;
      }
      var result := redis.Delete(Key(protocol));
      cleared := result > 0;
    }

    /** `get_stats`: `None` (the empty dictionary) when disconnected. */
    method GetStats() returns (r: Option<Stats>)
      ensures redis == null ==> r == None
      ensures redis != null ==> r == Some(StatsOf(redis.data, keyPrefix))
    {
      if redis == null {
        return None;
      }
      var total, byProtocol, byRange := GatherStats(Protocols);
      return Some(Stats(total, byProtocol, byRange));
    }

    /** The loop of `get_stats` over a list of protocols. */
    method GatherStats(ps: seq<string>) returns (total: nat, byProtocol: map<string, int>, byRange: seq<int>)
      requires redis != null
      ensures total == CountOver(redis.data, keyPrefix, ps)
      ensures byProtocol == ProtocolCounts(redis.data, keyPrefix, ps)
      ensures byRange == RangeCounts(redis.data, keyPrefix, ps)
    {
      ghost var st := redis.data;
      total := 0;
      byProtocol := map[];
      byRange := [0, 0, 0, 0, 0];
      for i := 0 to |ps|
        invariant total == CountOver(st, keyPrefix, ps[..i])
        invariant byProtocol == ProtocolCounts(st, keyPrefix, ps[..i])
        invariant byRange == RangeCounts(st, keyPrefix, ps[..i])
      {
        var protocol := ps[i];
        var proxies, full := redis.ZRange(Key(protocol), 0, -1);
        RedisSliceAllAndHead(full);
        ListingLength(proxies, Pool(protocol));
        var count := |proxies|;
        CountsStep(st, keyPrefix, ps, i);
        byProtocol := byProtocol[protocol := count];
        total := total + count;
        byRange := Tally(proxies, byRange);
        RangeStep(st, keyPrefix, ps[..i], protocol, proxies, byRange);
      }
      assert ps[..|ps|] == ps;
    }

    /** The inner loop of `get_stats`: add one to the bucket of each entry. */
    static method Tally(proxies: seq<Entry>, counts: seq<int>) returns (r: seq<int>)
      requires |counts| == 5
      ensures |r| == 5
      ensures forall b :: 0 <= b < 5 ==> r[b] == counts[b] + |Within(proxies, BucketLow(b), BucketHigh(b))|
    {
      r := counts;
      assert proxies[..0] == [];
      for j := 0 to |proxies|
        invariant |r| == 5
        invariant forall b :: 0 <= b < 5 ==> r[b] == counts[b] + |Within(proxies[..j], BucketLow(b), BucketHigh(b))|
      {
        var scoreInt := proxies[j].score;
        if scoreInt <= 20 {
          r := r[0 := r[0] + 1];
        } else if scoreInt <= 40 {
          r := r[1 := r[1] + 1];
        } else if scoreInt <= 60 {
          r := r[2 := r[2] + 1];
        } else if scoreInt <= 80 {
          r := r[3 := r[3] + 1];
        } else {
          r := r[4 := r[4] + 1];
        }
        forall b | 0 <= b < 5 {
          WithinStep(proxies, j, b);
        }
      }
      assert proxies[..|proxies|] == proxies;
    }
  }
}
