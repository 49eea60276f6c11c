/** The core package's storage manager (core/storage.py): the same per-protocol
    sorted sets as the database client, written from `Proxy` records, read
    back in ascending order, with the high band capped at 100. */
module Storage {
  import opened Wrappers
  import opened SortedSets
  import opened RedisStore
  import opened Settings
  import opened CoreProxy

  class ProxyStorage {
    /** `REDIS_KEY`. */
    const keyPrefix: string
    /** The server, or `null` when connecting failed. */
    const redis: Redis?

    /** `server` is what connecting produced: a server, or `null` after a failure. */
    constructor (server: Redis?)
      ensures keyPrefix == RedisKey && redis == server
    {
      keyPrefix := RedisKey;
      redis := server;
    }

    /** `_get_key`. */
    function Key(protocol: string): string {
      KeyOf(keyPrefix, protocol)
    }

    /** The partition of `protocol`; empty when disconnected. */
    function Pool(protocol: string): ZSet
      reads redis
    {
      if redis == null then map[] else redis.Get(Key(protocol))
    }

    /** `add_proxy`: insert the proxy's address with its current score into its
        protocol's partition, only when the address is absent there. */
    method AddProxy(proxy: Proxy) returns (added: bool)
      modifies redis
      ensures redis == null ==> !added
      ensures redis != null ==> added == (proxy.Address() !in old(Pool(proxy.protocol)))
      ensures redis != null ==>
        redis.data == Bind(old(redis.data), Key(proxy.protocol),
                           AddIfAbsent(old(Pool(proxy.protocol)), proxy.Address(), proxy.score))
    {
      if redis == null {
        return false;
      }
      var result := redis.ZAddNX(Key(proxy.protocol), proxy.Address(), proxy.score);
      added := result > 0;
    }

    /** `get_random_proxy`: a member scored 60 to 100 when there is one,
        otherwise any member, `None` for an empty partition. A member above 100
        is outside the preferred band. */
    method GetRandomProxy(protocol: string := "http") returns (r: Option<string>)
      ensures r.None? <==> Pool(protocol) == map[]
      ensures r.Some? ==> r.value in Pool(protocol)
      ensures r.Some? && Band(Pool(protocol), At(60), At(100)) != map[] ==>
        r.value in Band(Pool(protocol), At(60), At(100))
    {
      if redis == null {
        return None;
      }
      var key := Key(protocol);
      var proxies := redis.ZRangeByScore(key, At(60), At(100));
      ListingEmpty(proxies, Band(Pool(protocol), At(60), At(100)));
      if proxies == [] {
        ghost var full;
        proxies, full := redis.ZRange(key, 0, -1);
        RedisSliceAllAndHead(full);
        ListingEmpty(proxies, Pool(protocol));
      }
      if proxies != [] {
        var i :| 0 <= i < |proxies|;
        return Some(proxies[i].member);
      }
      return None;
    }

    /** `get_all_proxies`: every member once with its score, lowest first. */
    method GetAllProxies(protocol: string := "http") returns (s: seq<Entry>)
      ensures Listing(s, Pool(protocol)) && NonDecreasing(s)
      ensures |s| == |Pool(protocol)|
    {
      if redis == null {
        return [];
      }
      var all, full := redis.ZRange(Key(protocol), 0, -1);
      RedisSliceAllAndHead(full);
      ListingLength(all, Pool(protocol));
      s := all;
    }

    /** `update_proxy_score`: +1 after a success, -2 after a failure, on the
        stored score; `logged` is the clamped value the call logs. */
    method UpdateProxyScore(proxy: string, protocol: string := "http", success: bool := true)
      returns (ok: bool, ghost logged: int)
      modifies redis
      ensures ok <==> redis != null
      ensures redis != null ==>
        redis.data == Bind(old(redis.data), Key(protocol), IncrBy(old(Pool(protocol)), proxy, ScoreDelta(success)))
      ensures redis != null ==> logged == LoggedScore(Pool(protocol)[proxy], success)
    {
      if redis == null {
        return false, 0;
      }
      var v := redis.ZIncrBy(Key(protocol), proxy, ScoreDelta(success));
      logged := LoggedScore(v, success);
      ok := true;
    }

    /** `remove_proxy`: remove the address and say whether it was present. */
    method RemoveProxy(proxy: string, protocol: string := "http") returns (removed: bool)
      modifies redis
      ensures removed == (proxy in old(Pool(protocol)))
      ensures redis != null ==>
        redis.data == Bind(old(redis.data), Key(protocol), old(Pool(protocol)) - {proxy})
    {
      if redis == null {
        return false;
      }
      var result := redis.ZRem(Key(protocol), proxy);
      removed := result > 0;
    }

    /** `get_count`: the size of the named partition, or of each of the four
        when no protocol (or the empty one) is named; `{}` when disconnected. */
    method GetCount(protocol: Option<string> := None) returns (counts: map<string, int>)
      ensures redis == null ==> counts == map[]
      ensures redis != null && protocol.Some? && protocol.value != "" ==>
        counts == map[protocol.value := |Pool(protocol.value)|]
      ensures redis != null && (protocol.None? || protocol.value == "") ==>
        counts == map["http" := |Pool("http")|, "https" := |Pool("https")|,
                      "socks4" := |Pool("socks4")|, "socks5" := |Pool("socks5")|]
    {
      if redis == null {
        return map[];
      }
      if protocol.Some? && protocol.value != "" {
        var n := redis.ZCard(Key(protocol.value));
        return map[protocol.value := n];
      }
      ghost var st := redis.data;
      counts := map[];
      for i := 0 to |Protocols|
        invariant counts == ProtocolCounts(st, keyPrefix, Protocols[..i])
      {
        var proto := Protocols[i];
        var n := redis.ZCard(Key(proto));
        assert Protocols[..i + 1] == Protocols[..i] + [proto];
        assert (Protocols[..i] + [proto])[..i] == Protocols[..i];
        counts := counts[proto := n];
      }
      assert Protocols[..|Protocols|] == Protocols;
      FourProtocolCounts(st, keyPrefix);
    }
  }
}
