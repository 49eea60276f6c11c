/** The Redis server the pool talks to, reduced to the sorted-set commands the
    clients issue. Every command is stated through the store value it leaves
    behind; reads are the server's ordered listings of one key. */
module RedisStore {
  import opened SortedSets

  class Redis {
    /** Every key of the server and the sorted set it holds. */
    var data: Store

    constructor ()
      ensures data == map[]
    {
      data := map[];
    }

    /** The sorted set at `key`, empty when the key does not exist. */
    function Get(key: string): ZSet
      reads this
    {
      Lookup(data, key)
    }

    /** `ZADD key NX member score`: the number of members added (0 or 1). */
    method ZAddNX(key: string, member: string, score: int) returns (added: nat)
      modifies this
      ensures data == Bind(old(data), key, AddIfAbsent(Lookup(old(data), key), member, score))
      ensures added == if member in Lookup(old(data), key) then 0 else 1
    {
      added := if member in Get(key) then 0 else 1;
      data := Bind(data, key, AddIfAbsent(Get(key), member, score));
    }

    /** `ZINCRBY key delta member`: the member's new score. */
    method ZIncrBy(key: string, member: string, delta: int) returns (score: int)
      modifies this
      ensures data == Bind(old(data), key, IncrBy(Lookup(old(data), key), member, delta))
      ensures member in Get(key) && score == Get(key)[member]
    {
      data := Bind(data, key, IncrBy(Get(key), member, delta));
      score := Get(key)[member];
    }

    /** `ZREM key member`: the number of members removed (0 or 1). */
    method ZRem(key: string, member: string) returns (removed: nat)
      modifies this
      ensures data == Bind(old(data), key, Lookup(old(data), key) - {member})
      ensures removed == if member in Lookup(old(data), key) then 1 else 0
    {
      removed := if member in Get(key) then 1 else 0;
      data := Bind(data, key, Get(key) - {member});
    }

    /** `ZCARD key`. */
    method ZCard(key: string) returns (n: nat)
      ensures n == |Get(key)|
    {
      n := |Get(key)|;
    }

    /** `DEL key`: the number of keys removed; a key exists exactly when its
        set is non-empty. */
    method Delete(key: string) returns (n: nat)
      modifies this
      ensures data == Bind(old(data), key, map[])
      ensures n == if Lookup(old(data), key) != map[] then 1 else 0
    {
      n := if Get(key) != map[] then 1 else 0;
      data := Bind(data, key, map[]);
    }

    /** `ZRANGE key start stop WITHSCORES`: a window of the ascending listing. */
    method ZRange(key: string, start: int, stop: int) returns (s: seq<Entry>, ghost full: seq<Entry>)
      ensures Listing(full, Get(key)) && NonDecreasing(full)
      ensures s == RedisSlice(full, start, stop)
    {
      var all := SortedListing(Get(key), false);
      full := all;
      s := RedisSlice(all, start, stop);
    }

    /** `ZREVRANGE key start stop WITHSCORES`: a window of the descending listing. */
    method ZRevRange(key: string, start: int, stop: int) returns (s: seq<Entry>, ghost full: seq<Entry>)
      ensures Listing(full, Get(key)) && NonIncreasing(full)
      ensures s == RedisSlice(full, start, stop)
    {
      var all := SortedListing(Get(key), true);
      full := all;
      s := RedisSlice(all, start, stop);
    }

    /** `ZRANGEBYSCORE key lo hi WITHSCORES`: the band, ascending. */
    method ZRangeByScore(key: string, lo: Bound, hi: Bound) returns (s: seq<Entry>)
      ensures Listing(s, Band(Get(key), lo, hi)) && NonDecreasing(s)
    {
      s := SortedListing(Band(Get(key), lo, hi), false);
    }

    /** `ZREVRANGEBYSCORE key hi lo WITHSCORES`: the band, descending. */
    method ZRevRangeByScore(key: string, hi: Bound, lo: Bound) returns (s: seq<Entry>)
      ensures Listing(s, Band(Get(key), lo, hi)) && NonIncreasing(s)
    {
      s := SortedListing(Band(Get(key), lo, hi), true);
    }
  }
}
