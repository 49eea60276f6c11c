/** Values of the backing store: a sorted set maps each member (a proxy
    address) to its score, and the store maps each key to a sorted set. A key
    that holds no members is absent, as in Redis. */
module SortedSets {
  import Settings

  type ZSet = map<string, int>
  type Store = map<string, ZSet>

  /** One `(member, score)` pair of a read with `withscores=True`. */
  datatype Entry = Entry(member: string, score: int)

  /** The partition key of a protocol, `f"{prefix}:{protocol}"`. */
  function KeyOf(prefix: string, protocol: string): string {
    prefix + ":" + protocol
  }

  /** Distinct protocols have distinct keys under one prefix. */
  lemma KeyInjective(prefix: string, p: string, q: string)
    requires KeyOf(prefix, p) == KeyOf(prefix, q)
    ensures p == q
  {
    assert p == KeyOf(prefix, p)[|prefix| + 1..];
    assert q == KeyOf(prefix, q)[|prefix| + 1..];
  }

  /** The sorted set at `key`; an absent key reads as the empty set. */
  function Lookup(st: Store, key: string): ZSet {
    if key in st then st[key] else map[]
  }

  /** The store with the set at `key` replaced by `z`; an empty `z` removes the key. */
  function Bind(st: Store, key: string, z: ZSet): (r: Store)
    ensures Lookup(r, key) == z
    ensures forall k :: k != key ==> Lookup(r, k) == Lookup(st, k)
  {
    if z == map[] then st - {key} else st[key := z]
  }

  /** Writing the same key twice keeps only the second write. */
  lemma BindTwice(st: Store, key: string, a: ZSet, b: ZSet)
    ensures Bind(Bind(st, key, a), key, b) == Bind(st, key, b)
  {
    var l := Bind(Bind(st, key, a), key, b);
    var r := Bind(st, key, b);
    assert l.Keys == r.Keys;
    assert forall k :: k in l ==> l[k] == r[k];
  }

  /** Writing one protocol's partition leaves every other protocol's partition
      as it was. */
  lemma OtherPartition(st: Store, prefix: string, p: string, q: string, z: ZSet)
    requires p != q
    ensures Lookup(Bind(st, KeyOf(prefix, p), z), KeyOf(prefix, q)) == Lookup(st, KeyOf(prefix, q))
  {
    if KeyOf(prefix, p) == KeyOf(prefix, q) {
      KeyInjective(prefix, p, q);
    }
  }

  // ---- the protocol partitions ----

  /** The partition of `protocol` in a store. */
  function PoolIn(st: Store, prefix: string, protocol: string): ZSet {
    Lookup(st, KeyOf(prefix, protocol))
  }

  /** The number of members of the listed protocols' partitions. */
  function CountOver(st: Store, prefix: string, ps: seq<string>): nat {
    if ps == [] then 0
    else CountOver(st, prefix, ps[..|ps| - 1]) + |PoolIn(st, prefix, ps[|ps| - 1])|
  }

  /** The `by_protocol` dictionary: each listed protocol's partition size. */
  function ProtocolCounts(st: Store, prefix: string, ps: seq<string>): map<string, int> {
    if ps == [] then map[]
    else ProtocolCounts(st, prefix, ps[..|ps| - 1])[ps[|ps| - 1] := |PoolIn(st, prefix, ps[|ps| - 1])|]
  }

  /** The `by_protocol` dictionary of the four protocols, written out. */
  lemma FourProtocolCounts(st: Store, prefix: string)
    ensures ProtocolCounts(st, prefix, Settings.Protocols) ==
      map["http" := |PoolIn(st, prefix, "http")|, "https" := |PoolIn(st, prefix, "https")|,
          "socks4" := |PoolIn(st, prefix, "socks4")|, "socks5" := |PoolIn(st, prefix, "socks5")|]
    ensures CountOver(st, prefix, Settings.Protocols) == |PoolIn(st, prefix, "http")| + |PoolIn(st, prefix, "https")|
      + |PoolIn(st, prefix, "socks4")| + |PoolIn(st, prefix, "socks5")|
  {
    var p4: seq<string> := ["http", "https", "socks4", "socks5"];
    var p3: seq<string> := ["http", "https", "socks4"];
    var p2: seq<string> := ["http", "https"];
    var p1: seq<string> := ["http"];
    assert p4[..3] == p3 && p3[..2] == p2 && p2[..1] == p1 && p1[..0] == [];
    assert Settings.Protocols == p4;
    assert CountOver(st, prefix, p1) == |PoolIn(st, prefix, "http")|;
    assert CountOver(st, prefix, p2) == CountOver(st, prefix, p1) + |PoolIn(st, prefix, "https")|;
    assert CountOver(st, prefix, p3) == CountOver(st, prefix, p2) + |PoolIn(st, prefix, "socks4")|;
    assert CountOver(st, prefix, p4) == CountOver(st, prefix, p3) + |PoolIn(st, prefix, "socks5")|;
    assert ProtocolCounts(st, prefix, p1) == map["http" := |PoolIn(st, prefix, "http")|];
    assert ProtocolCounts(st, prefix, p2) == ProtocolCounts(st, prefix, p1)["https" := |PoolIn(st, prefix, "https")|];
    assert ProtocolCounts(st, prefix, p3) == ProtocolCounts(st, prefix, p2)["socks4" := |PoolIn(st, prefix, "socks4")|];
    assert ProtocolCounts(st, prefix, p4) == ProtocolCounts(st, prefix, p3)["socks5" := |PoolIn(st, prefix, "socks5")|];
  }

  // ---- the sorted-set commands, as functions on values ----

  /** `ZADD key NX member score`: insert only when the member is absent. */
  function AddIfAbsent(z: ZSet, member: string, score: int): (r: ZSet)
    ensures member in r
    ensures member in z ==> r == z
    ensures member !in z ==> r == z[member := score] && |r| == |z| + 1
  {
    if member in z then z else z[member := score]
  }

  /** `ZINCRBY key delta member`: add `delta`, an absent member counting as 0. */
  function IncrBy(z: ZSet, member: string, delta: int): (r: ZSet)
    ensures r.Keys == z.Keys + {member}
    ensures r[member] == (if member in z then z[member] else 0) + delta
    ensures forall m :: m in z && m != member ==> r[m] == z[m]
  {
    z[member := (if member in z then z[member] else 0) + delta]
  }

  /** The score change `update_proxy_score` asks for: +1 after a success, -2
      after a failure. */
  function ScoreDelta(success: bool): int {
    if success then 1 else -2
  }

  /** The value `update_proxy_score` logs for the new score `v`: `v or 10`, then
      capped at 100 after a success or floored at 0 after a failure. Only the
      log line sees this value; the stored score is `v`. */
  function LoggedScore(v: int, success: bool): (r: int)
    ensures success ==> r <= 100
    ensures !success ==> r >= 0
    ensures v != 0 && 0 <= v <= 100 ==> r == v
  {
    var w := if v == 0 then 10 else v;
    if success then (if w < 100 then w else 100) else (if w > 0 then w else 0)
  }

  /** The stored score is not clamped: a success on a score of 100 stores 101
      while the logged value stays 100. */
  lemma ScoreNotClamped(z: ZSet, m: string)
    requires m in z && z[m] == 100
    ensures IncrBy(z, m, ScoreDelta(true))[m] == 101
    ensures LoggedScore(IncrBy(z, m, ScoreDelta(true))[m], true) == 100
  {
  }

  /** A score bound of a range read: unbounded (`-inf` or `+inf`) or inclusive. */
  datatype Bound = Unbounded | At(n: int)

  predicate InRange(x: int, lo: Bound, hi: Bound) {
    (lo.Unbounded? || lo.n <= x) && (hi.Unbounded? || x <= hi.n)
  }

  /** The members whose score lies between `lo` and `hi`. */
  function Band(z: ZSet, lo: Bound, hi: Bound): (r: ZSet)
    ensures r.Keys <= z.Keys
    ensures forall m :: m in r ==> r[m] == z[m] && InRange(z[m], lo, hi)
    ensures forall m :: m in z && InRange(z[m], lo, hi) ==> m in r
  {
    map m | m in z && InRange(z[m], lo, hi) :: z[m]
  }

  // ---- listings: the results of ZRANGE-like reads ----

  /** The members named by a sequence of entries. */
  function Members(s: seq<Entry>): (r: set<string>)
    ensures forall i :: 0 <= i < |s| ==> s[i].member in r
    ensures forall m :: m in r ==> exists i :: 0 <= i < |s| && s[i].member == m
  {
    if s == [] then {} else Members(s[..|s| - 1]) + {s[|s| - 1].member}
  }

  /** No member occurs twice. */
  predicate Distinct(s: seq<Entry>) {
    forall i, j :: 0 <= i < j < |s| ==> s[i].member != s[j].member
  }

  /** `s` lists every member of `z` exactly once, each with its score. */
  predicate Listing(s: seq<Entry>, z: ZSet) {
    && Members(s) == z.Keys
    && Distinct(s)
    && forall i :: 0 <= i < |s| ==> s[i].member in z && z[s[i].member] == s[i].score
  }

  predicate NonIncreasing(s: seq<Entry>) {
    forall i, j :: 0 <= i < j < |s| ==> s[i].score >= s[j].score
  }

  predicate NonDecreasing(s: seq<Entry>) {
    forall i, j :: 0 <= i < j < |s| ==> s[i].score <= s[j].score
  }

  /** Non-increasing when `descending`, non-decreasing otherwise. */
  predicate Ordered(s: seq<Entry>, descending: bool) {
    if descending then NonIncreasing(s) else NonDecreasing(s)
  }

  /** A sequence of distinct members names as many members as it is long. */
  lemma {:induction false} DistinctMembers(s: seq<Entry>)
    requires Distinct(s)
    ensures |Members(s)| == |s|
  {
    if s != [] {
      var init := s[..|s| - 1];
      assert Distinct(init);
      DistinctMembers(init);
      forall i | 0 <= i < |init| ensures init[i].member != s[|s| - 1].member {
        assert init[i] == s[i];
      }
    }
  }

  /** A listing is exactly as long as the set it lists. */
  lemma ListingLength(s: seq<Entry>, z: ZSet)
    requires Listing(s, z)
    ensures |s| == |z|
  {
    DistinctMembers(s);
    assert |z| == |z.Keys|;
  }

  /** The empty set is listed only by the empty sequence. */
  lemma ListingEmpty(s: seq<Entry>, z: ZSet)
    requires Listing(s, z)
    ensures s == [] <==> z == map[]
  {
    ListingLength(s, z);
  }

  /** Dropping the last entry of a listing lists the set without that member. */
  lemma ListingInit(s: seq<Entry>, z: ZSet)
    requires Listing(s, z) && s != []
    ensures var last := s[|s| - 1];
      last.member in z && z[last.member] == last.score
      && Listing(s[..|s| - 1], z - {last.member})
  {
    var init := s[..|s| - 1];
    var last := s[|s| - 1];
    forall i | 0 <= i < |init| ensures init[i].member != last.member {
      assert init[i] == s[i];
    }
    assert Members(s) == Members(init) + {last.member};
    assert Members(init) == z.Keys - {last.member};
  }

  /** Appending an entry names one more member. */
  lemma MembersSnoc(s: seq<Entry>, e: Entry)
    ensures Members(s + [e]) == Members(s) + {e.member}
  {
    assert (s + [e])[..|s|] == s;
  }

  /** The entries of `s` whose score lies in the band, in order. */
  function Within(s: seq<Entry>, lo: Bound, hi: Bound): (r: seq<Entry>)
    ensures |r| <= |s|
    ensures forall i :: 0 <= i < |r| ==> InRange(r[i].score, lo, hi)
  {
    if s == [] then []
    else
      var init := Within(s[..|s| - 1], lo, hi);
      if InRange(s[|s| - 1].score, lo, hi) then init + [s[|s| - 1]] else init
  }

  /** Appending an entry for a new member lists the set with that member added. */
  lemma ListingSnoc(w: seq<Entry>, b: ZSet, e: Entry)
    requires Listing(w, b) && e.member !in b
    ensures Listing(w + [e], b[e.member := e.score])
  {
    MembersSnoc(w, e);
    SnocDistinct(w, b, e);
    SnocScores(w, b, e);
  }

  lemma SnocDistinct(w: seq<Entry>, b: ZSet, e: Entry)
    requires Listing(w, b) && e.member !in b
    ensures Distinct(w + [e])
  {
    var t := w + [e];
    forall i, j | 0 <= i < j < |t| ensures t[i].member != t[j].member {
      assert t[i] == w[i] && t[i].member in b;
    }
  }

  lemma SnocScores(w: seq<Entry>, b: ZSet, e: Entry)
    requires Listing(w, b) && e.member !in b
    ensures forall i :: 0 <= i < |w + [e]| ==>
      (w + [e])[i].member in b[e.member := e.score] && b[e.member := e.score][(w + [e])[i].member] == (w + [e])[i].score
  {
    var t, z := w + [e], b[e.member := e.score];
    forall i | 0 <= i < |t| ensures t[i].member in z && z[t[i].member] == t[i].score {
      if i < |w| {
        assert t[i] == w[i] && w[i].member in b && w[i].member != e.member;
      }
    }
  }

  /** The band of a set, seen from the set without one of its members. */
  lemma BandWithout(z: ZSet, m: string, lo: Bound, hi: Bound)
    requires m in z
    ensures InRange(z[m], lo, hi) ==> Band(z, lo, hi) == Band(z - {m}, lo, hi)[m := z[m]]
    ensures !InRange(z[m], lo, hi) ==> Band(z, lo, hi) == Band(z - {m}, lo, hi)
    ensures m !in Band(z - {m}, lo, hi)
  {
  }

  /** Filtering a listing by score lists the band of the set it lists. */
  lemma {:induction false} WithinListing(s: seq<Entry>, z: ZSet, lo: Bound, hi: Bound)
    requires Listing(s, z)
    ensures Listing(Within(s, lo, hi), Band(z, lo, hi))
  {
    if s == [] {
      assert Band(z, lo, hi) == map[];
    } else {
      var last := s[|s| - 1];
      ListingInit(s, z);
      WithinListing(s[..|s| - 1], z - {last.member}, lo, hi);
      BandWithout(z, last.member, lo, hi);
      if InRange(last.score, lo, hi) {
        ListingSnoc(Within(s[..|s| - 1], lo, hi), Band(z - {last.member}, lo, hi), last);
      }
    }
  }

  /** The head of a non-increasing listing holds a highest score. */
  lemma ListingHeadMax(s: seq<Entry>, z: ZSet)
    requires Listing(s, z) && NonIncreasing(s) && s != []
    ensures s[0].member in z
    ensures forall m :: m in z ==> z[m] <= z[s[0].member]
  {
    forall m | m in z ensures z[m] <= z[s[0].member] {
      var i :| 0 <= i < |s| && s[i].member == m;
    }
  }

  /** The number of entries of a listing in a band is the size of the band. */
  lemma WithinCount(s: seq<Entry>, z: ZSet, lo: Bound, hi: Bound)
    requires Listing(s, z)
    ensures |Within(s, lo, hi)| == |Band(z, lo, hi)|
  {
    WithinListing(s, z, lo, hi);
    ListingLength(Within(s, lo, hi), Band(z, lo, hi));
  }

  // ---- producing a listing ----

  /** `a` may come before `b` in the requested order. */
  predicate Precedes(a: int, b: int, descending: bool) {
    if descending then a >= b else a <= b
  }

  /** A non-empty set of members has one whose score goes first in the order. */
  lemma {:induction false} ExtremeExists(z: ZSet, keys: set<string>, descending: bool)
    requires keys != {} && keys <= z.Keys
    ensures exists m :: m in keys && forall j :: j in keys ==> Precedes(z[m], z[j], descending)
  {
    var k :| k in keys;
    if keys != {k} {
      ExtremeExists(z, keys - {k}, descending);
      var m :| m in keys - {k} && forall j :: j in keys - {k} ==> Precedes(z[m], z[j], descending);
      if Precedes(z[k], z[m], descending) {
        assert forall j :: j in keys ==> Precedes(z[k], z[j], descending);
      } else {
        assert forall j :: j in keys ==> Precedes(z[m], z[j], descending);
      }
    }
  }

  /** `s` is an ordered listing of the members of `z` outside `rest`, and each
      of them goes no later in the order than every member still in `rest`. */
  predicate PartialListing(s: seq<Entry>, z: ZSet, rest: set<string>, descending: bool) {
    && rest <= z.Keys
    && Members(s) == z.Keys - rest
    && Distinct(s)
    && (forall i :: 0 <= i < |s| ==> s[i].member in z && z[s[i].member] == s[i].score)
    && Ordered(s, descending)
    && (forall i, m :: 0 <= i < |s| && m in rest ==> Precedes(s[i].score, z[m], descending))
  }

  /** Appending an extreme member of `rest` extends a partial listing. */
  lemma ExtendListing(s: seq<Entry>, z: ZSet, rest: set<string>, descending: bool, m: string)
    requires PartialListing(s, z, rest, descending)
    requires m in rest && forall j :: j in rest ==> Precedes(z[m], z[j], descending)
    ensures PartialListing(s + [Entry(m, z[m])], z, rest - {m}, descending)
  {
    ExtendMembers(s, z, rest, descending, m);
    ExtendOrder(s, z, rest, descending, m);
  }

  /** The members part of `ExtendListing`. */
  lemma ExtendMembers(s: seq<Entry>, z: ZSet, rest: set<string>, descending: bool, m: string)
    requires PartialListing(s, z, rest, descending) && m in rest
    ensures var t := s + [Entry(m, z[m])];
      && Members(t) == z.Keys - (rest - {m})
      && Distinct(t)
      && (forall i :: 0 <= i < |t| ==> t[i].member in z && z[t[i].member] == t[i].score)
  {
    var t := s + [Entry(m, z[m])];
    MembersSnoc(s, Entry(m, z[m]));
    forall i | 0 <= i < |s| ensures s[i].member != m {
      assert s[i].member in Members(s);
    }
    forall i | 0 <= i < |t| ensures t[i].member in z && z[t[i].member] == t[i].score {
      if i < |s| {
        assert t[i] == s[i];
      }
    }
  }

  /** The order part of `ExtendListing`. */
  lemma ExtendOrder(s: seq<Entry>, z: ZSet, rest: set<string>, descending: bool, m: string)
    requires PartialListing(s, z, rest, descending)
    requires m in rest && forall j :: j in rest ==> Precedes(z[m], z[j], descending)
    ensures var t := s + [Entry(m, z[m])];
      && Ordered(t, descending)
      && (forall i, k :: 0 <= i < |t| && k in rest - {m} ==> Precedes(t[i].score, z[k], descending))
  {
    var t := s + [Entry(m, z[m])];
    forall i, j | 0 <= i < j < |t| ensures Precedes(t[i].score, t[j].score, descending) {
      if j == |s| {
        assert t[i] == s[i] && t[j].score == z[m];
      } else {
        assert t[i] == s[i] && t[j] == s[j];
      }
    }
  }

  /** The server's ordered read of a whole set: every member once, by score.
      Members with equal scores come in an unspecified order. */
  method SortedListing(z: ZSet, descending: bool) returns (s: seq<Entry>)
    ensures Listing(s, z) && Ordered(s, descending)
  {
    s := [];
    var rest := z.Keys;
    while rest != {}
      invariant PartialListing(s, z, rest, descending)
      decreases |rest|
    {
      ExtremeExists(z, rest, descending);
      var m :| m in rest && forall j :: j in rest ==> Precedes(z[m], z[j], descending);
      ExtendListing(s, z, rest, descending, m);
      s := s + [Entry(m, z[m])];
      rest := rest - {m};
    }
  }

  /** The `start`..`stop` window of a listing with Redis's index rules: negative
      indices count from the end, `stop` is inclusive and clamped to the end. */
  function RedisSlice(s: seq<Entry>, start: int, stop: int): (r: seq<Entry>)
    ensures |r| <= |s|
  {
    var n := |s|;
    var a := if start < 0 then (if start + n < 0 then 0 else start + n) else start;
    var b := if stop < 0 then stop + n else stop;
    if a > b || a >= n then []
    else s[a..(if b >= n then n else b + 1)]
  }

  /** `0, -1` is the whole listing and `0, 0` its head. */
  lemma RedisSliceAllAndHead(s: seq<Entry>)
    ensures RedisSlice(s, 0, -1) == s
    ensures RedisSlice(s, 0, 0) == if s == [] then [] else [s[0]]
  {
  }
}
