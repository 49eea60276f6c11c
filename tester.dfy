/** The standalone tester (tester/proxy_tester.py): probe the highest-scored
    members of each protocol's partition and move each tested member's score
    by +1 after a success and -2 after a failure. */
module Tester {
  import opened Wrappers
  import opened Settings
  import opened SortedSets
  import opened RedisStore
  import opened Db
  import opened Dedup
  import opened CoreProxy
  import opened Probing

  /** A `(proxy, protocol)` pair to test. */
  type Pair = (string, string)

  /** The proxy URL `test_single_proxy` builds: SOCKS proxies under their own
      scheme, everything else under `http`. */
  function ProxyUrl(proxy: string, protocol: string): string {
    UrlScheme(protocol) + "://" + proxy
  }

  /** The tester reaches a stored address through the URL the core `Proxy`
      of the same identity reports. */
  lemma ProxyUrlAgrees(ip: string, port: int, protocol: string)
    ensures ProxyUrl(AddressOf(ip, port), protocol) == UrlOf(Identity(ip, port, protocol))
  {
  }

  // ---- a batch ----

  /** What `gather` hands back for one pair: `None` when testing it raised,
      otherwise the verdict of `test_proxy`. */
  function Outcome(pair: Pair, urls: seq<string>, probe: Probe, crashed: (string, string) -> bool): Option<Verdict> {
    if crashed(pair.0, pair.1) then None else Some(Judge(ProxyUrl(pair.0, pair.1), urls, probe))
  }

  function Outcomes(pairs: seq<Pair>, urls: seq<string>, probe: Probe, crashed: (string, string) -> bool)
    : (os: seq<Option<Verdict>>)
    ensures |os| == |pairs|
    ensures forall i :: 0 <= i < |pairs| ==> os[i] == Outcome(pairs[i], urls, probe, crashed)
  {
    seq(|pairs|, i requires 0 <= i < |pairs| => Outcome(pairs[i], urls, probe, crashed))
  }

  /** A test counts as passed only when it returned a good verdict; a raised
      test counts as a failure. */
  predicate Passed(o: Option<Verdict>) {
    o.Some? && o.value.Valid?
  }

  /** `valid_count`. */
  function CountPassed(os: seq<Option<Verdict>>): (n: nat)
    ensures n <= |os|
  {
    if os == [] then 0 else CountPassed(os[..|os| - 1]) + (if Passed(os[|os| - 1]) then 1 else 0)
  }

  /** The store after the batch's score updates, applied in pair order. */
  function ScoreAll(st: Store, prefix: string, pairs: seq<Pair>, os: seq<Option<Verdict>>): Store
    requires |pairs| == |os|
  {
    if pairs == [] then st
    else
      var before := ScoreAll(st, prefix, pairs[..|pairs| - 1], os[..|os| - 1]);
      var (m, p) := pairs[|pairs| - 1];
      Bind(before, KeyOf(prefix, p), IncrBy(PoolIn(before, prefix, p), m, ScoreDelta(Passed(os[|os| - 1]))))
  }

  /** The members a batch touches in the partition of `p`. */
  function Touched(pairs: seq<Pair>, p: string): set<string> {
    if pairs == [] then {}
    else Touched(pairs[..|pairs| - 1], p) + (if pairs[|pairs| - 1].1 == p then {pairs[|pairs| - 1].0} else {})
  }

  /** One step of the update loop. */
  lemma ScoreAllStep(st: Store, prefix: string, pairs: seq<Pair>, os: seq<Option<Verdict>>, i: nat)
    requires |pairs| == |os| && i < |pairs|
    ensures var before := ScoreAll(st, prefix, pairs[..i], os[..i]);
      ScoreAll(st, prefix, pairs[..i + 1], os[..i + 1])
      == Bind(before, KeyOf(prefix, pairs[i].1),
              IncrBy(PoolIn(before, prefix, pairs[i].1), pairs[i].0, ScoreDelta(Passed(os[i]))))
  {
    assert pairs[..i + 1][..i] == pairs[..i];
    assert os[..i + 1][..i] == os[..i];
  }

  /** A batch adds to each partition exactly the members it touches there
      and keeps the score of every member it does not touch. */
  lemma {:induction false} ScoreAllAt(st: Store, prefix: string, pairs: seq<Pair>, os: seq<Option<Verdict>>, p: string, m: string)
    requires |pairs| == |os|
    ensures PoolIn(ScoreAll(st, prefix, pairs, os), prefix, p).Keys == PoolIn(st, prefix, p).Keys + Touched(pairs, p)
    ensures m in PoolIn(st, prefix, p) && m !in Touched(pairs, p) ==>
      PoolIn(ScoreAll(st, prefix, pairs, os), prefix, p)[m] == PoolIn(st, prefix, p)[m]
  {
    if pairs != [] {
      var init := pairs[..|pairs| - 1];
      var before := ScoreAll(st, prefix, init, os[..|os| - 1]);
      ScoreAllAt(st, prefix, init, os[..|os| - 1], p, m);
      var (n, q) := pairs[|pairs| - 1];
      var z := IncrBy(PoolIn(before, prefix, q), n, ScoreDelta(Passed(os[|os| - 1])));
      if q != p {
        OtherPartition(before, prefix, q, p, z);
      }
    }
  }

  /** A batch leaves every key outside the partitions it names as it was. */
  lemma {:induction false} ScoreAllElsewhere(st: Store, prefix: string, pairs: seq<Pair>, os: seq<Option<Verdict>>, k: string)
    requires |pairs| == |os|
    requires forall i :: 0 <= i < |pairs| ==> k != KeyOf(prefix, pairs[i].1)
    ensures Lookup(ScoreAll(st, prefix, pairs, os), k) == Lookup(st, k)
  {
    if pairs != [] {
      ScoreAllElsewhere(st, prefix, pairs[..|pairs| - 1], os[..|os| - 1], k);
    }
  }

  /** With no pair repeated, each tested member moves exactly once: by +1
      when its test passed, by -2 otherwise, from 0 when it was absent. */
  lemma {:induction false} ScoreAllOnce(st: Store, prefix: string, pairs: seq<Pair>, os: seq<Option<Verdict>>, i: nat)
    requires |pairs| == |os| && i < |pairs|
    requires forall a, b :: 0 <= a < b < |pairs| ==> pairs[a] != pairs[b]
    ensures var (m, p) := pairs[i];
      var z := PoolIn(st, prefix, p);
      m in PoolIn(ScoreAll(st, prefix, pairs, os), prefix, p)
      && PoolIn(ScoreAll(st, prefix, pairs, os), prefix, p)[m]
         == (if m in z then z[m] else 0) + ScoreDelta(Passed(os[i]))
  {
    var last := |pairs| - 1;
    var init := pairs[..last];
    var before := ScoreAll(st, prefix, init, os[..last]);
    var (m, p) := pairs[i];
    if i == last {
      assert m !in Touched(init, p) by {
        TouchedHas(init, p, m);
        forall a | 0 <= a < |init| ensures init[a] != (m, p) {
          assert init[a] == pairs[a];
        }
      }
      ScoreAllAt(st, prefix, init, os[..last], p, m);
    } else {
      assert init[i] == pairs[i];
      ScoreAllOnce(st, prefix, init, os[..last], i);
      var (n, q) := pairs[last];
      var z := IncrBy(PoolIn(before, prefix, q), n, ScoreDelta(Passed(os[last])));
      if q != p {
        OtherPartition(before, prefix, q, p, z);
      } else {
        assert n != m;
      }
    }
  }

  /** `m` is touched in `p` exactly when the pair `(m, p)` occurs. */
  lemma {:induction false} TouchedHas(pairs: seq<Pair>, p: string, m: string)
    ensures m in Touched(pairs, p) <==> exists a :: 0 <= a < |pairs| && pairs[a] == (m, p)
  {
    if pairs != [] {
      var init := pairs[..|pairs| - 1];
      TouchedHas(init, p, m);
      if exists a :: 0 <= a < |init| && init[a] == (m, p) {
        var a :| 0 <= a < |init| && init[a] == (m, p);
        assert pairs[a] == init[a];
      }
      if exists a :: 0 <= a < |pairs| && pairs[a] == (m, p) {
        var a :| 0 <= a < |pairs| && pairs[a] == (m, p);
        if a < |init| {
          assert init[a] == pairs[a];
        }
      }
    }
  }

  // ---- choosing what to test ----

  /** The length of the Python slice `xs[:limit]` of a list of length `n`. */
  function HeadLength(n: nat, limit: int): (k: nat)
    ensures k <= n
    ensures limit >= 0 ==> k == if limit < n then limit else n
    ensures limit < 0 ==> k == if n + limit > 0 then n + limit else 0
  {
    if limit >= 0 then (if limit < n then limit else n)
    else if n + limit > 0 then n + limit else 0
  }

  /** The members of a list of pairs. */
  function Chosen(r: seq<Pair>): (c: set<string>)
    ensures forall i :: 0 <= i < |r| ==> r[i].0 in c
    ensures forall m :: m in c ==> exists i :: 0 <= i < |r| && r[i].0 == m
  {
    if r == [] then {} else Chosen(r[..|r| - 1]) + {r[|r| - 1].0}
  }

  /** `r` is a best-first selection from the partition `z` for `protocol`:
      distinct members of `z` tagged with `protocol`, in non-increasing score
      order, none scored below a member left out. */
  predicate TopPicks(r: seq<Pair>, z: ZSet, protocol: string) {
    && (forall i :: 0 <= i < |r| ==> r[i].1 == protocol && r[i].0 in z)
    && (forall i, j :: 0 <= i < j < |r| ==> r[i].0 != r[j].0 && z[r[i].0] >= z[r[j].0])
    && (forall m, i :: m in z && m !in Chosen(r) && 0 <= i < |r| ==> z[m] <= z[r[i].0])
  }

  /** The pairs of the listed members, tagged with one protocol. */
  function Tag(s: seq<Entry>, protocol: string): (r: seq<Pair>)
    ensures |r| == |s| && forall i :: 0 <= i < |s| ==> r[i] == (s[i].member, protocol)
  {
    seq(|s|, i requires 0 <= i < |s| => (s[i].member, protocol))
  }

  /** A prefix of a non-increasing listing is a best-first selection. */
  lemma HeadIsTop(s: seq<Entry>, z: ZSet, k: nat, protocol: string)
    requires Listing(s, z) && NonIncreasing(s) && k <= |s|
    ensures TopPicks(Tag(s[..k], protocol), z, protocol)
  {
    var r := Tag(s[..k], protocol);
    assert forall i :: 0 <= i < |r| ==> r[i].1 == protocol && r[i].0 in z;
    assert forall i, j :: 0 <= i < j < |r| ==> r[i].0 != r[j].0 && z[r[i].0] >= z[r[j].0];
    HeadIsBest(s, z, k, protocol);
  }

  /** No member left out of a prefix of a non-increasing listing scores above
      one kept in it. */
  lemma HeadIsBest(s: seq<Entry>, z: ZSet, k: nat, protocol: string)
    requires Listing(s, z) && NonIncreasing(s) && k <= |s|
    ensures var r := Tag(s[..k], protocol);
      forall m, i :: m in z && m !in Chosen(r) && 0 <= i < |r| ==> r[i].0 in z && z[m] <= z[r[i].0]
  {
    var r := Tag(s[..k], protocol);
    forall m, i | m in z && m !in Chosen(r) && 0 <= i < |r| ensures r[i].0 in z && z[m] <= z[r[i].0] {
      HeadBeats(s, z, k, protocol, m, i);
    }
  }

  /** `HeadIsBest` for one member left out and one kept. */
  lemma HeadBeats(s: seq<Entry>, z: ZSet, k: nat, protocol: string, m: string, i: nat)
    requires Listing(s, z) && NonIncreasing(s) && i < k <= |s|
    requires m in z && m !in Chosen(Tag(s[..k], protocol))
    ensures s[i].member in z && z[m] <= z[s[i].member]
  {
    assert m in Members(s);
    var j :| 0 <= j < |s| && s[j].member == m;
    KeptIndex(s, k, protocol, j);
    assert s[i].score >= s[j].score;
  }

  /** A member listed before `k` is chosen by the prefix of length `k`. */
  lemma KeptIndex(s: seq<Entry>, k: nat, protocol: string, j: nat)
    requires k <= |s| && j < |s|
    ensures j < k ==> s[j].member in Chosen(Tag(s[..k], protocol))
  {
    if j < k {
      assert Tag(s[..k], protocol)[j].0 == s[j].member;
    }
  }

  /** The pairs of a best-first selection are distinct. */
  lemma TopPicksDistinct(r: seq<Pair>, z: ZSet, protocol: string)
    requires TopPicks(r, z, protocol)
    ensures forall a, b :: 0 <= a < b < |r| ==> r[a] != r[b]
    ensures Chosen(r) <= z.Keys
    ensures forall q :: q != protocol ==> Touched(r, q) == {}
    ensures Touched(r, protocol) == Chosen(r)
  {
    forall q ensures Touched(r, q) == if q == protocol then Chosen(r) else {} {
      forall m ensures m in Touched(r, q) <==> q == protocol && m in Chosen(r) {
        TouchedHas(r, q, m);
      }
    }
  }

  /** A member's score moved by at most one update. */
  ghost predicate Nudged(before: ZSet, after: ZSet) {
    && after.Keys == before.Keys
    && forall m :: m in before ==>
         after[m] == before[m] || after[m] == before[m] + 1 || after[m] == before[m] - 2
  }

  /** A batch over a best-first selection leaves its partition's members in
      place, moves each score at most once, and changes no other key. */
  lemma BatchNudges(st: Store, prefix: string, pairs: seq<Pair>, os: seq<Option<Verdict>>, protocol: string)
    requires |pairs| == |os| && TopPicks(pairs, PoolIn(st, prefix, protocol), protocol)
    ensures Nudged(PoolIn(st, prefix, protocol), PoolIn(ScoreAll(st, prefix, pairs, os), prefix, protocol))
    ensures forall k :: k != KeyOf(prefix, protocol) ==> Lookup(ScoreAll(st, prefix, pairs, os), k) == Lookup(st, k)
  {
    var z := PoolIn(st, prefix, protocol);
    var after := ScoreAll(st, prefix, pairs, os);
    TopPicksDistinct(pairs, z, protocol);
    forall m | m in z
      ensures m in PoolIn(after, prefix, protocol)
      ensures var w := PoolIn(after, prefix, protocol)[m]; w == z[m] || w == z[m] + 1 || w == z[m] - 2
    {
      MemberNudged(st, prefix, pairs, os, protocol, m);
    }
    ScoreAllAt(st, prefix, pairs, os, protocol, "");
    forall k | k != KeyOf(prefix, protocol) ensures Lookup(after, k) == Lookup(st, k) {
      ScoreAllElsewhere(st, prefix, pairs, os, k);
    }
  }

  /** `BatchNudges` for one member of the partition. */
  lemma MemberNudged(st: Store, prefix: string, pairs: seq<Pair>, os: seq<Option<Verdict>>, protocol: string, m: string)
    requires |pairs| == |os| && TopPicks(pairs, PoolIn(st, prefix, protocol), protocol)
    requires m in PoolIn(st, prefix, protocol)
    ensures m in PoolIn(ScoreAll(st, prefix, pairs, os), prefix, protocol)
    ensures var z, w := PoolIn(st, prefix, protocol), PoolIn(ScoreAll(st, prefix, pairs, os), prefix, protocol)[m];
      w == z[m] || w == z[m] + 1 || w == z[m] - 2
  {
    TopPicksDistinct(pairs, PoolIn(st, prefix, protocol), protocol);
    ScoreAllAt(st, prefix, pairs, os, protocol, m);
    if m in Chosen(pairs) {
      var i :| 0 <= i < |pairs| && pairs[i].0 == m;
      ScoreAllOnce(st, prefix, pairs, os, i);
    }
  }

  // ---- a whole run ----

  /** How many members a run tests: at most 20 of each listed partition. */
  function TestedCount(st: Store, prefix: string, ps: seq<string>): (n: nat)
    ensures n <= 20 * |ps|
  {
    if ps == [] then 0
    else TestedCount(st, prefix, ps[..|ps| - 1]) + HeadLength(|PoolIn(st, prefix, ps[|ps| - 1])|, 20)
  }

  /** The keys of the listed protocols' partitions. */
  function KeysOf(prefix: string, ps: seq<string>): set<string> {
    set p | p in ps :: KeyOf(prefix, p)
  }

  /** After testing the first `i` protocols of `ps`: their partitions were
      nudged, the rest are as they were, and so is every other key. */
  ghost predicate Progress(st: Store, now: Store, prefix: string, ps: seq<string>, i: nat)
    requires i <= |ps|
  {
    && (forall j :: 0 <= j < i ==> Nudged(PoolIn(st, prefix, ps[j]), PoolIn(now, prefix, ps[j])))
    && (forall j :: i <= j < |ps| ==> PoolIn(now, prefix, ps[j]) == PoolIn(st, prefix, ps[j]))
    && (forall k :: k !in KeysOf(prefix, ps[..i]) ==> Lookup(now, k) == Lookup(st, k))
  }

  /** Testing the next protocol's best members keeps `Progress`. */
  lemma ProgressStep(st: Store, before: Store, prefix: string, ps: seq<string>, i: nat,
                     pairs: seq<Pair>, os: seq<Option<Verdict>>)
    requires i < |ps| && |pairs| == |os|
    requires forall a, b :: 0 <= a < b < |ps| ==> ps[a] != ps[b]
    requires Progress(st, before, prefix, ps, i)
    requires TopPicks(pairs, PoolIn(before, prefix, ps[i]), ps[i])
    ensures PoolIn(before, prefix, ps[i]) == PoolIn(st, prefix, ps[i])
    ensures Progress(st, ScoreAll(before, prefix, pairs, os), prefix, ps, i + 1)
  {
    var after := ScoreAll(before, prefix, pairs, os);
    var key := KeyOf(prefix, ps[i]);
    BatchNudges(before, prefix, pairs, os, ps[i]);
    forall j | 0 <= j < |ps| && j != i ensures PoolIn(after, prefix, ps[j]) == PoolIn(before, prefix, ps[j]) {
      if KeyOf(prefix, ps[j]) == key {
        KeyInjective(prefix, ps[j], ps[i]);
      }
    }
    assert KeysOf(prefix, ps[..i + 1]) == KeysOf(prefix, ps[..i]) + {key} by {
      assert ps[..i + 1] == ps[..i] + [ps[i]];
    }
  }

  /** The tested count over one more protocol. */
  /** `Progress` over every protocol of `ps`, per protocol. */
  lemma ProgressDone(st: Store, now: Store, prefix: string, ps: seq<string>)
    requires Progress(st, now, prefix, ps, |ps|)
    ensures forall p :: p in ps ==> Nudged(PoolIn(st, prefix, p), PoolIn(now, prefix, p))
    ensures forall k :: k !in KeysOf(prefix, ps) ==> Lookup(now, k) == Lookup(st, k)
  {
    assert ps[..|ps|] == ps;
    forall p | p in ps ensures Nudged(PoolIn(st, prefix, p), PoolIn(now, prefix, p)) {
      var j :| 0 <= j < |ps| && ps[j] == p;
    }
  }

  lemma TestedCountStep(st: Store, prefix: string, ps: seq<string>, i: nat)
    requires i < |ps|
    ensures TestedCount(st, prefix, ps[..i + 1])
      == TestedCount(st, prefix, ps[..i]) + HeadLength(|PoolIn(st, prefix, ps[i])|, 20)
  {
    assert ps[..i + 1][..i] == ps[..i];
  }

  /** One step of `run_test`'s loop, on values: `Progress` moves on by one
      protocol, and the count by that protocol's number of tested members. */
  lemma TestStep(st: Store, before: Store, prefix: string, ps: seq<string>, i: nat,
                 pairs: seq<Pair>, os: seq<Option<Verdict>>, n: nat, tested: nat)
    requires i < |ps| && |pairs| == |os|
    requires forall a, b :: 0 <= a < b < |ps| ==> ps[a] != ps[b]
    requires Progress(st, before, prefix, ps, i) && tested == TestedCount(st, prefix, ps[..i])
    requires n == HeadLength(|PoolIn(before, prefix, ps[i])|, 20)
    requires TopPicks(pairs, PoolIn(before, prefix, ps[i]), ps[i])
    ensures Progress(st, ScoreAll(before, prefix, pairs, os), prefix, ps, i + 1)
    ensures tested + n == TestedCount(st, prefix, ps[..i + 1])
  {
    TestedCountStep(st, prefix, ps, i);
    ProgressStep(st, before, prefix, ps, i, pairs, os);
  }

  class ProxyTester {
    const client: RedisClient
    const testUrls: seq<string>

    constructor (client: RedisClient)
      ensures this.client == client && testUrls == ValidateUrls
    {
      this.client := client;
      testUrls := ValidateUrls;
    }

    /** `test_proxy`: probe the first two test URLs and average the time of
        the ones that answered 200. */
    method TestProxy(proxy: string, protocol: string, probe: Probe) returns (v: Verdict)
      ensures v == Judge(ProxyUrl(proxy, protocol), testUrls, probe)
    {
      var url := ProxyUrl(proxy, protocol);
      ghost var rs := Results(url, Probed(testUrls), probe);
      var successCount: nat := 0;
      var totalTime: real := 0.0;
      var n := if |testUrls| < 2 then |testUrls| else 2;
      for i := 0 to n
        invariant successCount == Successes(rs[..i]) && totalTime == SuccessTime(rs[..i])
      {
        var res := Single(probe(url, testUrls[i]));
        SuccessStep(rs, i);
        if res.0 {
          successCount := successCount + 1;
          totalTime := totalTime + res.1.s;
        }
      }
      assert rs[..n] == rs;
      if successCount > 0 {
        v := Valid(totalTime / successCount as real);
      } else {
        v := Invalid;
      }
    }

    /** `test_proxies_batch`: test every pair (a test that raises is
        `crashed`), then update each pair's score in order and count the
        passes. */
    method TestProxiesBatch(pairs: seq<Pair>, probe: Probe, crashed: (string, string) -> bool)
      returns (valid: nat)
      modifies client.redis
      ensures valid == CountPassed(Outcomes(pairs, testUrls, probe, crashed)) && valid <= |pairs|
      ensures client.redis != null ==>
        client.redis.data == ScoreAll(old(client.redis.data), client.keyPrefix, pairs,
                                      Outcomes(pairs, testUrls, probe, crashed))
    {
      var results := RunTests(pairs, probe, crashed);
      valid := UpdateScores(pairs, results);
    }

    /** The second loop of `test_proxies_batch`: one score update per pair,
        +1 for a pass and -2 otherwise, and the number of passes. */
    method UpdateScores(pairs: seq<Pair>, results: seq<Option<Verdict>>) returns (valid: nat)
      requires |results| == |pairs|
      modifies client.redis
      ensures valid == CountPassed(results)
      ensures client.redis != null ==>
        client.redis.data == ScoreAll(old(client.redis.data), client.keyPrefix, pairs, results)
    {
      ghost var st := if client.redis == null then map[] else client.redis.data;
      valid := 0;
      for i := 0 to |pairs|
        invariant valid == CountPassed(results[..i])
        invariant client.redis != null ==>
          client.redis.data == ScoreAll(st, client.keyPrefix, pairs[..i], results[..i])
      {
        assert results[..i + 1][..i] == results[..i];
        ScoreAllStep(st, client.keyPrefix, pairs, results, i);
        var passed := Passed(results[i]);
        if passed {
          valid := valid + 1;
        }
        var _, _ := client.UpdateProxyScore(pairs[i].0, pairs[i].1, passed);
      }
      assert pairs[..|pairs|] == pairs && results[..|results|] == results;
    }

    /** The `gather` of `test_proxies_batch`: every pair's outcome, in order. */
    method RunTests(pairs: seq<Pair>, probe: Probe, crashed: (string, string) -> bool)
      returns (results: seq<Option<Verdict>>)
      ensures results == Outcomes(pairs, testUrls, probe, crashed)
    {
      results := [];
      for i := 0 to |pairs|
        invariant results == Outcomes(pairs[..i], testUrls, probe, crashed)
      {
        var (proxy, protocol) := pairs[i];
        if crashed(proxy, protocol) {
          results := results + [None];
        } else {
          var v := TestProxy(proxy, protocol, probe);
          results := results + [Some(v)];
        }
      }
      assert pairs[..|pairs|] == pairs;
    }

    /** `get_proxies_to_test`: the partition read highest score first, cut to
        `proxies[:limit]`, each member tagged with the protocol. */
    method GetProxiesToTest(protocol: string := "http", limit: int := 50) returns (r: seq<Pair>)
      ensures |r| == HeadLength(|client.Pool(protocol)|, limit)
      ensures TopPicks(r, client.Pool(protocol), protocol)
    {
      var proxies := client.GetAllProxies(protocol);
      if proxies == [] {
        return [];
      }
      var k := HeadLength(|proxies|, limit);
      HeadIsTop(proxies, client.Pool(protocol), k, protocol);
      r := Tag(proxies[..k], protocol);
    }

    /** `run_test`: nothing when disconnected; otherwise, for each of the
        four protocols in turn, test up to 20 of its best members. Every
        member keeps its place, its score moves by at most one update, and
        nothing outside the four partitions changes. */
    method RunTest(probe: Probe, crashed: (string, string) -> bool) returns (tested: nat, valid: nat)
      modifies client.redis
      ensures client.redis == null ==> tested == 0 && valid == 0
      ensures valid <= tested <= 80
      ensures client.redis != null ==>
        tested == TestedCount(old(client.redis.data), client.keyPrefix, Protocols)
      ensures client.redis != null ==> forall p :: p in Protocols ==>
        Nudged(PoolIn(old(client.redis.data), client.keyPrefix, p), PoolIn(client.redis.data, client.keyPrefix, p))
      ensures client.redis != null ==> forall k :: k !in KeysOf(client.keyPrefix, Protocols) ==>
        Lookup(client.redis.data, k) == Lookup(old(client.redis.data), k)
    {
      if client.redis == null {
        return 0, 0;
      }
      tested, valid := TestEach(Protocols, probe, crashed);
    }

    /** The loop of `run_test` over a list of distinct protocols. */
    method TestEach(ps: seq<string>, probe: Probe, crashed: (string, string) -> bool) returns (tested: nat, valid: nat)
      requires client.redis != null
      requires forall a, b :: 0 <= a < b < |ps| ==> ps[a] != ps[b]
      modifies client.redis
      ensures valid <= tested <= 20 * |ps|
      ensures tested == TestedCount(old(client.redis.data), client.keyPrefix, ps)
      ensures forall p :: p in ps ==>
        Nudged(PoolIn(old(client.redis.data), client.keyPrefix, p), PoolIn(client.redis.data, client.keyPrefix, p))
      ensures forall k :: k !in KeysOf(client.keyPrefix, ps) ==>
        Lookup(client.redis.data, k) == Lookup(old(client.redis.data), k)
    {
      ghost var st := client.redis.data;
      tested, valid := 0, 0;
      for i := 0 to |ps|
        invariant valid <= tested == TestedCount(st, client.keyPrefix, ps[..i])
        invariant Progress(st, client.redis.data, client.keyPrefix, ps, i)
      {
        ghost var before := client.redis.data;
        var n, v, pairs, os := TestProtocol(ps[i], probe, crashed);
        TestStep(st, before, client.keyPrefix, ps, i, pairs, os, n, tested);
        tested := tested + n;
        valid := valid + v;
      }
      assert ps[..|ps|] == ps;
      ProgressDone(st, client.redis.data, client.keyPrefix, ps);
    }

    /** The body of `run_test`'s loop: test the 20 best members of one
        partition, when there are any. */
    method TestProtocol(protocol: string, probe: Probe, crashed: (string, string) -> bool)
      returns (n: nat, v: nat, ghost pairs: seq<Pair>, ghost os: seq<Option<Verdict>>)
      requires client.redis != null
      modifies client.redis
      ensures n == |pairs| == |os| == HeadLength(|old(client.Pool(protocol))|, 20) && v <= n
      ensures TopPicks(pairs, old(client.Pool(protocol)), protocol)
      ensures client.redis.data == ScoreAll(old(client.redis.data), client.keyPrefix, pairs, os)
    {
      var r := GetProxiesToTest(protocol, 20);
      pairs := r;
      os := Outcomes(r, testUrls, probe, crashed);
      n, v := 0, 0;
      if r != [] {
        v := TestProxiesBatch(r, probe, crashed);
        n := |r|;
      }
    }
  }
}
