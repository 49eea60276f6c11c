/** The scheduler (scheduler/scheduler.py): four periodic jobs (fetch, test,
    clean up, report) over the three clients' shared store, a first round of
    fetch, test and report at start, then a loop that runs whatever is due
    once a second until it is stopped. Time is whole seconds and a job takes
    no time; the network is the same oracle on every run. */
module Scheduler {
  import opened Wrappers
  import opened Settings
  import opened SortedSets
  import opened RedisStore
  import opened Db
  import opened Probing
  import opened Getter
  import opened Tester
  import opened Dedup

  // ---- clean-up ----

  /** The score below which the clean-up job removes a member. */
  const CleanBelow: int := 10

  /** The members the clean-up keeps: those scored at least 10. */
  function Survivors(z: ZSet): ZSet {
    Band(z, At(CleanBelow), Unbounded)
  }

  /** The store after cleaning one key: untouched when every member
      survives (no `ZREM` is issued), otherwise holding the survivors. */
  function CleanKey(st: Store, key: string): (r: Store)
    ensures Lookup(r, key) == Survivors(Lookup(st, key))
    ensures forall k :: k != key ==> Lookup(r, k) == Lookup(st, k)
  {
    var z := Lookup(st, key);
    if Survivors(z) == z then st else Bind(st, key, Survivors(z))
  }

  /** The store after cleaning the listed partitions, in order. */
  function CleanAll(st: Store, prefix: string, ps: seq<string>): Store {
    if ps == [] then st
    else CleanKey(CleanAll(st, prefix, ps[..|ps| - 1]), KeyOf(prefix, ps[|ps| - 1]))
  }

  /** Cleaning twice keeps what cleaning once keeps. */
  lemma SurvivorsIdempotent(z: ZSet)
    ensures Survivors(Survivors(z)) == Survivors(z)
  {
  }

  /** After cleaning, a listed partition holds exactly its members scored at
      least 10, with their scores; an unlisted one is as it was. */
  lemma {:induction false} CleanAllAt(st: Store, prefix: string, ps: seq<string>, p: string)
    ensures PoolIn(CleanAll(st, prefix, ps), prefix, p)
      == if p in ps then Survivors(PoolIn(st, prefix, p)) else PoolIn(st, prefix, p)
  {
    if ps != [] {
      var init := ps[..|ps| - 1];
      var q := ps[|ps| - 1];
      CleanAllAt(st, prefix, init, p);
      assert p in ps <==> p in init || p == q;
      if q != p {
        if KeyOf(prefix, q) == KeyOf(prefix, p) {
          KeyInjective(prefix, q, p);
        }
      } else if p in init {
        SurvivorsIdempotent(PoolIn(st, prefix, p));
      }
    }
  }

  /** Cleaning leaves every key outside the listed partitions as it was. */
  lemma {:induction false} CleanAllElsewhere(st: Store, prefix: string, ps: seq<string>, k: string)
    requires forall i :: 0 <= i < |ps| ==> k != KeyOf(prefix, ps[i])
    ensures Lookup(CleanAll(st, prefix, ps), k) == Lookup(st, k)
  {
    if ps != [] {
      CleanAllElsewhere(st, prefix, ps[..|ps| - 1], k);
    }
  }

  /** A store whose listed partitions hold no member below 10 is left as it
      is by the clean-up. */
  lemma {:induction false} CleanAllFixed(st: Store, prefix: string, ps: seq<string>)
    requires forall i :: 0 <= i < |ps| ==> Survivors(PoolIn(st, prefix, ps[i])) == PoolIn(st, prefix, ps[i])
    ensures CleanAll(st, prefix, ps) == st
  {
    if ps != [] {
      CleanAllFixed(st, prefix, ps[..|ps| - 1]);
    }
  }

  /** A second clean-up right after the first changes nothing. */
  lemma CleanIdempotent(st: Store, prefix: string, ps: seq<string>)
    ensures CleanAll(CleanAll(st, prefix, ps), prefix, ps) == CleanAll(st, prefix, ps)
  {
    var once := CleanAll(st, prefix, ps);
    forall i | 0 <= i < |ps|
      ensures Survivors(PoolIn(once, prefix, ps[i])) == PoolIn(once, prefix, ps[i])
    {
      CleanAllAt(st, prefix, ps, ps[i]);
      SurvivorsIdempotent(PoolIn(st, prefix, ps[i]));
    }
    CleanAllFixed(once, prefix, ps);
  }

  /** The store part-way through cleaning one key: untouched while nothing
      has been removed, otherwise the set without the removed members. */
  function Pruned(st: Store, key: string, low: set<string>): Store {
    if low == {} then st else Bind(st, key, Lookup(st, key) - low)
  }

  /** Removing one more member continues the pruning. */
  lemma PruneStep(st: Store, key: string, low: set<string>, m: string)
    ensures Bind(Pruned(st, key, low), key, Lookup(Pruned(st, key, low), key) - {m})
      == Pruned(st, key, low + {m})
  {
    var z := Lookup(st, key);
    if low == {} {
      assert low + {m} == {m};
    } else {
      BindTwice(st, key, z - low, (z - low) - {m});
      assert (z - low) - {m} == z - (low + {m});
    }
  }

  /** Pruning the low members of a listing is cleaning its key. */
  lemma PrunedClean(st: Store, key: string, s: seq<Entry>)
    requires Listing(s, Lookup(st, key))
    ensures Pruned(st, key, LowOf(s)) == CleanKey(st, key)
  {
    var z := Lookup(st, key);
    LowOfListing(s, z);
    if LowOf(s) != {} {
      var m :| m in LowOf(s);
      assert m in z && m !in Survivors(z);
    } else {
      assert z - {} == z;
    }
  }

  /** The listed members scored below 10. */
  function LowOf(s: seq<Entry>): (r: set<string>)
    ensures r <= Members(s)
  {
    if s == [] then {}
    else LowOf(s[..|s| - 1]) + (if s[|s| - 1].score < CleanBelow then {s[|s| - 1].member} else {})
  }

  /** Removing the low members of a listing leaves the survivors. */
  lemma {:induction false} LowOfListing(s: seq<Entry>, z: ZSet)
    requires Listing(s, z)
    ensures z - LowOf(s) == Survivors(z)
  {
    if s != [] {
      var init := s[..|s| - 1];
      var last := s[|s| - 1];
      var rest := z - {last.member};
      ListingInit(s, z);
      LowOfListing(init, rest);
      assert last.member !in LowOf(init);
      forall m ensures m in z - LowOf(s) <==> m in Survivors(z) {
        if m != last.member {
          assert m in z - LowOf(s) <==> m in rest - LowOf(init);
          assert m in Survivors(z) <==> m in Survivors(rest);
        }
      }
      assert (z - LowOf(s)).Keys == Survivors(z).Keys;
    } else {
      assert z.Keys == Members(s) == {};
    }
  }

  /** One step of the clean-up's inner loop. */
  /** One step of `cleanup_job`'s loop, on values: removing the next member
      when its score is low, or keeping the store, prunes one entry more. */
  lemma CleanStep(st: Store, key: string, s: seq<Entry>, j: nat, now: Store)
    requires j < |s| && now == Pruned(st, key, LowOf(s[..j]))
    ensures s[j].score < CleanBelow ==>
      Bind(now, key, Lookup(now, key) - {s[j].member}) == Pruned(st, key, LowOf(s[..j + 1]))
    ensures s[j].score >= CleanBelow ==> now == Pruned(st, key, LowOf(s[..j + 1]))
  {
    var low := LowOf(s[..j]);
    LowOfStep(s, j);
    if s[j].score < CleanBelow {
      assert LowOf(s[..j + 1]) == low + {s[j].member};
      PruneStep(st, key, low, s[j].member);
    } else {
      assert LowOf(s[..j + 1]) == low + {};
      assert low + {} == low;
    }
  }

  /** After the whole listing, the pruned store is the cleaned one. */
  lemma CleanDone(st: Store, key: string, s: seq<Entry>)
    requires Listing(s, Lookup(st, key))
    ensures Pruned(st, key, LowOf(s[..|s|])) == CleanKey(st, key)
  {
    assert s[..|s|] == s;
    PrunedClean(st, key, s);
  }

  lemma LowOfStep(s: seq<Entry>, j: nat)
    requires j < |s|
    ensures LowOf(s[..j + 1]) == LowOf(s[..j]) + (if s[j].score < CleanBelow then {s[j].member} else {})
  {
    assert s[..j + 1][..j] == s[..j];
  }

  // ---- the schedule ----

  /** The four periodic jobs. */
  datatype Job = Fetching | Testing | CleaningUp | Reporting

  /** Each job's interval in seconds. */
  function Interval(job: Job): (n: nat)
    ensures n > 0
  {
    match job
    case Fetching => FetchInterval
    case Testing => ValidateInterval
    case CleaningUp => CleanInterval
    case Reporting => StatsInterval
  }

  /** `setup_schedule` registers the jobs in this order. */
  const Registered: seq<Job> := [Fetching, Testing, CleaningUp, Reporting]

  /** The jobs of `jobs` due at second `t` (counted from setup), in order. */
  function DueIn(jobs: seq<Job>, t: nat): (r: seq<Job>)
    ensures |r| <= |jobs|
  {
    if jobs == [] then []
    else DueIn(jobs[..|jobs| - 1], t) + (if t % Interval(jobs[|jobs| - 1]) == 0 then [jobs[|jobs| - 1]] else [])
  }

  /** `run_pending` at second `t`. */
  function DueAt(t: nat): seq<Job> {
    DueIn(Registered, t)
  }

  /** Every job run in seconds 1 to `t`, in the order run. */
  function Timeline(t: nat): seq<Job> {
    if t == 0 then [] else Timeline(t - 1) + DueAt(t)
  }

  /** How many times `job` occurs in `jobs`. */
  function Occurrences(jobs: seq<Job>, job: Job): nat {
    if jobs == [] then 0
    else Occurrences(jobs[..|jobs| - 1], job) + (if jobs[|jobs| - 1] == job then 1 else 0)
  }

  lemma {:induction false} OccurrencesAppend(a: seq<Job>, b: seq<Job>, job: Job)
    ensures Occurrences(a + b, job) == Occurrences(a, job) + Occurrences(b, job)
  {
    if b != [] {
      assert (a + b)[..|a + b| - 1] == a + b[..|b| - 1];
      OccurrencesAppend(a, b[..|b| - 1], job);
    } else {
      assert a + b == a;
    }
  }

  /** No job is listed twice. */
  predicate Unrepeated(jobs: seq<Job>) {
    forall i, j :: 0 <= i < j < |jobs| ==> jobs[i] != jobs[j]
  }

  /** A job listed once runs at `t` exactly when its interval divides `t`;
      an unlisted one does not run. */
  lemma {:induction false} DueInOnce(jobs: seq<Job>, t: nat, job: Job)
    requires Unrepeated(jobs)
    ensures Occurrences(DueIn(jobs, t), job) == if job in jobs && t % Interval(job) == 0 then 1 else 0
  {
    if jobs != [] {
      var init := jobs[..|jobs| - 1];
      var last := jobs[|jobs| - 1];
      var extra := if t % Interval(last) == 0 then [last] else [];
      DueInOnce(init, t, job);
      OccurrencesAppend(DueIn(init, t), extra, job);
      assert extra == [] || extra[..0] == [];
      assert job in jobs <==> job in init || job == last;
      if job == last {
        assert job !in init by {
          forall i | 0 <= i < |init| ensures init[i] != job {
            assert init[i] == jobs[i];
          }
        }
      }
    }
  }

  /** At second `t`, `run_pending` runs each job once when its interval
      divides `t`, and not at all otherwise. */
  lemma DueOnce(t: nat, job: Job)
    ensures Occurrences(DueAt(t), job) == if t % Interval(job) == 0 then 1 else 0
  {
    DueInOnce(Registered, t, job);
  }

  /** The quotient and remainder of Euclidean division are the only ones. */
  lemma {:induction false} DivUnique(t: int, n: int, q: int, r: int)
    requires n > 0 && t == q * n + r && 0 <= r < n
    ensures t / n == q && t % n == r
  {
    var q0 := t / n;
    var r0 := t % n;
    assert t == q0 * n + r0 && 0 <= r0 < n;
    assert (q - q0) * n == r0 - r;
    if q > q0 {
      MulAtLeast(q - q0, n);
    } else if q < q0 {
      MulAtLeast(q0 - q, n);
    }
  }

  lemma MulAtLeast(k: int, n: int)
    requires k >= 1 && n > 0
    ensures k * n >= n
  {
    assert k * n == (k - 1) * n + n;
  }

  /** One more second adds a run exactly when `t` is a multiple. */
  lemma QuotientStep(t: nat, n: nat)
    requires t > 0 && n > 0
    ensures t / n == (t - 1) / n + (if t % n == 0 then 1 else 0)
  {
    var q := (t - 1) / n;
    var r := (t - 1) % n;
    assert t - 1 == q * n + r && 0 <= r < n;
    if r == n - 1 {
      assert t == (q + 1) * n + 0;
      DivUnique(t, n, q + 1, 0);
    } else {
      assert t == q * n + (r + 1);
      DivUnique(t, n, q, r + 1);
    }
  }

  /** Over the first `t` seconds each job runs once per full interval. */
  lemma {:induction false} RunsPerInterval(t: nat, job: Job)
    ensures Occurrences(Timeline(t), job) == t / Interval(job)
  {
    if t > 0 {
      var n := Interval(job);
      var before := Occurrences(Timeline(t - 1), job);
      var now := Occurrences(DueAt(t), job);
      RunsPerInterval(t - 1, job);
      assert before == (t - 1) / n;
      OccurrencesAppend(Timeline(t - 1), DueAt(t), job);
      assert Occurrences(Timeline(t), job) == before + now;
      DueOnce(t, job);
      assert now == if t % n == 0 then 1 else 0;
      QuotientStep(t, n);
    }
  }

  class ProxyScheduler {
    var running: bool
    const getter: ProxyGetter
    const tester: ProxyTester
    const client: RedisClient

    /** A stopped scheduler over a getter, a tester and its own client. */
    constructor (getter: ProxyGetter, tester: ProxyTester, client: RedisClient)
      ensures !running && this.getter == getter && this.tester == tester && this.client == client
    {
      running := false;
      this.getter := getter;
      this.tester := tester;
      this.client := client;
    }

    /** `fetch_job`: one run of the getter. */
    method FetchJob(responses: seq<Response>)
      requires |responses| == |ProxySources|
      modifies getter.client.redis
      ensures getter.client.redis != null ==>
        getter.client.redis.data ==
          AdmitAll(old(getter.client.redis.data), getter.client.keyPrefix,
                   Unique(Fetched(ProxySources, responses), PairOf))
    {
      var _, _ := getter.Run(responses);
    }

    /** `test_job`: one run of the tester. */
    method TestJob(probe: Probe, crashed: (string, string) -> bool)
      modifies tester.client.redis
      ensures tester.client.redis != null ==> forall p :: p in Protocols ==>
        Nudged(PoolIn(old(tester.client.redis.data), tester.client.keyPrefix, p),
               PoolIn(tester.client.redis.data, tester.client.keyPrefix, p))
      ensures tester.client.redis != null ==> forall k :: k !in KeysOf(tester.client.keyPrefix, Protocols) ==>
        Lookup(tester.client.redis.data, k) == Lookup(old(tester.client.redis.data), k)
    {
      var _, _ := tester.RunTest(probe, crashed);
    }

    /** `cleanup_job`: remove every member scored below 10 from each of the
        four partitions; nothing else changes. */
    method CleanupJob()
      modifies client.redis
      ensures client.redis != null ==>
        client.redis.data == CleanAll(old(client.redis.data), client.keyPrefix, Protocols)
    {
      if client.redis == null {
        return;
      }
      CleanEach(Protocols);
    }

    /** The outer loop of `cleanup_job`. */
    method CleanEach(ps: seq<string>)
      requires client.redis != null
      modifies client.redis
      ensures client.redis.data == CleanAll(old(client.redis.data), client.keyPrefix, ps)
    {
      ghost var st := client.redis.data;
      for i := 0 to |ps|
        invariant client.redis.data == CleanAll(st, client.keyPrefix, ps[..i])
      {
        assert ps[..i + 1][..i] == ps[..i];
        CleanPartition(ps[i]);
      }
      assert ps[..|ps|] == ps;
    }

    /** The inner loop of `cleanup_job`: read the partition, then remove each
        listed member scored below 10. */
    method CleanPartition(protocol: string)
      requires client.redis != null
      modifies client.redis
      ensures client.redis.data == CleanKey(old(client.redis.data), client.Key(protocol))
    {
      ghost var before := client.redis.data;
      var proxies := client.GetAllProxies(protocol);
      for j := 0 to |proxies|
        invariant client.redis.data == Pruned(before, client.Key(protocol), LowOf(proxies[..j]))
      {
        CleanStep(before, client.Key(protocol), proxies, j, client.redis.data);
        if proxies[j].score < CleanBelow {
          var _ := client.RemoveProxy(proxies[j].member, protocol);
        }
      }
      CleanDone(before, client.Key(protocol), proxies);
    }

    /** `stats_job`: the number of members of the four partitions. */
    method StatsJob() returns (total: nat)
      ensures client.redis == null ==> total == 0
      ensures client.redis != null ==> total == CountOver(client.redis.data, client.keyPrefix, Protocols)
    {
      total := CountEach(Protocols);
    }

    /** The loop of `stats_job`. */
    method CountEach(ps: seq<string>) returns (total: nat)
      ensures client.redis == null ==> total == 0
      ensures client.redis != null ==> total == CountOver(client.redis.data, client.keyPrefix, ps)
    {
      total := 0;
      for i := 0 to |ps|
        invariant client.redis == null ==> total == 0
        invariant client.redis != null ==> total == CountOver(client.redis.data, client.keyPrefix, ps[..i])
      {
        assert ps[..i + 1][..i] == ps[..i];
        var count := client.GetProxyCount(ps[i]);
        total := total + count;
      }
      assert ps[..|ps|] == ps;
    }

    /** Run one job. */
    method RunJob(job: Job, responses: seq<Response>, probe: Probe, crashed: (string, string) -> bool)
      requires |responses| == |ProxySources|
      modifies getter.client.redis, tester.client.redis, client.redis
    {
      match job
      case Fetching => FetchJob(responses);
      case Testing => TestJob(probe, crashed);
      case CleaningUp => CleanupJob();
      case Reporting => var _ := StatsJob();
    }

    /** `run_pending` at second `t`: every job due, in registration order. */
    method RunPending(t: nat, responses: seq<Response>, probe: Probe, crashed: (string, string) -> bool)
      returns (ran: seq<Job>)
      requires |responses| == |ProxySources|
      modifies getter.client.redis, tester.client.redis, client.redis
      ensures ran == DueAt(t)
    {
      var due := DueAt(t);
      ran := [];
      for i := 0 to |due|
        invariant ran == due[..i]
      {
        RunJob(due[i], responses, probe, crashed);
        ran := ran + [due[i]];
      }
    }

    /** `run_schedule`: while running, run what is due and wait a second.
        The `stop` another thread may call is modelled as arriving after
        `stopAfter` seconds. */
    method RunSchedule(stopAfter: nat, responses: seq<Response>, probe: Probe, crashed: (string, string) -> bool)
      returns (ran: seq<Job>)
      requires running && |responses| == |ProxySources|
      modifies this, getter.client.redis, tester.client.redis, client.redis
      ensures !running && ran == Timeline(stopAfter)
    {
      var t := 0;
      ran := [];
      while running
        invariant t <= stopAfter && ran == Timeline(t)
        invariant !running ==> t == stopAfter
        decreases stopAfter - t, running
      {
        if t == stopAfter {
          Stop();
        } else {
          t := t + 1;
          var due := RunPending(t, responses, probe, crashed);
          ran := ran + due;
        }
      }
    }

    /** `start`: nothing when the client is disconnected; otherwise mark the
        scheduler running, run fetch, test and stats once, then the loop. */
    method Start(stopAfter: nat, responses: seq<Response>, probe: Probe, crashed: (string, string) -> bool)
      returns (ran: seq<Job>)
      requires |responses| == |ProxySources|
      modifies this, getter.client.redis, tester.client.redis, client.redis
      ensures client.redis == null ==> ran == [] && running == old(running)
      ensures client.redis == null && getter.client.redis != null ==> unchanged(getter.client.redis)
      ensures client.redis == null && tester.client.redis != null ==> unchanged(tester.client.redis)
      ensures client.redis != null ==> !running && ran == [Fetching, Testing, Reporting] + Timeline(stopAfter)
    {
      if client.redis == null {
        return [];
      }
      running := true;
      FetchJob(responses);
      TestJob(probe, crashed);
      var _ := StatsJob();
      var rest := RunSchedule(stopAfter, responses, probe, crashed);
      ran := [Fetching, Testing, Reporting] + rest;
    }

    /** `stop`. */
    method Stop()
      modifies this
      ensures !running
    {
      running := false;
    }
  }
}
