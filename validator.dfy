/** The core package's validator (core/validator.py): probe each `Proxy`
    through its own URL, keep the good ones in their order, and record the
    mean latency on each good one. */
module Validator {
  import opened Wrappers
  import opened Settings
  import opened CoreProxy
  import opened Probing

  /** The verdict on one proxy. */
  function VerdictFor(p: Proxy, urls: seq<string>, probe: Probe): Verdict {
    Judge(p.Url(), urls, probe)
  }

  /** The good proxies of a list, in their order. */
  function GoodOnes(proxies: seq<Proxy>, urls: seq<string>, probe: Probe): (r: seq<Proxy>)
    ensures |r| <= |proxies|
  {
    if proxies == [] then []
    else
      var r := GoodOnes(proxies[..|proxies| - 1], urls, probe);
      if VerdictFor(proxies[|proxies| - 1], urls, probe).Valid? then r + [proxies[|proxies| - 1]] else r
  }

  /** The good ones are exactly the proxies of the list whose verdict is good. */
  lemma {:induction false} GoodOnesExact(proxies: seq<Proxy>, urls: seq<string>, probe: Probe)
    ensures forall p :: p in GoodOnes(proxies, urls, probe) <==> p in proxies && VerdictFor(p, urls, probe).Valid?
  {
    if proxies != [] {
      var init := proxies[..|proxies| - 1];
      var last := proxies[|proxies| - 1];
      GoodOnesExact(init, urls, probe);
      assert proxies == init + [last];
    }
  }

  /** The response time a proxy has after `validate_proxies`: the mean
      latency when it proved good, the one it had otherwise. */
  function Timed(previous: Option<real>, v: Verdict): Option<real> {
    if v.Valid? then Some(v.avg) else previous
  }

  /** The fields of a proxy `validate_proxies` never writes. */
  ghost predicate Kept(p: Proxy, score: int, lastChecked: Option<int>, country: Option<string>, anonymous: bool)
    reads p
  {
    p.score == score && p.lastChecked == lastChecked && p.country == country && p.anonymous == anonymous
  }

  class ProxyValidator {
    const testUrls: seq<string>

    constructor ()
      ensures testUrls == ValidateUrls
    {
      testUrls := ValidateUrls;
    }

    /** `validate_proxy`: probe the first two test URLs through `proxy.url`
        and average the time of the ones that answered 200. */
    method ValidateProxy(proxy: Proxy, probe: Probe) returns (v: Verdict)
      ensures v == VerdictFor(proxy, testUrls, probe)
    {
      var url := proxy.Url();
      ghost var rs := Results(url, Probed(testUrls), probe);
      var successCount: nat := 0;
      var totalTime: real := 0.0;
      var n := if |testUrls| < 2 then |testUrls| else 2;
      for i := 0 to n
        invariant successCount == Successes(rs[..i]) && totalTime == SuccessTime(rs[..i])
      {
        var res := Single(probe(url, testUrls[i]));
        SuccessStep(rs, i);
        if res.0 {
          successCount := successCount + 1;
          totalTime := totalTime + res.1.s;
        }
      }
      assert rs[..n] == rs;
      if successCount > 0 {
        v := Valid(totalTime / successCount as real);
      } else {
        v := Invalid;
      }
    }

    /** The `gather` of `validate_proxies`: every proxy's verdict, in order. */
    method ValidateEach(proxies: seq<Proxy>, probe: Probe) returns (verdicts: seq<Verdict>)
      ensures |verdicts| == |proxies|
      ensures forall i :: 0 <= i < |proxies| ==> verdicts[i] == VerdictFor(proxies[i], testUrls, probe)
    {
      verdicts := [];
      for i := 0 to |proxies|
        invariant |verdicts| == i
        invariant forall j :: 0 <= j < i ==> verdicts[j] == VerdictFor(proxies[j], testUrls, probe)
      {
        var v := ValidateProxy(proxies[i], probe);
        VerdictsStep(proxies, verdicts, i, v, testUrls, probe);
        verdicts := verdicts + [v];
      }
    }

    /** `validate_proxies`: the good proxies in their order, each with its
        mean latency recorded as its response time; the others, and every
        other field, as they were. */
    method ValidateProxies(proxies: seq<Proxy>, probe: Probe) returns (valid: seq<Proxy>)
      modifies (set p | p in proxies)`responseTime
      ensures valid == GoodOnes(proxies, testUrls, probe)
      ensures forall p :: p in proxies ==>
        p.responseTime == Timed(old(p.responseTime), VerdictFor(p, testUrls, probe))
      ensures forall p :: p in proxies ==>
        Kept(p, old(p.score), old(p.lastChecked), old(p.country), old(p.anonymous))
    {
      var verdicts := ValidateEach(proxies, probe);
      valid := Record(proxies, verdicts);
      KeepGood(proxies, verdicts, testUrls, probe);
      forall p | p in proxies
        ensures p.responseTime == Timed(old(p.responseTime), VerdictFor(p, testUrls, probe))
      {
        var j :| 0 <= j < |proxies| && proxies[j] == p;
      }
    }
  }

  /** One step of the `gather`: one verdict more, in its place. */
  lemma VerdictsStep(proxies: seq<Proxy>, verdicts: seq<Verdict>, i: nat, v: Verdict, urls: seq<string>, probe: Probe)
    requires i < |proxies| && |verdicts| == i && v == VerdictFor(proxies[i], urls, probe)
    requires forall j :: 0 <= j < i ==> verdicts[j] == VerdictFor(proxies[j], urls, probe)
    ensures forall j :: 0 <= j < i + 1 ==> (verdicts + [v])[j] == VerdictFor(proxies[j], urls, probe)
  {
    forall j | 0 <= j < i + 1 ensures (verdicts + [v])[j] == VerdictFor(proxies[j], urls, probe) {
      if j < i {
        assert (verdicts + [v])[j] == verdicts[j];
      }
    }
  }

  /** The proxies whose verdict is good, in order. */
  function Keep(proxies: seq<Proxy>, verdicts: seq<Verdict>): seq<Proxy>
    requires |verdicts| == |proxies|
  {
    if proxies == [] then []
    else
      Keep(proxies[..|proxies| - 1], verdicts[..|verdicts| - 1])
      + (if verdicts[|verdicts| - 1].Valid? then [proxies[|proxies| - 1]] else [])
  }

  /** Keeping by each proxy's own verdict keeps the good ones. */
  lemma {:induction false} KeepGood(proxies: seq<Proxy>, verdicts: seq<Verdict>, urls: seq<string>, probe: Probe)
    requires |verdicts| == |proxies|
    requires forall i :: 0 <= i < |proxies| ==> verdicts[i] == VerdictFor(proxies[i], urls, probe)
    ensures Keep(proxies, verdicts) == GoodOnes(proxies, urls, probe)
  {
    if proxies != [] {
      KeepGood(proxies[..|proxies| - 1], verdicts[..|verdicts| - 1], urls, probe);
    }
  }

  /** One step of the recording loop. */
  lemma KeepStep(proxies: seq<Proxy>, verdicts: seq<Verdict>, i: nat)
    requires |verdicts| == |proxies| && i < |proxies|
    ensures Keep(proxies[..i + 1], verdicts[..i + 1]) ==
      Keep(proxies[..i], verdicts[..i]) + (if verdicts[i].Valid? then [proxies[i]] else [])
  {
    assert proxies[..i + 1][..i] == proxies[..i];
    assert verdicts[..i + 1][..i] == verdicts[..i];
  }

  /** The loop of `validate_proxies` over the gathered verdicts: record the
      mean latency on each good proxy and collect it. The same proxy listed
      twice has the same verdict twice. */
  method Record(proxies: seq<Proxy>, verdicts: seq<Verdict>) returns (valid: seq<Proxy>)
    requires |verdicts| == |proxies|
    requires forall j, k :: 0 <= j < |proxies| && 0 <= k < |proxies| && proxies[j] == proxies[k] ==>
      verdicts[j] == verdicts[k]
    modifies (set p | p in proxies)`responseTime
    ensures valid == Keep(proxies, verdicts)
    ensures forall j :: 0 <= j < |proxies| ==>
      proxies[j].responseTime == Timed(old(proxies[j].responseTime), verdicts[j])
  {
    valid := [];
    for i := 0 to |proxies|
      invariant valid == Keep(proxies[..i], verdicts[..i])
      invariant forall j :: 0 <= j < i ==>
        proxies[j].responseTime == Timed(old(proxies[j].responseTime), verdicts[j])
      invariant forall j :: i <= j < |proxies| && (forall l :: 0 <= l < i ==> proxies[l] != proxies[j]) ==>
        proxies[j].responseTime == old(proxies[j].responseTime)
    {
      KeepStep(proxies, verdicts, i);
      var proxy := proxies[i];
      if verdicts[i].Valid? {
        proxy.responseTime := Some(verdicts[i].avg);
        valid := valid + [proxy];
      }
    }
    assert proxies[..|proxies|] == proxies && verdicts[..|verdicts|] == verdicts;
  }
}
