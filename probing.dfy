/** Probing a proxy, as the tester (tester/proxy_tester.py) and the validator
    (core/validator.py) both do: a GET of each of the first two test URLs
    through the proxy; the proxy is good when at least one answers 200, and
    its latency is the mean time of the answers that did. The network is an
    oracle: `probe(proxyUrl, testUrl)` says what one GET produced. */
module Probing {
  /** One GET through a proxy: it raised (timeout, refused connection, bad
      proxy URL) or a response came back with a status after some seconds. */
  datatype ProbeResult = Raised | Responded(status: int, elapsed: real)

  /** A latency in seconds, or `float('inf')`. */
  datatype Latency = Seconds(s: real) | Infinite

  /** The network, seen from the prober: what a GET of the test URL (second
      argument) through the proxy URL (first argument) produces. */
  type Probe = (string, string) -> ProbeResult

  /** A GET counted as a success. */
  predicate Answered(r: ProbeResult) {
    r.Responded? && r.status == 200
  }

  /** `test_single_proxy` / `validate_single`: success exactly on status 200,
      with the elapsed time of any response and `inf` after an exception. */
  function Single(r: ProbeResult): (res: (bool, Latency))
    ensures res.0 <==> Answered(r)
    ensures res.1.Infinite? <==> r.Raised?
    ensures r.Responded? ==> res.1 == Seconds(r.elapsed)
  {
    match r
    case Raised => (false, Infinite)
    case Responded(status, elapsed) => (status == 200, Seconds(elapsed))
  }

  /** The test URLs a probe visits: `range(min(2, len(test_urls)))`. */
  function Probed(urls: seq<string>): (r: seq<string>)
    ensures |r| <= 2 && |r| <= |urls| && r == urls[..|r|]
    ensures |r| == 2 || r == urls
  {
    if |urls| < 2 then urls else urls[..2]
  }

  /** What each of `urls` produces through `proxyUrl`, in order. */
  function Results(proxyUrl: string, urls: seq<string>, probe: Probe): (rs: seq<ProbeResult>)
    ensures |rs| == |urls|
    ensures forall i :: 0 <= i < |urls| ==> rs[i] == probe(proxyUrl, urls[i])
  {
    seq(|urls|, i requires 0 <= i < |urls| => probe(proxyUrl, urls[i]))
  }

  /** `success_count`. */
  function Successes(rs: seq<ProbeResult>): (n: nat)
    ensures n <= |rs|
  {
    if rs == [] then 0
    else Successes(rs[..|rs| - 1]) + (if Answered(rs[|rs| - 1]) then 1 else 0)
  }

  /** `total_time`: the seconds of the successes only. */
  function SuccessTime(rs: seq<ProbeResult>): real {
    if rs == [] then 0.0
    else SuccessTime(rs[..|rs| - 1]) + (if Answered(rs[|rs| - 1]) then rs[|rs| - 1].elapsed else 0.0)
  }

  /** The answer of `test_proxy` / `validate_proxy`: good with a mean latency,
      or bad (`False, inf`). */
  datatype Verdict = Valid(avg: real) | Invalid

  function VerdictOf(rs: seq<ProbeResult>): Verdict {
    var n := Successes(rs);
    if n > 0 then Valid(SuccessTime(rs) / n as real) else Invalid
  }

  /** The verdict of a proxy URL over a list of test URLs. */
  function Judge(proxyUrl: string, urls: seq<string>, probe: Probe): Verdict {
    VerdictOf(Results(proxyUrl, Probed(urls), probe))
  }

  /** One more GET: the counters of the loop move only for a success. */
  lemma SuccessStep(rs: seq<ProbeResult>, i: nat)
    requires i < |rs|
    ensures Successes(rs[..i + 1]) == Successes(rs[..i]) + (if Answered(rs[i]) then 1 else 0)
    ensures SuccessTime(rs[..i + 1]) == SuccessTime(rs[..i]) + (if Answered(rs[i]) then rs[i].elapsed else 0.0)
  {
    assert rs[..i + 1][..i] == rs[..i];
  }

  /** A proxy is good exactly when some visited URL answered 200. */
  lemma {:induction false} ValidIffAnswered(rs: seq<ProbeResult>)
    ensures VerdictOf(rs).Valid? <==> exists i :: 0 <= i < |rs| && Answered(rs[i])
  {
    if rs != [] {
      var init := rs[..|rs| - 1];
      ValidIffAnswered(init);
      if Successes(init) > 0 {
        var i :| 0 <= i < |init| && Answered(init[i]);
        assert rs[i] == init[i];
      }
      if exists i :: 0 <= i < |rs| && Answered(rs[i]) {
        var i :| 0 <= i < |rs| && Answered(rs[i]);
        if i < |init| {
          assert init[i] == rs[i];
        }
      }
    }
  }

  /** `n` times `x`, as a sum. */
  function Times(n: nat, x: real): real {
    if n == 0 then 0.0 else Times(n - 1, x) + x
  }

  lemma {:induction false} TimesIsProduct(n: nat, x: real)
    ensures Times(n, x) == n as real * x
  {
    if n > 0 {
      TimesIsProduct(n - 1, x);
      assert n as real * x == (n - 1) as real * x + x;
    }
  }

  /** The success time lies between the success count times the least and
      the greatest latency of a success. */
  lemma {:induction false} SuccessTimeBounds(rs: seq<ProbeResult>, lo: real, hi: real)
    requires forall i :: 0 <= i < |rs| && Answered(rs[i]) ==> lo <= rs[i].elapsed <= hi
    ensures Times(Successes(rs), lo) <= SuccessTime(rs) <= Times(Successes(rs), hi)
  {
    if rs != [] {
      var init := rs[..|rs| - 1];
      assert forall i :: 0 <= i < |init| ==> init[i] == rs[i];
      SuccessTimeBounds(init, lo, hi);
    }
  }

  /** A quotient by a positive count lies within the bounds its dividend
      has as that many times a least and a greatest value. */
  lemma QuotientWithin(t: real, k: nat, lo: real, hi: real)
    requires k > 0 && Times(k, lo) <= t <= Times(k, hi)
    ensures lo <= t / k as real <= hi
  {
    TimesIsProduct(k, lo);
    TimesIsProduct(k, hi);
    var n := k as real;
    var q := t / n;
    assert q * n == t;
    assert (q - lo) * n == t - n * lo;
    assert (hi - q) * n == n * hi - t;
  }

  /** The mean latency of a good proxy lies between the least and the
      greatest latency of its successes. */
  lemma AverageWithin(rs: seq<ProbeResult>, lo: real, hi: real)
    requires forall i :: 0 <= i < |rs| && Answered(rs[i]) ==> lo <= rs[i].elapsed <= hi
    ensures VerdictOf(rs).Valid? ==> lo <= VerdictOf(rs).avg <= hi
  {
    var k, t := Successes(rs), SuccessTime(rs);
    if k > 0 {
      SuccessTimeBounds(rs, lo, hi);
      QuotientWithin(t, k, lo, hi);
      assert VerdictOf(rs) == Valid(t / k as real);
    }
  }
}
