/** The core package's fetcher (core/fetcher.py): the same line filter as the
    standalone getter, but every considered line goes through
    `Proxy.from_string`, and duplicates are dropped by address alone. */
module Fetcher {
  import opened Wrappers
  import opened Text
  import opened Settings
  import opened Dedup
  import opened CoreProxy
  import opened Getter

  /** The identity one raw line yields: the stripped line, when considered,
      read by `from_string`; a line on which it raises yields nothing. */
  function LineIdentity(raw: string, protocol: string): (r: Option<Identity>)
    ensures r.Some? ==> Considered(Strip(raw))
    ensures r.Some? ==> r.value.protocol == protocol || r.value.protocol in Protocols
  {
    var line := Strip(raw);
    if !Considered(line) then None else Caught(ParseIdentity(line, protocol))
  }

  /** The identity `from_string` returned, or nothing when it raised. */
  function Caught(o: Outcome<Identity>): Option<Identity> {
    match o
    case Raises => None
    case Returns(id) => Some(id)
  }

  /** The identities of `lines`, in line order. */
  function HarvestIds(lines: seq<string>, protocol: string): (r: seq<Identity>)
    ensures |r| <= |lines|
  {
    if lines == [] then []
    else
      HarvestIds(lines[..|lines| - 1], protocol)
      + Found(LineIdentity(lines[|lines| - 1], protocol))
  }

  /** The identity a line yields, as a list of zero or one. */
  function Found(r: Option<Identity>): seq<Identity> {
    match r
    case None => []
    case Some(id) => [id]
  }

  /** One step of `fetch_from_source`'s loop: what line `i` yields extends
      what the lines before it yield. */
  lemma HarvestIdsStep(lines: seq<string>, i: nat, protocol: string, before: seq<Proxy>, found: seq<Proxy>)
    requires i < |lines|
    requires Ids(before) == HarvestIds(lines[..i], protocol)
    requires Ids(found) == Found(LineIdentity(lines[i], protocol))
    ensures Ids(before + found) == HarvestIds(lines[..i + 1], protocol)
  {
    HarvestIdsSnoc(lines, i, protocol);
    IdsAppend(before, found);
  }

  lemma HarvestIdsSnoc(lines: seq<string>, i: nat, protocol: string)
    requires i < |lines|
    ensures HarvestIds(lines[..i + 1], protocol)
      == HarvestIds(lines[..i], protocol) + Found(LineIdentity(lines[i], protocol))
  {
    var ls := lines[..i + 1];
    assert ls[..|ls| - 1] == lines[..i] && ls[|ls| - 1] == lines[i];
  }

  /** `fetch_from_source`: nothing from an unreachable source, otherwise the
      identities its body's lines yield. */
  function FetchIds(source: Source, response: Response): seq<Identity> {
    match response
    case Unreachable => []
    case Body(text) => HarvestIds(Lines(text), SourceProtocol(source))
  }

  /** The identities of every source, concatenated in source order. */
  function FetchedIds(sources: seq<Source>, responses: seq<Response>): seq<Identity>
    requires |sources| == |responses|
  {
    if sources == [] then []
    else
      FetchedIds(sources[..|sources| - 1], responses[..|responses| - 1])
      + FetchIds(sources[|sources| - 1], responses[|responses| - 1])
  }

  /** The identities of a list of proxies. */
  function Ids(ps: seq<Proxy>): (r: seq<Identity>)
    ensures |r| == |ps| && forall i :: 0 <= i < |ps| ==> r[i] == ps[i].Id()
  {
    if ps == [] then [] else Ids(ps[..|ps| - 1]) + [ps[|ps| - 1].Id()]
  }

  /** Every proxy in `ps` is as `Proxy()` makes it: initial score, no probe. */
  predicate Unprobed(ps: seq<Proxy>)
    reads set p | p in ps
  {
    forall p :: p in ps ==> p.score == ScoreInit && p.responseTime == None
  }

  /** The key of the fetcher's deduplication: the address alone. */
  function ProxyAddress(p: Proxy): string {
    p.Address()
  }

  function IdAddress(id: Identity): string {
    AddressOf(id.ip, id.port)
  }

  /** Deduplicating the proxies and taking their identities is deduplicating
      their identities: the key only looks at the identity. */
  lemma {:induction false} IdsUnique(ps: seq<Proxy>)
    ensures KeySet(ps, ProxyAddress) == KeySet(Ids(ps), IdAddress)
    ensures Ids(Unique(ps, ProxyAddress)) == Unique(Ids(ps), IdAddress)
  {
    if ps != [] {
      var init := ps[..|ps| - 1];
      var last := ps[|ps| - 1];
      assert ps == init + [last];
      IdsUnique(init);
      IdsAppend(init, [last]);
      UniqueSnoc(init, last, ProxyAddress);
      UniqueSnoc(Ids(init), last.Id(), IdAddress);
      var u := Unique(init, ProxyAddress);
      IdsAppend(u, [last]);
    }
  }

  /** The fetcher accepts every integer port: `ip:port` comes back as that
      proxy whatever the port, where the getter would drop a port outside
      1 to 65535. */
  lemma AnyPortAccepted(ip: string, port: int, protocol: string)
    requires ip != [] && ':' !in ip && Strip(ip) == ip && ip[0] != '#'
    ensures LineIdentity(AddressOf(ip, port), protocol) == Some(Identity(ip, port, protocol))
  {
    RenderedConsidered(ip, port);
    AddressRoundTrip(ip, port, protocol);
  }

  /** Keyed on the address, the first of two lines with the same address wins
      even when their protocols differ; the getter, keyed on the pair, keeps
      both. */
  lemma AddressOnlyDedup(ip: string, port: int, p: string, q: string)
    requires p != q
    ensures Unique([Identity(ip, port, p), Identity(ip, port, q)], IdAddress) == [Identity(ip, port, p)]
    ensures var a := AddressOf(ip, port);
      Unique([Candidate(a, p), Candidate(a, q)], PairOf) == [Candidate(a, p), Candidate(a, q)]
  {
    UniquePair(Identity(ip, port, p), Identity(ip, port, q), IdAddress);
    var a := AddressOf(ip, port);
    UniquePair(Candidate(a, p), Candidate(a, q), PairOf);
  }

  /** `fetch_from_source`: a new proxy for every identity the body yields,
      each at the initial score and unprobed. */
  method FetchFromSource(source: Source, response: Response) returns (proxies: seq<Proxy>)
    ensures Ids(proxies) == FetchIds(source, response)
    ensures forall p :: p in proxies ==> fresh(p)
    ensures Unprobed(proxies)
  {
    proxies := [];
    if response.Unreachable? {
      return;
    }
    proxies := HarvestProxies(Lines(response.text), SourceProtocol(source));
  }

  /** `fetch_from_source`'s loop over the lines of a body. */
  method HarvestProxies(lines: seq<string>, protocol: string) returns (proxies: seq<Proxy>)
    ensures Ids(proxies) == HarvestIds(lines, protocol)
    ensures forall p :: p in proxies ==> fresh(p)
    ensures Unprobed(proxies)
  {
    proxies := [];
    for i := 0 to |lines|
      invariant Ids(proxies) == HarvestIds(lines[..i], protocol)
      invariant forall p :: p in proxies ==> fresh(p)
      invariant Unprobed(proxies)
    {
      var found := ReadLine(lines[i], protocol);
      HarvestIdsStep(lines, i, protocol, proxies, found);
      UnprobedAppend(proxies, found);
      proxies := proxies + found;
    }
    assert lines[..|lines|] == lines;
  }

  /** The body of `fetch_from_source`'s loop: strip the line, skip it unless
      considered, and keep the proxy `from_string` makes of it; `found` holds
      that proxy, or nothing. */
  method ReadLine(raw: string, protocol: string) returns (found: seq<Proxy>)
    ensures Ids(found) == Found(LineIdentity(raw, protocol))
    ensures forall p :: p in found ==> fresh(p)
    ensures Unprobed(found)
  {
    var line := Strip(raw);
    if !Considered(line) {
      return [];
    }
    found := ReadProxy(line, protocol);
  }

  /** The `try` around `from_string` in the loop body. */
  method ReadProxy(line: string, protocol: string) returns (found: seq<Proxy>)
    ensures Ids(found) == Found(Caught(ParseIdentity(line, protocol)))
    ensures forall p :: p in found ==> fresh(p)
    ensures Unprobed(found)
  {
    var r := Proxy.FromString(line, protocol);
    ghost var o := ParseIdentity(line, protocol);
    if r.Raises? {
      assert Caught(o) == None;
      return [];
    }
    var p := r.value;
    assert Caught(o) == Some(p.Id());
    found := [p];
    assert Ids(found) == [p.Id()];
    UnprobedOne(p);
  }

  lemma UnprobedOne(p: Proxy)
    requires p.score == ScoreInit && p.responseTime == None
    ensures Unprobed([p])
  {
  }

  /** `fetch_all`: every source in order (one response per source), then the
      first proxy of each address. */
  method FetchAll(responses: seq<Response>) returns (unique: seq<Proxy>)
    requires |responses| == |ProxySources|
    ensures Ids(unique) == Unique(FetchedIds(ProxySources, responses), IdAddress)
    ensures DistinctKeys(unique, ProxyAddress)
    ensures forall p :: p in unique ==> fresh(p)
    ensures Unprobed(unique)
  {
    var all := CollectProxies(ProxySources, responses);
    unique := FirstAddresses(all);
    UniqueDistinct(all, ProxyAddress);
    IdsUnique(all);
    UniqueWithin(all, ProxyAddress);
    UnprobedWithin(all, unique);
  }

  lemma UnprobedWithin(a: seq<Proxy>, b: seq<Proxy>)
    requires Unprobed(a) && forall p :: p in b ==> p in a
    ensures Unprobed(b)
  {
  }

  /** The first loop of `fetch_all`. */
  method CollectProxies(sources: seq<Source>, responses: seq<Response>) returns (all: seq<Proxy>)
    requires |responses| == |sources|
    ensures Ids(all) == FetchedIds(sources, responses)
    ensures forall p :: p in all ==> fresh(p)
    ensures Unprobed(all)
  {
    all := [];
    for i := 0 to |sources|
      invariant Ids(all) == FetchedIds(sources[..i], responses[..i])
      invariant forall p :: p in all ==> fresh(p)
      invariant Unprobed(all)
    {
      var proxies := FetchFromSource(sources[i], responses[i]);
      FetchedIdsStep(sources, responses, i, all, proxies);
      UnprobedAppend(all, proxies);
      all := all + proxies;
    }
    assert sources[..|sources|] == sources && responses[..|responses|] == responses;
  }

  /** One step of `fetch_all`'s first loop: what source `i` yields extends
      what the sources before it yield. */
  lemma FetchedIdsStep(sources: seq<Source>, responses: seq<Response>, i: nat, before: seq<Proxy>, found: seq<Proxy>)
    requires |responses| == |sources| && i < |sources|
    requires Ids(before) == FetchedIds(sources[..i], responses[..i])
    requires Ids(found) == FetchIds(sources[i], responses[i])
    ensures Ids(before + found) == FetchedIds(sources[..i + 1], responses[..i + 1])
  {
    FetchedIdsSnoc(sources, responses, i);
    IdsAppend(before, found);
  }

  lemma FetchedIdsSnoc(sources: seq<Source>, responses: seq<Response>, i: nat)
    requires |responses| == |sources| && i < |sources|
    ensures FetchedIds(sources[..i + 1], responses[..i + 1])
      == FetchedIds(sources[..i], responses[..i]) + FetchIds(sources[i], responses[i])
  {
    var ss, rs := sources[..i + 1], responses[..i + 1];
    assert ss[..|ss| - 1] == sources[..i] && ss[|ss| - 1] == sources[i];
    assert rs[..|rs| - 1] == responses[..i] && rs[|rs| - 1] == responses[i];
  }

  lemma UnprobedAppend(a: seq<Proxy>, b: seq<Proxy>)
    requires Unprobed(a) && Unprobed(b)
    ensures Unprobed(a + b)
  {
  }

  /** The identities of two lists joined are theirs joined. */
  lemma IdsAppend(a: seq<Proxy>, b: seq<Proxy>)
    ensures Ids(a + b) == Ids(a) + Ids(b)
  {
    assert Ids(a + b) == Ids(a) + Ids(b) by {
      forall i | 0 <= i < |a| + |b| ensures Ids(a + b)[i] == (Ids(a) + Ids(b))[i] {
        if i < |a| {
          assert (a + b)[i] == a[i];
        } else {
          assert (a + b)[i] == b[i - |a|];
        }
      }
    }
  }

  /** The second loop of `fetch_all`: keep a proxy when its address is not
      in the `seen` set yet, and add the address. */
  method FirstAddresses(all: seq<Proxy>) returns (unique: seq<Proxy>)
    ensures unique == Unique(all, ProxyAddress)
  {
    var seen: set<string> := {};
    unique := [];
    for i := 0 to |all|
      invariant unique == Unique(all[..i], ProxyAddress)
      invariant seen == KeySet(all[..i], ProxyAddress)
    {
      UniqueLoopStep(all, i, ProxyAddress, seen, unique, ProxyAddress(all[i]));
      seen, unique := Visit(seen, unique, all[i]);
    }
    assert all[..|all|] == all;
  }

  /** The body of that loop: an unseen address is added and its proxy kept. */
  method Visit(seen: set<string>, unique: seq<Proxy>, proxy: Proxy) returns (seen': set<string>, unique': seq<Proxy>)
    ensures seen' == seen + {ProxyAddress(proxy)}
    ensures unique' == if ProxyAddress(proxy) in seen then unique else unique + [proxy]
  {
    seen', unique' := seen, unique;
    var address := proxy.Address();
    if address !in seen {
      seen' := seen + {address};
      unique' := unique + [proxy];
    }
  }
}
