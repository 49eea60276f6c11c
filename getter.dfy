/** The standalone getter (getter/proxy_getter.py): reads each source's list
    line by line into `(address, protocol)` candidates, drops repeated pairs,
    and admits the rest into the database client's partitions. */
module Getter {
  import opened Wrappers
  import opened Text
  import opened PyInt
  import opened Url
  import opened Settings
  import opened SortedSets
  import opened RedisStore
  import opened Db
  import opened Dedup
  import opened CoreProxy

  /** One parsed line: the re-rendered `ip:port` and the protocol it is filed under. */
  datatype Candidate = Candidate(proxy: string, protocol: string)

  /** What fetching a source's list produced: its body, or `Unreachable` for a
      request that raised (connection error, timeout, or a non-2xx status). */
  datatype Response = Unreachable | Body(text: string)

  /** An address read off a line. */
  datatype Endpoint = Endpoint(ip: string, port: int)

  /** `source.get('type', 'http')`. */
  function SourceProtocol(source: Source): string {
    if source.kind.Some? then source.kind.value else "http"
  }

  /** The lines of a list body: the stripped body split at newlines. */
  function Lines(text: string): seq<string> {
    Split(Strip(text), '\n')
  }

  /** A stripped line is looked at only when it is non-empty, holds a `:` and
      is not a `#` comment. */
  predicate Considered(line: string) {
    line != [] && ':' in line && !StartsWith(line, "#")
  }

  /** A line with its `scheme://` prefix dropped: the second field of
      splitting at `://` when the line holds one, the line otherwise. */
  function Unprefixed(line: string): string {
    if Contains(line, "://") then SecondField(line, "://") else line
  }

  /** The address on a considered line: the text after the first `://` (up to
      a second one) when there is one, split at its first `:` into an ip of
      exactly four dot-separated parts and an integer port from 1 to 65535.
      Every failure on the way is `None`, as the getter drops the line. */
  function LineAddress(line: string): (r: Option<Endpoint>)
    ensures r.Some? ==> 1 <= r.value.port <= 65535
    ensures r.Some? ==> |Split(r.value.ip, '.')| == 4 && ':' !in r.value.ip
    ensures r.Some? ==> var parts := Partition(Unprefixed(line), ":");
      parts.found && parts.head == r.value.ip && ParseInt(parts.tail) == Some(r.value.port)
  {
    var proxy := Unprefixed(line);
    var parts := Partition(proxy, ":");
    if !parts.found then None
    else
      FirstSeparator(proxy, ':');
      match ParseInt(parts.tail)
      case None => None
      case Some(n) =>
        if 1 <= n <= 65535 && |Split(parts.head, '.')| == 4 then Some(Endpoint(parts.head, n))
        else None
  }

  /** The address on any line whose unprefixed part is `head:tail`, with
      `head` free of `:`: kept exactly when `tail` reads as an integer from 1
      to 65535 and `head` has four dot-separated parts. */
  lemma LineAddressSplit(line: string, head: string, tail: string)
    requires Unprefixed(line) == head + ":" + tail && ':' !in head
    ensures LineAddress(line) ==
      match ParseInt(tail)
      case None => None
      case Some(n) => if 1 <= n <= 65535 && |Split(head, '.')| == 4 then Some(Endpoint(head, n)) else None
  {
    PartitionFirst(head, ':', tail);
  }

  /** A line whose unprefixed part holds no `:` yields no address. */
  lemma LineAddressNoColon(line: string)
    requires ':' !in Unprefixed(line)
    ensures LineAddress(line) == None
  {
    PartitionAbsent(Unprefixed(line), ':');
  }

  /** The candidate one raw line yields under the source's protocol. */
  function ParseLine(raw: string, protocol: string): (r: Option<Candidate>)
    ensures r.Some? ==> Considered(Strip(raw)) && r.value.protocol == protocol
    ensures r.Some? ==> ':' in r.value.proxy
  {
    var line := Strip(raw);
    if !Considered(line) then None
    else
      match LineAddress(line)
      case None => None
      case Some(e) =>
        assert AddressOf(e.ip, e.port)[|e.ip|] == ':';
        Some(Candidate(AddressOf(e.ip, e.port), protocol))
  }

  /** The candidates of `lines`, in line order. */
  function Harvest(lines: seq<string>, protocol: string): (r: seq<Candidate>)
    ensures |r| <= |lines|
  {
    if lines == [] then []
    else
      Harvest(lines[..|lines| - 1], protocol) + Taken(ParseLine(lines[|lines| - 1], protocol))
  }

  /** The candidate a line yields, as a list of zero or one. */
  function Taken(c: Option<Candidate>): (r: seq<Candidate>)
    ensures |r| <= 1 && forall i :: 0 <= i < |r| ==> c == Some(r[i])
  {
    match c
    case None => []
    case Some(c) => [c]
  }

  /** Every candidate of a body carries the source's protocol. */
  lemma {:induction false} HarvestTagged(lines: seq<string>, protocol: string)
    ensures forall i :: 0 <= i < |Harvest(lines, protocol)| ==> Harvest(lines, protocol)[i].protocol == protocol
  {
    if lines != [] {
      var c := ParseLine(lines[|lines| - 1], protocol);
      HarvestTagged(lines[..|lines| - 1], protocol);
      TaggedJoin(Harvest(lines[..|lines| - 1], protocol), c, protocol);
    }
  }

  lemma TaggedJoin(init: seq<Candidate>, c: Option<Candidate>, protocol: string)
    requires forall i :: 0 <= i < |init| ==> init[i].protocol == protocol
    requires c.Some? ==> c.value.protocol == protocol
    ensures forall i :: 0 <= i < |init + Taken(c)| ==> (init + Taken(c))[i].protocol == protocol
  {
  }

  /** One step of `fetch_from_source`'s loop. */
  lemma HarvestStep(lines: seq<string>, i: nat, protocol: string)
    requires i < |lines|
    ensures Harvest(lines[..i + 1], protocol) == Harvest(lines[..i], protocol) + Taken(ParseLine(lines[i], protocol))
  {
    assert lines[..i + 1][..i] == lines[..i];
  }

  /** `fetch_from_source`: nothing from an unreachable source, otherwise the
      candidates of its body's lines. */
  function FetchSpec(source: Source, response: Response): (r: seq<Candidate>)
  {
    match response
    case Unreachable => []
    case Body(text) => Harvest(Lines(text), SourceProtocol(source))
  }

  /** The candidates of every source, concatenated in source order. */
  function Fetched(sources: seq<Source>, responses: seq<Response>): seq<Candidate>
    requires |sources| == |responses|
  {
    if sources == [] then []
    else
      Fetched(sources[..|sources| - 1], responses[..|responses| - 1])
      + FetchSpec(sources[|sources| - 1], responses[|responses| - 1])
  }

  /** One step of `run`'s first loop. */
  lemma FetchedStep(sources: seq<Source>, responses: seq<Response>, i: nat)
    requires |responses| == |sources| && i < |sources|
    ensures Fetched(sources[..i + 1], responses[..i + 1])
      == Fetched(sources[..i], responses[..i]) + FetchSpec(sources[i], responses[i])
  {
    assert sources[..i + 1][..i] == sources[..i];
    assert responses[..i + 1][..i] == responses[..i];
  }

  /** The key of the getter's deduplication: the pair. */
  function PairOf(c: Candidate): (string, string) {
    (c.proxy, c.protocol)
  }

  // ---- admitting candidates into the store ----

  /** The store after `add_proxy(c.proxy, c.protocol)`. */
  function Admit(st: Store, prefix: string, c: Candidate): Store {
    Bind(st, KeyOf(prefix, c.protocol), AddIfAbsent(PoolIn(st, prefix, c.protocol), c.proxy, ScoreInit))
  }

  /** The store after admitting `cs` in order. */
  function AdmitAll(st: Store, prefix: string, cs: seq<Candidate>): Store {
    if cs == [] then st
    else Admit(AdmitAll(st, prefix, cs[..|cs| - 1]), prefix, cs[|cs| - 1])
  }

  /** How many of the `add_proxy` calls returned `True`. */
  function AddedCount(st: Store, prefix: string, cs: seq<Candidate>): nat {
    if cs == [] then 0
    else
      var before := AdmitAll(st, prefix, cs[..|cs| - 1]);
      var last := cs[|cs| - 1];
      AddedCount(st, prefix, cs[..|cs| - 1]) + if last.proxy in PoolIn(before, prefix, last.protocol) then 0 else 1
  }

  /** How many candidates were absent from their partition to begin with. */
  function NewCount(st: Store, prefix: string, cs: seq<Candidate>): nat {
    if cs == [] then 0
    else
      var last := cs[|cs| - 1];
      NewCount(st, prefix, cs[..|cs| - 1]) + if last.proxy in PoolIn(st, prefix, last.protocol) then 0 else 1
  }

  /** After admitting `cs`, a partition holds its old members with their old
      scores, plus every candidate filed under it, new ones at the initial
      score; nothing else. */
  lemma {:induction false} AdmitMember(st: Store, prefix: string, cs: seq<Candidate>, p: string, m: string)
    ensures var after := PoolIn(AdmitAll(st, prefix, cs), prefix, p);
      m in after <==> m in PoolIn(st, prefix, p) || Candidate(m, p) in cs
    ensures var after := PoolIn(AdmitAll(st, prefix, cs), prefix, p);
      m in after ==> after[m] == if m in PoolIn(st, prefix, p) then PoolIn(st, prefix, p)[m] else ScoreInit
  {
    if cs != [] {
      var init := cs[..|cs| - 1];
      var c := cs[|cs| - 1];
      InSnoc(cs, Candidate(m, p));
      AdmitMember(st, prefix, init, p, m);
      AdmitOne(AdmitAll(st, prefix, init), prefix, c, p, m);
    }
  }

  lemma InSnoc(cs: seq<Candidate>, x: Candidate)
    requires cs != []
    ensures x in cs <==> x in cs[..|cs| - 1] || x == cs[|cs| - 1]
  {
    assert cs == cs[..|cs| - 1] + [cs[|cs| - 1]];
  }

  /** One `add_proxy` call, seen from one member of one partition. */
  lemma AdmitOne(st: Store, prefix: string, c: Candidate, p: string, m: string)
    ensures var before, after := PoolIn(st, prefix, p), PoolIn(Admit(st, prefix, c), prefix, p);
      && (m in after <==> m in before || c == Candidate(m, p))
      && (m in after ==> after[m] == if m in before then before[m] else ScoreInit)
  {
    if c.protocol != p {
      OtherPartition(st, prefix, c.protocol, p, AddIfAbsent(PoolIn(st, prefix, c.protocol), c.proxy, ScoreInit));
    }
  }

  /** With no pair repeated, an `add_proxy` call returns `True` exactly for a
      candidate that was absent from its partition before the batch. */
  lemma {:induction false} AddedAreNew(st: Store, prefix: string, cs: seq<Candidate>)
    requires DistinctKeys(cs, PairOf)
    ensures AddedCount(st, prefix, cs) == NewCount(st, prefix, cs)
  {
    if cs != [] {
      var init := cs[..|cs| - 1];
      var c := cs[|cs| - 1];
      assert DistinctKeys(init, PairOf) by {
        forall i, j | 0 <= i < j < |init| ensures PairOf(init[i]) != PairOf(init[j]) {
          assert init[i] == cs[i] && init[j] == cs[j];
        }
      }
      AddedAreNew(st, prefix, init);
      AdmitMember(st, prefix, init, c.protocol, c.proxy);
      assert Candidate(c.proxy, c.protocol) !in init by {
        forall i | 0 <= i < |init| ensures init[i] != c {
          assert init[i] == cs[i] && PairOf(cs[i]) != PairOf(cs[|cs| - 1]);
        }
      }
    }
  }

  // ---- what a line yields ----

  /** The address part of `ip:port`, for an ip without `:`, is read back
      exactly when the ip has four dot-separated parts and the port is from 1
      to 65535. */
  lemma AddressRead(ip: string, port: int)
    requires ':' !in ip
    ensures LineAddress(AddressOf(ip, port)) ==
      if 1 <= port <= 65535 && |Split(ip, '.')| == 4 then Some(Endpoint(ip, port)) else None
  {
    AddressText(ip, port);
    IntRoundTrip(port);
  }

  /** A rendered `ip:port` line, for an ip without `:`, surrounding white
      space or a leading `#`, is kept exactly when the ip has four
      dot-separated parts and the port is from 1 to 65535, and is then read
      back as itself. */
  lemma RenderedVerdict(ip: string, port: int, protocol: string)
    requires ip != [] && ':' !in ip && Strip(ip) == ip && ip[0] != '#'
    ensures ParseLine(AddressOf(ip, port), protocol) ==
      if 1 <= port <= 65535 && |Split(ip, '.')| == 4 then Some(Candidate(AddressOf(ip, port), protocol))
      else None
  {
    RenderedConsidered(ip, port);
    AddressRead(ip, port);
  }

  /** Such a line is considered as it stands. */
  lemma RenderedConsidered(ip: string, port: int)
    requires ip != [] && Strip(ip) == ip && ip[0] != '#'
    ensures Strip(AddressOf(ip, port)) == AddressOf(ip, port) && Considered(AddressOf(ip, port))
  {
    var s := AddressOf(ip, port);
    AddressStripped(ip, port);
    assert !StartsWith(s, "#") by {
      assert s[..1][0] == s[0];
    }
  }

  /** A `scheme://` prefix is dropped and the line is filed under the
      source's protocol, whatever the scheme says. */
  lemma SchemeDropped(scheme: string, ip: string, port: int, protocol: string)
    requires ':' !in scheme && (scheme == [] || (!IsSpace(scheme[0]) && scheme[0] != '#'))
    requires ip != [] && ':' !in ip && Strip(ip) == ip
    ensures ParseLine(scheme + "://" + AddressOf(ip, port), protocol) ==
      if 1 <= port <= 65535 && |Split(ip, '.')| == 4 then Some(Candidate(AddressOf(ip, port), protocol))
      else None
  {
    var a := AddressOf(ip, port);
    SchemeAddress(scheme, ip, port);
    AddressStripped(ip, port);
    SchemeLine(scheme, a);
  }

  /** The address of `scheme://ip:port` is that of `ip:port`. */
  lemma SchemeAddress(scheme: string, ip: string, port: int)
    requires ':' !in scheme && ':' !in ip
    ensures LineAddress(scheme + "://" + AddressOf(ip, port)) == LineAddress(AddressOf(ip, port))
    ensures LineAddress(AddressOf(ip, port)) ==
      if 1 <= port <= 65535 && |Split(ip, '.')| == 4 then Some(Endpoint(ip, port)) else None
  {
    AddressText(ip, port);
    SchemeField(scheme, AddressOf(ip, port));
    AddressRead(ip, port);
  }

  /** A line made of a scheme without `:` and a stripped rest is considered
      as it stands. */
  lemma SchemeLine(scheme: string, rest: string)
    requires scheme == [] || (!IsSpace(scheme[0]) && scheme[0] != '#')
    requires rest != [] && Strip(rest) == rest
    ensures var s := scheme + "://" + rest;
      Strip(s) == s && Considered(s)
  {
    var s := scheme + "://" + rest;
    assert !IsSpace(rest[|rest| - 1]);
    assert s[|s| - 1] == rest[|rest| - 1] && s[|scheme|] == ':';
    assert s[0] == if scheme == [] then ':' else scheme[0];
    StripTrimmed(s);
    assert !StartsWith(s, "#") by {
      assert s[..1][0] == s[0];
    }
    assert ':' in s;
  }

  /** The field after `scheme://` is the rest of the line when neither the
      scheme holds a `:` nor the rest a `://`. */
  lemma SchemeField(scheme: string, rest: string)
    requires ':' !in scheme && !Contains(rest, "://")
    ensures Contains(scheme + "://" + rest, "://")
    ensures SecondField(scheme + "://" + rest, "://") == rest
  {
    var s := scheme + "://" + rest;
    assert OccursAt(s, "://", |scheme|) by {
      assert s[|scheme|..|scheme| + 3] == "://";
    }
    forall j | 0 <= j < |scheme| ensures !OccursAt(s, "://", j) {
      assert s[j..j + 3][0] == s[j] == scheme[j];
    }
    FindBound(s, "://", |scheme|);
    var first := Partition(s, "://");
    assert s[..|scheme|] == scheme && s[|scheme| + 3..] == rest;
    assert first.head == scheme && first.tail == rest;
  }

  class ProxyGetter {
    /** The database client the getter writes through. */
    const client: RedisClient

    /** The HTTP session and its headers are not modelled. */
    constructor (client: RedisClient)
      ensures this.client == client
    {
      this.client := client;
    }

    /** `fetch_from_source`: the line loop over the body of `response`. */
    static method FetchFromSource(source: Source, response: Response) returns (proxies: seq<Candidate>)
      ensures proxies == FetchSpec(source, response)
    {
      if response.Unreachable? {
        return [];
      }
      proxies := HarvestLines(Lines(response.text), SourceProtocol(source));
    }

    /** `fetch_from_source`'s loop over the lines of a body. */
    static method HarvestLines(lines: seq<string>, protocol: string) returns (proxies: seq<Candidate>)
      ensures proxies == Harvest(lines, protocol)
    {
      proxies := [];
      for i := 0 to |lines|
        invariant proxies == Harvest(lines[..i], protocol)
      {
        HarvestStep(lines, i, protocol);
        var c := ParseLine(lines[i], protocol);
        if c.Some? {
          proxies := proxies + [c.value];
        }
      }
      assert lines[..|lines|] == lines;
    }

    /** `process_proxies`: admit every candidate at the initial score; `added`
        is the number of them `add_proxy` reported as new, the count the
        getter logs. */
    method ProcessProxies(proxies: seq<Candidate>) returns (added: nat)
      modifies client.redis
      ensures client.redis == null ==> added == 0
      ensures client.redis != null ==>
        client.redis.data == AdmitAll(old(client.redis.data), client.keyPrefix, proxies)
        && added == AddedCount(old(client.redis.data), client.keyPrefix, proxies)
    {
      added := 0;
      if proxies == [] || client.redis == null {
        return;
      }
      ghost var st := client.redis.data;
      for i := 0 to |proxies|
        invariant client.redis.data == AdmitAll(st, client.keyPrefix, proxies[..i])
        invariant added == AddedCount(st, client.keyPrefix, proxies[..i])
      {
        assert proxies[..i + 1][..i] == proxies[..i];
        var ok := client.AddProxy(proxies[i].proxy, proxies[i].protocol);
        if ok {
          added := added + 1;
        }
      }
      assert proxies[..|proxies|] == proxies;
    }

    /** The first loop of `run`: every source's candidates, in source order. */
    static method Collect(sources: seq<Source>, responses: seq<Response>) returns (all: seq<Candidate>)
      requires |responses| == |sources|
      ensures all == Fetched(sources, responses)
    {
      all := [];
      for i := 0 to |sources|
        invariant all == Fetched(sources[..i], responses[..i])
      {
        FetchedStep(sources, responses, i);
        var proxies := FetchFromSource(sources[i], responses[i]);
        all := all + proxies;
      }
      assert sources[..|sources|] == sources && responses[..|responses|] == responses;
    }

    /** The second loop of `run`: keep a candidate when its pair is not in
        the `seen` set yet, and add the pair. */
    static method FirstPairs(all: seq<Candidate>) returns (unique: seq<Candidate>)
      ensures unique == Unique(all, PairOf)
    {
      var seen: set<(string, string)> := {};
      unique := [];
      for i := 0 to |all|
        invariant unique == Unique(all[..i], PairOf)
        invariant seen == KeySet(all[..i], PairOf)
      {
        UniqueStep(all, i, PairOf);
        var key := (all[i].proxy, all[i].protocol);
        if key !in seen {
          seen := seen + {key};
          unique := unique + [all[i]];
        }
      }
      assert all[..|all|] == all;
    }

    /** `run`: nothing when disconnected; otherwise fetch every source in
        order (one response per source), keep the first candidate of each
        `(address, protocol)` pair, and admit those. */
    method Run(responses: seq<Response>) returns (unique: seq<Candidate>, added: nat)
      requires |responses| == |ProxySources|
      modifies client.redis
      ensures client.redis == null ==> unique == [] && added == 0
      ensures client.redis != null ==>
        unique == Unique(Fetched(ProxySources, responses), PairOf)
        && client.redis.data == AdmitAll(old(client.redis.data), client.keyPrefix, unique)
        && added == NewCount(old(client.redis.data), client.keyPrefix, unique)
      ensures DistinctKeys(unique, PairOf)
    {
      if client.redis == null {
        return [], 0;
      }
      var all := Collect(ProxySources, responses);
      unique := FirstPairs(all);
      UniqueDistinct(all, PairOf);
      ghost var st := client.redis.data;
      added := ProcessProxies(unique);
      AddedAreNew(st, client.keyPrefix, unique);
    }
  }
}
