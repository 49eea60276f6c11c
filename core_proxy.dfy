/** The proxy record of the core package (core/proxy.py): its identity, the
    address and URL it renders to, and `from_string`, which reads a proxy back
    from `host:port` or `scheme://host:port` text. */
module CoreProxy {
  import opened Wrappers
  import opened Text
  import opened PyInt
  import opened Url
  import opened Settings

  /** What identifies a proxy: equality and hashing look at these three only. */
  datatype Identity = Identity(ip: string, port: int, protocol: string)

  /** `address`: `ip:port`. */
  function AddressOf(ip: string, port: int): string {
    ip + ":" + IntToString(port)
  }

  /** `ip:port` is unchanged by stripping when the ip is, and starts as the
      ip does. */
  lemma AddressStripped(ip: string, port: int)
    requires ip != [] && Strip(ip) == ip
    ensures Strip(AddressOf(ip, port)) == AddressOf(ip, port)
    ensures AddressOf(ip, port)[0] == ip[0] && AddressOf(ip, port)[|ip|] == ':'
  {
    var digits := IntToString(port);
    IntToStringShape(port);
    assert !IsSpace(digits[|digits| - 1]);
    StripJoined(ip, ":", digits);
    ColonAt(ip, digits);
  }

  lemma ColonAt(a: string, b: string)
    requires a != []
    ensures (a + ":" + b)[0] == a[0] && (a + ":" + b)[|a|] == ':'
  {
  }

  /** The scheme of `url`: SOCKS proxies keep theirs, every other protocol
      (https included) is reached over http. */
  function UrlScheme(protocol: string): (scheme: string)
    ensures scheme in ["http", "socks4", "socks5"]
    ensures scheme == protocol || scheme == "http"
  {
    if protocol == "socks4" || protocol == "socks5" then protocol else "http"
  }

  /** `url`: `scheme://ip:port`. */
  function UrlOf(id: Identity): string {
    UrlScheme(id.protocol) + "://" + AddressOf(id.ip, id.port)
  }

  /** `from_string`: text containing `://` is read as a URL, whose host and port
      must both be present and whose scheme replaces `protocol` when it is one
      of the four known ones; other text must hold a `:`, and the part after
      the first one must read as an integer. The host is stripped of white
      space. Every `ValueError`, `TypeError` or `AttributeError` on the way is
      `Raises`. */
  function ParseIdentity(s: string, protocol: string := "http"): (r: Outcome<Identity>)
    ensures r.Returns? ==> ':' in s
    ensures r.Returns? ==> r.value.protocol == protocol || r.value.protocol in Protocols
    ensures r.Returns? ==> Strip(r.value.ip) == r.value.ip
    ensures !Contains(s, "://") && Partition(s, ":").found ==>
      ParseInt(Partition(s, ":").tail).None? ==> r.Raises?
  {
    if Contains(s, "://") then
      var j := Find(s, "://").value;
      assert s[j] == s[j..j + 3][0];
      match UrlSplit(s)
      case Raises => Raises
      case Returns(u) =>
        var proto := if u.scheme in Protocols then u.scheme else protocol;
        match Hostname(u)
        case None => Raises
        case Some(host) =>
          match Port(u)
          case PortNumber(n) => StripIdempotent(host); Returns(Identity(Strip(host), n, proto))
          case _ => Raises
    else
      var parts := Partition(s, ":");
      if !parts.found then Raises
      else
        assert s[|parts.head|] == ':';
        match ParseInt(parts.tail)
        case None => Raises
        case Some(n) => StripIdempotent(parts.head); Returns(Identity(Strip(parts.head), n, protocol))
  }

  /** The bare form of `from_string` on any input: `head:tail`, with `head`
      free of `:`, raises when `tail` does not read as an integer and
      otherwise gives the stripped head, that port and the given protocol. */
  lemma ParseBareSplit(head: string, tail: string, protocol: string)
    requires ':' !in head && !Contains(head + ":" + tail, "://")
    ensures ParseIdentity(head + ":" + tail, protocol) ==
      match ParseInt(tail)
      case None => Raises
      case Some(n) => Returns(Identity(Strip(head), n, protocol))
  {
    PartitionFirst(head, ':', tail);
  }

  /** The URL form of `from_string` raises exactly when `urlparse` rejects
      the text or it lacks a host or a port. */
  lemma ParseUrlRaises(s: string, protocol: string)
    requires Contains(s, "://")
    ensures ParseIdentity(s, protocol).Raises? <==>
      UrlSplit(s).Raises? || Hostname(UrlSplit(s).value).None? || !Port(UrlSplit(s).value).PortNumber?
  {
  }

  /** Stripping twice strips no more than stripping once. */
  lemma StripIdempotent(s: string)
    ensures Strip(Strip(s)) == Strip(s)
  {
    StripTrimmed(Strip(s));
  }

  /** `ip:port` text reads back as the proxy it was rendered from, for a host
      without `:` and without surrounding white space. */
  lemma AddressRoundTrip(ip: string, port: int, protocol: string)
    requires ':' !in ip
    requires Strip(ip) == ip
    ensures ParseIdentity(AddressOf(ip, port), protocol) == Returns(Identity(ip, port, protocol))
  {
    AddressText(ip, port);
    IntRoundTrip(port);
  }

  /** The URL a proxy renders reads back as that proxy, except that an https
      (or any non-SOCKS) proxy comes back as http. */
  lemma UrlRoundTrip(id: Identity, protocol: string)
    requires id.ip != [] && PlainHost(id.ip) && Strip(id.ip) == id.ip
    requires 0 <= id.port <= 65535
    ensures ParseIdentity(UrlOf(id), protocol) == Returns(Identity(id.ip, id.port, UrlScheme(id.protocol)))
  {
    var scheme := UrlScheme(id.protocol);
    SchemeFacts(scheme);
    var s := UrlOf(id);
    var rest := id.ip + ":" + NatToString(id.port);
    assert s == scheme + "://" + id.ip + ":" + NatToString(id.port) == scheme + "://" + rest;
    ParseRenderedUrl(scheme, id.ip, id.port);
    SeparatorFound(scheme, rest);
    ParseUrlCase(s, protocol);
  }

  /** `scheme://rest` contains `://` when the scheme has no `:`. */
  lemma SeparatorFound(scheme: string, rest: string)
    requires ':' !in scheme
    ensures Contains(scheme + "://" + rest, "://")
  {
    var s := scheme + "://" + rest;
    assert s[|scheme|..|scheme| + 3] == "://";
    assert OccursAt(s, "://", |scheme|);
  }

  /** `from_string` on text that splits as a URL with a host and a port. */
  lemma ParseUrlCase(s: string, protocol: string)
    requires Contains(s, "://") && UrlSplit(s).Returns?
    requires Hostname(UrlSplit(s).value).Some? && Port(UrlSplit(s).value).PortNumber?
    ensures var u := UrlSplit(s).value;
      ParseIdentity(s, protocol) == Returns(Identity(Strip(Hostname(u).value), Port(u).n,
        if u.scheme in Protocols then u.scheme else protocol))
  {
  }

  /** The three schemes `url` writes are well-formed, lower-case and known. */
  lemma SchemeFacts(scheme: string)
    requires scheme in ["http", "socks4", "socks5"]
    ensures HasScheme(scheme, |scheme|) && ':' !in scheme && Lower(scheme) == scheme
    ensures scheme in Protocols
  {
  }

  /** A proxy record. The identity is never reassigned after construction;
      the score and the probe results are. */
  class Proxy {
    const ip: string
    const port: int
    const protocol: string
    var score: int
    /** Seconds since the epoch of the last check (a `datetime` in Python). */
    var lastChecked: Option<int>
    /** Seconds the last successful probe took. */
    var responseTime: Option<real>
    var country: Option<string>
    var anonymous: bool

    /** `__init__`: a new proxy starts at the initial score, unchecked. */
    constructor (ip: string, port: int, protocol: string := "http")
      ensures this.ip == ip && this.port == port && this.protocol == protocol
      ensures score == ScoreInit && lastChecked == None && responseTime == None
      ensures country == None && !anonymous
    {
      this.ip := ip;
      this.port := port;
      this.protocol := protocol;
      score := ScoreInit;
      lastChecked := None;
      responseTime := None;
      country := None;
      anonymous := false;
    }

    function Id(): Identity {
      Identity(ip, port, protocol)
    }

    /** `address`. */
    function Address(): string {
      AddressOf(ip, port)
    }

    /** `url`. */
    function Url(): string {
      UrlOf(Id())
    }

    /** `__eq__`: same host, port and protocol; score and probe results do not
        take part. */
    predicate Equals(other: Proxy) {
      Id() == other.Id()
    }

    /** `__hash__`: the hash of the identity triple. */
    function HashKey(): (string, int, string) {
      (ip, port, protocol)
    }

    /** Equal proxies hash alike, as Python requires of `__eq__` and `__hash__`. */
    lemma EqualsHash(other: Proxy)
      ensures Equals(other) <==> HashKey() == other.HashKey()
    {
    }

    /** `from_string`: a new proxy with the identity `ParseIdentity` reads. */
    static method FromString(s: string, protocol: string := "http") returns (r: Outcome<Proxy>)
      ensures r.Raises? <==> ParseIdentity(s, protocol).Raises?
      ensures r.Returns? ==> fresh(r.value) && r.value.Id() == ParseIdentity(s, protocol).value
      ensures r.Returns? ==> r.value.score == ScoreInit && r.value.responseTime == None
    {
      match ParseIdentity(s, protocol)
      case Raises =>
        r := Raises;
      case Returns(id) =>
        var p := new Proxy(id.ip, id.port, id.protocol);
        r := Returns(p);
    }
  }
}
