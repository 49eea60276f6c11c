/** The helper functions of utils/tools.py: reading a proxy string in its two
    forms, checking ports, the dictionary form of a parsed proxy and its
    renderings, cutting a list into n pieces, and retrying a failing call with
    exponential back-off. */
module Tools {
  import opened Wrappers
  import opened Text
  import opened PyInt
  import opened Url

  // ---- format_proxy, validate_port, validate_proxy ----

  /** The `(host, port, protocol)` triple `format_proxy` returns. */
  datatype HostPort = HostPort(host: string, port: int, protocol: string)

  /** `format_proxy`: `None` for an empty string, for bare text without `:` or
      with a non-integer port, and for an empty host or a zero port; a URL that
      `urlparse` rejects, or whose port is malformed, raises. A URL keeps its
      own scheme, bare text gets `defaultProtocol`. */
  function FormatProxy(proxyStr: string, defaultProtocol: string := "http"): (r: Outcome<Option<HostPort>>)
    ensures r.Raises? ==> Contains(Strip(proxyStr), "://")
    ensures r.Returns? && r.value.Some? ==> r.value.value.host != [] && r.value.value.port != 0
    ensures r.Returns? && r.value.Some? && !Contains(Strip(proxyStr), "://") ==>
      r.value.value.protocol == defaultProtocol && ':' !in r.value.value.host
    ensures proxyStr == [] ==> r == Returns(None)
    ensures ':' !in Strip(proxyStr) ==> r == Returns(None)
    ensures !Contains(Strip(proxyStr), "://") && Partition(Strip(proxyStr), ":").found ==>
      ParseInt(Partition(Strip(proxyStr), ":").tail).None? ==> r == Returns(None)
  {
    if proxyStr == [] then Returns(None)
    else
      var s := Strip(proxyStr);
      NoColonNoMark(s);
      ContainsChar(s, ':');
      if Contains(s, "://") then
        match UrlSplit(s)
        case Raises => Raises
        case Returns(u) =>
          match Port(u)
          case PortError => Raises
          case NoPort => Returns(None)
          case PortNumber(n) =>
            match Hostname(u)
            case None => Returns(None)
            case Some(h) => if h == [] || n == 0 then Returns(None) else Returns(Some(HostPort(h, n, u.scheme)))
      else
        var parts := Partition(s, ":");
        if !parts.found then Returns(None)
        else
          FirstSeparator(s, ':');
          match ParseInt(parts.tail)
          case None => Returns(None)
          case Some(n) =>
            if parts.head == [] || n == 0 then Returns(None)
            else Returns(Some(HostPort(parts.head, n, defaultProtocol)))
  }


  /** Rendering a host and a non-zero port as `host:port` and formatting it
      gives them back with the default protocol. */
  lemma FormatAddress(host: string, port: int, defaultProtocol: string)
    requires host != [] && ':' !in host && Strip(host) == host && port != 0
    ensures FormatProxy(host + ":" + IntToString(port), defaultProtocol)
      == Returns(Some(HostPort(host, port, defaultProtocol)))
  {
    var s := host + ":" + IntToString(port);
    IntToStringShape(port);
    assert s[0] == host[0] && s[|s| - 1] == IntToString(port)[|IntToString(port)| - 1];
    StripTrimmed(s);
    AddressText(host, port);
    IntRoundTrip(port);
    FormatBare(s, host, port, defaultProtocol);
  }

  /** Bare text with a non-empty host and a non-zero integer port formats as
      that host and port with the default protocol. */
  lemma FormatBare(s: string, head: string, n: int, defaultProtocol: string)
    requires s != [] && !Contains(Strip(s), "://") && Partition(Strip(s), ":").found
    requires Partition(Strip(s), ":").head == head && ParseInt(Partition(Strip(s), ":").tail) == Some(n)
    requires head != [] && n != 0
    ensures FormatProxy(s, defaultProtocol) == Returns(Some(HostPort(head, n, defaultProtocol)))
  {
  }

  /** The bare form of `format_proxy` on any input: text that strips to
      `head:tail`, with `head` free of `:`, is `None` when `tail` does not
      read as an integer or when the host is empty or the port zero, and
      otherwise that host and port with the default protocol. */
  lemma FormatBareSplit(proxyStr: string, head: string, tail: string, defaultProtocol: string)
    requires Strip(proxyStr) == head + ":" + tail && ':' !in head
    requires !Contains(Strip(proxyStr), "://")
    ensures FormatProxy(proxyStr, defaultProtocol) ==
      match ParseInt(tail)
      case None => Returns(None)
      case Some(n) =>
        if head == [] || n == 0 then Returns(None) else Returns(Some(HostPort(head, n, defaultProtocol)))
  {
    PartitionFirst(head, ':', tail);
    assert proxyStr != [];
  }

  /** The value passed to `validate_port`: an integer, a text, or `None`. */
  datatype PortValue = PortInt(n: int) | PortText(t: string) | PortNone

  /** `validate_port`: `int(port)` succeeds and lies in [1, 65535]; a failing
      conversion is `False`, never an exception. */
  function ValidatePort(port: PortValue): (ok: bool)
    ensures ok ==> !port.PortNone?
    ensures port.PortInt? ==> (ok <==> 1 <= port.n <= 65535)
    ensures port.PortText? ==> (ok <==> ParseInt(port.t).Some? && 1 <= ParseInt(port.t).value <= 65535)
  {
    match port
    case PortInt(n) => 1 <= n <= 65535
    case PortText(t) => ParseInt(t).Some? && 1 <= ParseInt(t).value <= 65535
    case PortNone => false
  }

  /** A port judged as a number or as its decimal text is judged alike. */
  lemma ValidatePortText(n: int)
    ensures ValidatePort(PortText(IntToString(n))) == ValidatePort(PortInt(n))
  {
    IntRoundTrip(n);
  }

  /** `validate_proxy`: the string formats, its host passes `isIp` (the
      `socket.inet_aton` check, not modelled) and its port is in range. An
      exception from `format_proxy` propagates. */
  function ValidateProxy(proxyStr: string, isIp: string -> bool): (r: Outcome<bool>)
    ensures r.Raises? <==> FormatProxy(proxyStr).Raises?
    ensures r == Returns(true) <==>
      (FormatProxy(proxyStr).Returns? && FormatProxy(proxyStr).value.Some?
       && isIp(FormatProxy(proxyStr).value.value.host)
       && 1 <= FormatProxy(proxyStr).value.value.port <= 65535)
  {
    match FormatProxy(proxyStr)
    case Raises => Raises
    case Returns(None) => Returns(false)
    case Returns(Some(hp)) => Returns(isIp(hp.host) && ValidatePort(PortInt(hp.port)))
  }

  // ---- parse_proxy_string and the dictionary renderings ----

  /** The keys of a proxy dictionary: the four `parse_proxy_string` writes and
      any other a caller may put there. */
  datatype Field = RawStringKey | HostKey | PortKey | ProtocolKey | OtherKey(name: string)

  /** A dictionary value: a string, an integer, or `None`. */
  datatype Value = Str(s: string) | Int(n: int) | Null

  type ProxyDict = map<Field, Value>

  /** A value inside an f-string: `str(v)`. */
  function Render(v: Value): string {
    match v
    case Str(s) => s
    case Int(n) => IntToString(n)
    case Null => "None"
  }

  /** The dictionary `parse_proxy_string` returns for the stripped text, the
      host, port and protocol it read, once the default port is filled in. */
  function ParseResult(raw: string, host: Value, port: Value, protocol: string): (d: ProxyDict)
    ensures d.Keys == {RawStringKey, HostKey, PortKey, ProtocolKey}
    ensures d[RawStringKey] == Str(raw) && d[HostKey] == host && d[ProtocolKey] == Str(protocol)
    ensures d[PortKey] == if port == Null || port == Int(0) then Int(DefaultPort(protocol)) else port
  {
    map[RawStringKey := Str(raw), HostKey := host,
        PortKey := if port == Null || port == Int(0) then Int(DefaultPort(protocol)) else port,
        ProtocolKey := Str(protocol)]
  }

  /** The port assumed when none (or zero) is given. */
  function DefaultPort(protocol: string): int {
    if protocol == "https" then 443 else 80
  }

  /** What `parse_proxy_string` reads from the stripped text before filling in
      the default port. */
  datatype Reading = Reading(host: Value, port: Value, protocol: string)

  /** The reading of stripped text: a URL's hostname and port may be absent
      (`None`), and a URL `urlparse` rejects, or with a malformed port, raises;
      bare text without `:` or with a non-integer port is not read (`None`). */
  function ReadProxy(s: string): (r: Outcome<Option<Reading>>)
    ensures r.Raises? ==> Contains(s, "://")
    ensures r.Returns? && r.value.Some? ==> r.value.value.port == Null || r.value.value.port.Int?
  {
    if Contains(s, "://") then
      match UrlSplit(s)
      case Raises => Raises
      case Returns(u) =>
        var host := if Hostname(u).Some? then Str(Hostname(u).value) else Null;
        match Port(u)
        case PortError => Raises
        case NoPort => Returns(Some(Reading(host, Null, u.scheme)))
        case PortNumber(n) => Returns(Some(Reading(host, Int(n), u.scheme)))
    else
      var parts := Partition(s, ":");
      if !parts.found then Returns(None)
      else
        match ParseInt(parts.tail)
        case None => Returns(None)
        case Some(n) => Returns(Some(Reading(Str(parts.head), Int(n), "http")))
  }

  /** `parse_proxy_string` as a value: `None` for the empty string and for text
      that does not read; otherwise the dictionary of the stripped text and
      its reading, where a missing or zero port becomes 443 for https and 80
      otherwise. */
  function ParseProxy(proxyStr: string): (r: Outcome<Option<ProxyDict>>)
    ensures r.Raises? ==> Contains(Strip(proxyStr), "://")
    ensures r.Returns? && r.value.Some? ==>
      var d := r.value.value;
      d.Keys == {RawStringKey, HostKey, PortKey, ProtocolKey}
      && d[RawStringKey] == Str(Strip(proxyStr)) && d[ProtocolKey].Str?
      && d[PortKey].Int? && d[PortKey].n != 0
  {
    if proxyStr == [] then Returns(None)
    else
      var s := Strip(proxyStr);
      var read := ReadProxy(s);
      if read.Raises? then Raises
      else if read.value.None? then Returns(None)
      else
        var rd := read.value.value;
        ResultShape(s, rd.host, rd.port, rd.protocol);
        Returns(Some(ParseResult(s, rd.host, rd.port, rd.protocol)))
  }

  /** The dictionary holds the four keys and a non-zero integer port. */
  lemma ResultShape(raw: string, host: Value, port: Value, protocol: string)
    requires port == Null || port.Int?
    ensures var d := ParseResult(raw, host, port, protocol);
      d.Keys == {RawStringKey, HostKey, PortKey, ProtocolKey}
      && d[RawStringKey] == Str(raw) && d[ProtocolKey].Str?
      && d[PortKey].Int? && d[PortKey].n != 0
  {
  }

  /** `parse_proxy_string`: start from the default dictionary and overwrite
      its fields one by one, as the source does. */
  method ParseProxyString(proxyStr: string) returns (r: Outcome<Option<ProxyDict>>)
    ensures r == ParseProxy(proxyStr)
  {
    if proxyStr == [] {
      return Returns(None);
    }
    var s := Strip(proxyStr);
    var read;
    if Contains(s, "://") {
      read := ReadUrlFields(s, Initial(s));
    } else {
      read := ReadBareFields(s, Initial(s));
    }
    if !(read.Returns? && read.value.Some?) {
      return read;
    }
    ghost var rd := ReadProxy(s).value.value;
    var result := read.value.value;
    if result[PortKey] == Null || result[PortKey] == Int(0) {
      if result[ProtocolKey] == Str("https") {
        result := result[PortKey := Int(443)];
      } else {
        result := result[PortKey := Int(80)];
      }
    }
    DefaultPortFilled(s, rd);
    return Returns(Some(result));
  }

  /** The dictionary `parse_proxy_string` starts from. */
  function Initial(raw: string): ProxyDict {
    map[RawStringKey := Str(raw), HostKey := Null, PortKey := Null, ProtocolKey := Str("http")]
  }

  /** The dictionary of a reading before the default port is filled in. */
  function Fields(raw: string, rd: Reading): ProxyDict {
    map[RawStringKey := Str(raw), HostKey := rd.host, PortKey := rd.port, ProtocolKey := Str(rd.protocol)]
  }

  /** What the reading of stripped text leaves in the dictionary before the
      default port is filled in. */
  function Unfilled(s: string): Outcome<Option<ProxyDict>> {
    match ReadProxy(s)
    case Raises => Raises
    case Returns(None) => Returns(None)
    case Returns(Some(rd)) => Returns(Some(Fields(s, rd)))
  }

  /** The URL branch of `parse_proxy_string`: scheme, hostname and port. */
  method ReadUrlFields(s: string, result: ProxyDict) returns (r: Outcome<Option<ProxyDict>>)
    requires Contains(s, "://") && result == Initial(s)
    ensures r == Unfilled(s)
  {
    var parsed := UrlSplit(s);
    if parsed.Raises? {
      return Raises;
    }
    var u := parsed.value;
    UrlUnfilled(s, u);
    var fields := result[ProtocolKey := Str(u.scheme)];
    var hostname := Hostname(u);
    fields := fields[HostKey := if hostname.Some? then Str(hostname.value) else Null];
    var port := Port(u);
    if port.PortError? {
      return Raises;
    }
    fields := fields[PortKey := if port.PortNumber? then Int(port.n) else Null];
    ghost var rd := Reading(if hostname.Some? then Str(hostname.value) else Null,
                            if port.PortNumber? then Int(port.n) else Null, u.scheme);
    UrlFields(s, rd);
    return Returns(Some(fields));
  }

  /** The reading of a URL `urlparse` accepts. */
  lemma UrlUnfilled(s: string, u: UrlView)
    requires Contains(s, "://") && UrlSplit(s) == Returns(u)
    ensures Unfilled(s) == if Port(u).PortError? then Raises else
      Returns(Some(Fields(s, Reading(if Hostname(u).Some? then Str(Hostname(u).value) else Null,
                                     if Port(u).PortNumber? then Int(Port(u).n) else Null, u.scheme))))
  {
  }

  /** The bare branch of `parse_proxy_string`: `host:port` split at the first `:`. */
  method ReadBareFields(s: string, result: ProxyDict) returns (r: Outcome<Option<ProxyDict>>)
    requires !Contains(s, "://") && result == Initial(s)
    ensures r == Unfilled(s)
  {
    var parts := Partition(s, ":");
    if !parts.found {
      return Returns(None);
    }
    var fields := result[HostKey := Str(parts.head)];
    var n := ParseInt(parts.tail);
    if n.None? {
      return Returns(None);
    }
    fields := fields[PortKey := Int(n.value)];
    ghost var rd := Reading(Str(parts.head), Int(n.value), "http");
    BareFields(s, rd);
    assert ReadProxy(s) == Returns(Some(rd));
    return Returns(Some(fields));
  }

  /** The default dictionary after the URL branch's three assignments. */
  lemma UrlFields(raw: string, rd: Reading)
    ensures Initial(raw)[ProtocolKey := Str(rd.protocol)][HostKey := rd.host][PortKey := rd.port] == Fields(raw, rd)
  {
  }

  /** The default dictionary after the bare branch's two assignments. */
  lemma BareFields(raw: string, rd: Reading)
    requires rd.protocol == "http"
    ensures Initial(raw)[HostKey := rd.host][PortKey := rd.port] == Fields(raw, rd)
  {
  }

  /** Filling in the default port gives the dictionary `ParseResult` describes. */
  lemma DefaultPortFilled(raw: string, rd: Reading)
    ensures (rd.port == Null || rd.port == Int(0)) && rd.protocol == "https" ==>
      Fields(raw, rd)[PortKey := Int(443)] == ParseResult(raw, rd.host, rd.port, rd.protocol)
    ensures (rd.port == Null || rd.port == Int(0)) && rd.protocol != "https" ==>
      Fields(raw, rd)[PortKey := Int(80)] == ParseResult(raw, rd.host, rd.port, rd.protocol)
    ensures rd.port != Null && rd.port != Int(0) ==>
      Fields(raw, rd) == ParseResult(raw, rd.host, rd.port, rd.protocol)
  {
  }

  /** Bare `host:port` text is tagged http and keeps its port, except that a
      zero port becomes 80. */
  lemma ParseBare(proxyStr: string)
    requires proxyStr != [] && !Contains(Strip(proxyStr), "://")
    requires Partition(Strip(proxyStr), ":").found
    requires ParseInt(Partition(Strip(proxyStr), ":").tail).Some?
    ensures var parts := Partition(Strip(proxyStr), ":");
      ParseProxy(proxyStr) == Returns(Some(ParseResult(Strip(proxyStr), Str(parts.head), Int(ParseInt(parts.tail).value), "http")))
  {
    var s := Strip(proxyStr);
    var parts := Partition(s, ":");
    var n := ParseInt(parts.tail).value;
    ReadBare(s, parts.head, n);
    ParseOfReading(proxyStr, Reading(Str(parts.head), Int(n), "http"));
  }

  /** Bare text with a `:` and an integer after it reads as `host:port`. */
  lemma ReadBare(s: string, head: string, n: int)
    requires !Contains(s, "://") && Partition(s, ":").found
    requires Partition(s, ":").head == head && ParseInt(Partition(s, ":").tail) == Some(n)
    ensures ReadProxy(s) == Returns(Some(Reading(Str(head), Int(n), "http")))
  {
  }

  /** What a reading of the stripped text makes of the whole string. */
  lemma ParseOfReading(proxyStr: string, rd: Reading)
    requires proxyStr != [] && ReadProxy(Strip(proxyStr)) == Returns(Some(rd))
    ensures ParseProxy(proxyStr) == Returns(Some(ParseResult(Strip(proxyStr), rd.host, rd.port, rd.protocol)))
  {
  }

  /** A URL without a port, or with port 0, gets 443 when its scheme is https
      and 80 otherwise. */
  lemma ParseUrlDefaultPort(proxyStr: string)
    requires proxyStr != [] && Contains(Strip(proxyStr), "://")
    requires UrlSplit(Strip(proxyStr)).Returns?
    requires Port(UrlSplit(Strip(proxyStr)).value) in {NoPort, PortNumber(0)}
    ensures var u := UrlSplit(Strip(proxyStr)).value;
      ParseProxy(proxyStr).Returns? && ParseProxy(proxyStr).value.Some?
      && ParseProxy(proxyStr).value.value[ProtocolKey] == Str(u.scheme)
      && ParseProxy(proxyStr).value.value[PortKey] == Int(if u.scheme == "https" then 443 else 80)
  {
    var s := Strip(proxyStr);
    var u := UrlSplit(s).value;
    var host := if Hostname(u).Some? then Str(Hostname(u).value) else Null;
    var port := if Port(u).PortNumber? then Int(0) else Null;
    ReadUrl(s, u, host, port);
    ParseOfReading(proxyStr, Reading(host, port, u.scheme));
  }

  /** A URL `urlparse` accepts, with a well-formed port, reads as its
      hostname, port and scheme. */
  lemma ReadUrl(s: string, u: UrlView, host: Value, port: Value)
    requires Contains(s, "://") && UrlSplit(s) == Returns(u) && !Port(u).PortError?
    requires host == if Hostname(u).Some? then Str(Hostname(u).value) else Null
    requires port == if Port(u).PortNumber? then Int(Port(u).n) else Null
    ensures ReadProxy(s) == Returns(Some(Reading(host, port, u.scheme)))
  {
  }

  /** `format_proxy` and `parse_proxy_string` agree on every string the first
      accepts (with its default protocol). */
  lemma FormatAgreesWithParse(proxyStr: string)
    requires FormatProxy(proxyStr).Returns? && FormatProxy(proxyStr).value.Some?
    ensures var hp := FormatProxy(proxyStr).value.value;
      ParseProxy(proxyStr).Returns? && ParseProxy(proxyStr).value.Some?
      && ParseProxy(proxyStr).value.value[HostKey] == Str(hp.host)
      && ParseProxy(proxyStr).value.value[PortKey] == Int(hp.port)
      && ParseProxy(proxyStr).value.value[ProtocolKey] == Str(hp.protocol)
  {
    var hp := FormatProxy(proxyStr).value.value;
    if Contains(Strip(proxyStr), "://") {
      FormatReadsUrl(proxyStr);
    } else {
      FormatReadsBare(proxyStr);
    }
    ParseOfReading(proxyStr, Reading(Str(hp.host), Int(hp.port), hp.protocol));
  }

  /** The URL case of `FormatAgreesWithParse`. */
  lemma FormatReadsUrl(proxyStr: string)
    requires FormatProxy(proxyStr).Returns? && FormatProxy(proxyStr).value.Some?
    requires Contains(Strip(proxyStr), "://")
    ensures var hp := FormatProxy(proxyStr).value.value;
      ReadProxy(Strip(proxyStr)) == Returns(Some(Reading(Str(hp.host), Int(hp.port), hp.protocol)))
  {
    var s := Strip(proxyStr);
    assert proxyStr != [];
    var o := UrlSplit(s);
    assert o.Returns?;
    var u := o.value;
    var n := Port(u);
    var h := Hostname(u);
    assert n.PortNumber? && h.Some?;
    assert FormatProxy(proxyStr).value.value == HostPort(h.value, n.n, u.scheme);
    ReadUrl(s, u, Str(h.value), Int(n.n));
  }

  /** The bare `host:port` case of `FormatAgreesWithParse`. */
  lemma FormatReadsBare(proxyStr: string)
    requires FormatProxy(proxyStr).Returns? && FormatProxy(proxyStr).value.Some?
    requires !Contains(Strip(proxyStr), "://")
    ensures var hp := FormatProxy(proxyStr).value.value;
      ReadProxy(Strip(proxyStr)) == Returns(Some(Reading(Str(hp.host), Int(hp.port), hp.protocol)))
  {
    var parts := Partition(Strip(proxyStr), ":");
    var hp := FormatProxy(proxyStr).value.value;
    assert hp.host == parts.head && ParseInt(parts.tail) == Some(hp.port) && hp.protocol == "http";
  }

  /** `proxy_to_simple_string`: `None` for `None`, an empty dictionary, or one
      missing the host or the port; otherwise `host:port`. */
  function ProxyToSimpleString(proxyDict: Option<ProxyDict>): (r: Option<string>)
    ensures r.Some? <==> proxyDict.Some? && HostKey in proxyDict.value && PortKey in proxyDict.value
  {
    match proxyDict
    case None => None
    case Some(d) =>
      if d == map[] || HostKey !in d || PortKey !in d then None
      else Some(Render(d[HostKey]) + ":" + Render(d[PortKey]))
  }

  /** `proxy_to_url`: the same checks; `protocol://host:port`, with http when
      the dictionary has no protocol. */
  function ProxyToUrl(proxyDict: Option<ProxyDict>): (r: Option<string>)
    ensures r.Some? <==> proxyDict.Some? && HostKey in proxyDict.value && PortKey in proxyDict.value
  {
    match proxyDict
    case None => None
    case Some(d) =>
      if d == map[] || HostKey !in d || PortKey !in d then None
      else
        var protocol := if ProtocolKey in d then d[ProtocolKey] else Str("http");
        Some(Render(protocol) + "://" + Render(d[HostKey]) + ":" + Render(d[PortKey]))
  }

  /** The URL form is the simple form behind the protocol's scheme. */
  lemma UrlExtendsSimple(proxyDict: Option<ProxyDict>)
    ensures ProxyToUrl(proxyDict).Some? <==> ProxyToSimpleString(proxyDict).Some?
    ensures ProxyToUrl(proxyDict).Some? ==>
      var d := proxyDict.value;
      ProxyToUrl(proxyDict).value
        == Render(if ProtocolKey in d then d[ProtocolKey] else Str("http")) + "://" + ProxyToSimpleString(proxyDict).value
  {
  }

  /** `normalize_proxy`: `host:port` of the parsed dictionary, `None` when the
      string does not parse. */
  function NormalizeProxy(proxyStr: string): (r: Outcome<Option<string>>)
    ensures r.Raises? <==> ParseProxy(proxyStr).Raises?
    ensures r.Returns? ==> r.value == ProxyToSimpleString(ParseProxy(proxyStr).value)
  {
    match ParseProxy(proxyStr)
    case Raises => Raises
    case Returns(None) => Returns(None)
    case Returns(Some(d)) => Returns(Some(Render(d[HostKey]) + ":" + Render(d[PortKey])))
  }

  /** Normalising the normal form of bare text changes nothing. */
  lemma NormalizeIdempotent(proxyStr: string)
    requires !Contains(Strip(proxyStr), "://")
    requires NormalizeProxy(proxyStr).Returns? && NormalizeProxy(proxyStr).value.Some?
    ensures NormalizeProxy(NormalizeProxy(proxyStr).value.value) == NormalizeProxy(proxyStr)
  {
    var s := Strip(proxyStr);
    var parts := Partition(s, ":");
    BareReads(proxyStr);
    var n := ParseInt(parts.tail).value;
    var port := if n == 0 then 80 else n;
    NormalBare(proxyStr, n);
    FirstSeparator(s, ':');
    assert parts.head == [] || parts.head[0] == s[0];
    AddressNormal(parts.head, port);
  }

  /** The normal form of bare text is its host and its port, 80 for zero. */
  lemma NormalBare(proxyStr: string, n: int)
    requires proxyStr != [] && !Contains(Strip(proxyStr), "://")
    requires Partition(Strip(proxyStr), ":").found
    requires ParseInt(Partition(Strip(proxyStr), ":").tail) == Some(n)
    ensures NormalizeProxy(proxyStr) ==
      Returns(Some(Partition(Strip(proxyStr), ":").head + ":" + IntToString(if n == 0 then 80 else n)))
  {
    var s := Strip(proxyStr);
    var parts := Partition(s, ":");
    ParseBare(proxyStr);
    NormalizeOf(proxyStr, ParseResult(s, Str(parts.head), Int(n), "http"));
    RenderBare(s, parts.head, n);
  }

  /** The host and port of bare text's dictionary, rendered. */
  lemma RenderBare(raw: string, head: string, n: int)
    ensures var d := ParseResult(raw, Str(head), Int(n), "http");
      Render(d[HostKey]) + ":" + Render(d[PortKey]) == head + ":" + IntToString(if n == 0 then 80 else n)
  {
  }

  /** Bare text that normalises holds a `:` followed by an integer. */
  lemma BareReads(proxyStr: string)
    requires !Contains(Strip(proxyStr), "://")
    requires ParseProxy(proxyStr).Returns? && ParseProxy(proxyStr).value.Some?
    ensures proxyStr != [] && Partition(Strip(proxyStr), ":").found
    ensures ParseInt(Partition(Strip(proxyStr), ":").tail).Some?
  {
  }

  /** `host:port` text whose host has no `:` and does not start with white
      space, and whose port is not zero, is its own normal form. */
  lemma AddressNormal(host: string, port: int)
    requires ':' !in host && (host == [] || !IsSpace(host[0])) && port != 0
    ensures NormalizeProxy(host + ":" + IntToString(port)) == Returns(Some(host + ":" + IntToString(port)))
  {
    var t := host + ":" + IntToString(port);
    AddressTrimmed(host, port);
    ReadAddress(host, port);
    ParseOfReading(t, Reading(Str(host), Int(port), "http"));
    var d := ParseResult(t, Str(host), Int(port), "http");
    NormalizeOf(t, d);
    assert Render(d[HostKey]) == host && Render(d[PortKey]) == IntToString(port);
  }

  /** What a parsed dictionary makes of the normal form. */
  lemma NormalizeOf(proxyStr: string, d: ProxyDict)
    requires ParseProxy(proxyStr) == Returns(Some(d))
    ensures NormalizeProxy(proxyStr) == Returns(Some(Render(d[HostKey]) + ":" + Render(d[PortKey])))
  {
  }

  /** `host:port` text reads as that host and port, tagged http. */
  lemma ReadAddress(host: string, port: int)
    requires ':' !in host
    ensures ReadProxy(host + ":" + IntToString(port)) == Returns(Some(Reading(Str(host), Int(port), "http")))
  {
    AddressText(host, port);
    IntRoundTrip(port);
  }

  /** Such text has no white space to strip. */
  lemma AddressTrimmed(host: string, port: int)
    requires host == [] || !IsSpace(host[0])
    ensures Strip(host + ":" + IntToString(port)) == host + ":" + IntToString(port)
  {
    var digits := IntToString(port);
    var t := host + ":" + digits;
    IntToStringShape(port);
    assert t[|t| - 1] == digits[|digits| - 1];
    assert t[0] == if host == [] then ':' else host[0];
    StripTrimmed(t);
  }

  // ---- extract_proxies_from_text ----

  /** What every match of the `ip:port` pattern has in common: it is made of
      decimal digits (any Unicode decimal digit, as the pattern is a `str`
      pattern), dots and colons, so it holds no `/`. */
  predicate PatternMatch(m: string) {
    forall i :: 0 <= i < |m| ==> m[i] != '/'
  }

  /** A pattern match never raises in `validate_proxy`: only text holding
      `://` can raise, and stripping cannot bring in a `/`. */
  lemma PatternMatchFormats(m: string)
    requires PatternMatch(m)
    ensures FormatProxy(m).Returns?
  {
    assert '/' !in m;
    StripKeepsOut(m, '/');
    NoSlashNoMark(Strip(m));
  }

  /** The matches `validate_proxy` accepts, in order. */
  function Accepted(matches: seq<string>, isIp: string -> bool): (r: seq<string>)
    ensures |r| <= |matches|
  {
    if matches == [] then []
    else
      var init := Accepted(matches[..|matches| - 1], isIp);
      var last := matches[|matches| - 1];
      if ValidateProxy(last, isIp) == Returns(true) then init + [last] else init
  }

  /** The accepted matches are exactly the matches that validate. */
  lemma {:induction false} AcceptedExact(matches: seq<string>, isIp: string -> bool)
    ensures forall p :: p in Accepted(matches, isIp) <==> p in matches && ValidateProxy(p, isIp) == Returns(true)
  {
    if matches != [] {
      var init := matches[..|matches| - 1];
      AcceptedExact(init, isIp);
      assert matches == init + [matches[|matches| - 1]];
    }
  }

  /** `extract_proxies_from_text` after the pattern search, which is given as
      `matches`: keep each match that `validate_proxy` accepts. */
  method ExtractProxies(matches: seq<string>, isIp: string -> bool) returns (proxies: seq<string>)
    requires forall i :: 0 <= i < |matches| ==> PatternMatch(matches[i])
    ensures proxies == Accepted(matches, isIp)
  {
    proxies := [];
    for i := 0 to |matches|
      invariant proxies == Accepted(matches[..i], isIp)
    {
      var m := matches[i];
      AcceptedStep(matches, i, isIp, proxies);
      if ValidateProxy(m, isIp).value {
        proxies := proxies + [m];
      }
    }
    assert matches[..|matches|] == matches;
  }

  /** One step of that loop: the next match is kept exactly when it validates. */
  lemma AcceptedStep(matches: seq<string>, i: nat, isIp: string -> bool, before: seq<string>)
    requires i < |matches| && PatternMatch(matches[i]) && before == Accepted(matches[..i], isIp)
    ensures ValidateProxy(matches[i], isIp).Returns?
    ensures Accepted(matches[..i + 1], isIp) ==
      if ValidateProxy(matches[i], isIp) == Returns(true) then before + [matches[i]] else before
  {
    PatternMatchFormats(matches[i]);
    AcceptedSnoc(matches, i, isIp);
  }

  lemma AcceptedSnoc(matches: seq<string>, i: nat, isIp: string -> bool)
    requires i < |matches|
    ensures Accepted(matches[..i + 1], isIp) ==
      Accepted(matches[..i], isIp) + if ValidateProxy(matches[i], isIp) == Returns(true) then [matches[i]] else []
  {
    var xs := matches[..i + 1];
    assert xs[..|xs| - 1] == matches[..i] && xs[|xs| - 1] == matches[i];
  }

  // ---- split_list ----

  /** All pieces one after the other. */
  function Flatten<T>(pieces: seq<seq<T>>): seq<T> {
    if pieces == [] then [] else Flatten(pieces[..|pieces| - 1]) + pieces[|pieces| - 1]
  }

  /** Where piece `i` starts when pieces are `k` long and the first `m` of them
      one longer. */
  function Cut(k: nat, m: nat, i: nat): nat {
    if i == 0 then 0 else Cut(k, m, i - 1) + k + (if i - 1 < m then 1 else 0)
  }

  /** `Cut` is the source's `i * k + min(i, m)`. */
  lemma {:induction false} CutFormula(k: nat, m: nat, i: nat)
    ensures Cut(k, m, i) == i * k + (if i < m then i else m)
  {
    if i > 0 {
      CutFormula(k, m, i - 1);
      assert i * k == (i - 1) * k + k;
    }
  }

  /** With `k, m = divmod(len, n)`, the cuts stay within the list and the last
      one is its end. */
  lemma CutBounds(len: nat, n: nat, i: nat)
    requires n > 0 && i <= n
    ensures Cut(len / n, len % n, i) <= len
    ensures Cut(len / n, len % n, n) == len
  {
    var k: nat, m: nat := len / n, len % n;
    assert len == n * k + m && m < n;
    CutWithin(k, m, n, i, len);
  }

  /** `CutBounds` with the quotient and the remainder named. */
  lemma CutWithin(k: nat, m: nat, n: nat, i: nat, len: nat)
    requires i <= n && m < n && len == n * k + m
    ensures Cut(k, m, i) <= len && Cut(k, m, n) == len
  {
    CutFormula(k, m, i);
    CutFormula(k, m, n);
    MulMonotone(i, n, k);
  }

  lemma {:induction false} MulMonotone(i: nat, n: nat, k: nat)
    requires i <= n
    ensures i * k <= n * k
  {
    if i < n {
      MulMonotone(i, n - 1, k);
      assert n * k == (n - 1) * k + k;
    }
  }

  /** Piece `i` of `split_list`. */
  function Piece<T>(lst: seq<T>, n: nat, i: nat): seq<T>
    requires 0 <= i < n
  {
    PieceBounds(|lst|, n, i);
    lst[Cut(|lst| / n, |lst| % n, i)..Cut(|lst| / n, |lst| % n, i + 1)]
  }

  /** Piece `i` starts no later than it ends, and ends within the list. */
  lemma PieceBounds(len: nat, n: nat, i: nat)
    requires 0 <= i < n
    ensures Cut(len / n, len % n, i) <= Cut(len / n, len % n, i + 1) <= len
  {
    var k: nat, m: nat := len / n, len % n;
    CutBounds(len, n, i + 1);
    assert Cut(k, m, i + 1) == Cut(k, m, i) + k + (if i < m then 1 else 0);
  }

  /** `split_list(lst, n)`: dividing by zero raises; a negative `n` gives no
      pieces. */
  function SplitList<T>(lst: seq<T>, n: int): (r: Outcome<seq<seq<T>>>)
    ensures r.Raises? <==> n == 0
    ensures n < 0 ==> r == Returns([])
  {
    if n == 0 then Raises
    else if n < 0 then Returns([])
    else Returns(seq(n, i requires 0 <= i < n => Piece(lst, n, i)))
  }

  /** `split_list` gives exactly `n` pieces, the first `len % n` of them one
      longer than the others. */
  lemma SplitListPieces<T>(lst: seq<T>, n: int)
    requires n > 0
    ensures |SplitList(lst, n).value| == n
    ensures forall i :: 0 <= i < n ==>
      |SplitList(lst, n).value[i]| == |lst| / n + (if i < |lst| % n then 1 else 0)
  {
    var k: nat, m: nat := |lst| / n, |lst| % n;
    forall i | 0 <= i < n
      ensures |SplitList(lst, n).value[i]| == k + (if i < m then 1 else 0)
    {
      assert SplitList(lst, n).value[i] == Piece(lst, n, i);
      CutBounds(|lst|, n, i + 1);
      assert Cut(k, m, i + 1) == Cut(k, m, i) + k + (if i < m then 1 else 0);
    }
  }

  /** The pieces of `split_list`, joined, are the list. */
  lemma {:induction false} SplitListFlatten<T>(lst: seq<T>, n: int)
    requires n > 0
    ensures Flatten(SplitList(lst, n).value) == lst
  {
    var pieces := SplitList(lst, n).value;
    FlattenPrefix(lst, n, n);
    assert pieces[..n] == pieces;
    CutBounds(|lst|, n, n);
  }

  lemma {:induction false} FlattenPrefix<T>(lst: seq<T>, n: nat, j: nat)
    requires 0 < n && j <= n
    ensures Cut(|lst| / n, |lst| % n, j) <= |lst|
    ensures Flatten(SplitList(lst, n).value[..j]) == lst[..Cut(|lst| / n, |lst| % n, j)]
  {
    var k: nat, m: nat := |lst| / n, |lst| % n;
    var pieces := SplitList(lst, n).value;
    CutBounds(|lst|, n, j);
    if j == 0 {
      assert pieces[..0] == [];
    } else {
      FlattenPrefix(lst, n, j - 1);
      var c0, c1 := Cut(k, m, j - 1), Cut(k, m, j);
      assert c0 <= c1 <= |lst|;
      var prefix := pieces[..j];
      assert prefix[..j - 1] == pieces[..j - 1];
      assert prefix[j - 1] == Piece(lst, n, j - 1);
      assert Piece(lst, n, j - 1) == lst[c0..c1];
      assert Flatten(prefix) == Flatten(prefix[..j - 1]) + prefix[j - 1];
      assert lst[..c1] == lst[..c0] + lst[c0..c1];
    }
  }

  // ---- retry_on_failure ----

  /** One call of the wrapped function: it returns a value or raises. */
  datatype Attempt<T> = Success(value: T) | Failure(error: string)

  /** The exception `raise None` produces when no attempt was made. */
  const RaiseNoneError: string := "TypeError: exceptions must derive from BaseException"

  function Pow2(j: nat): (p: nat)
    ensures p >= 1
  {
    if j == 0 then 1 else 2 * Pow2(j - 1)
  }

  /** The pauses after the first `k` failed attempts: `delay * 2 ** attempt`. */
  function Backoff(delay: int, k: nat): (s: seq<int>)
    ensures |s| == k && forall j :: 0 <= j < k ==> s[j] == delay * Pow2(j)
  {
    if k == 0 then [] else Backoff(delay, k - 1) + [delay * Pow2(k - 1)]
  }

  /** The wrapper `retry_on_failure(maxRetries, delay)` puts around a call:
      `attempt(j)` is what the `j`-th call does. It returns the first success;
      after `maxRetries` failures it re-raises the last one, and with no
      attempts at all it raises `None`. `sleeps` are the pauses taken, one
      after each failed attempt but the last. */
  method RetryOnFailure<T>(maxRetries: int, delay: int, attempt: nat -> Attempt<T>)
    returns (r: Attempt<T>, calls: nat, sleeps: seq<int>)
    ensures maxRetries <= 0 ==> calls == 0 && r == Failure(RaiseNoneError) && sleeps == []
    ensures maxRetries > 0 ==> 1 <= calls <= maxRetries && r == attempt(calls - 1)
    ensures forall j :: 0 <= j < calls - 1 ==> attempt(j).Failure?
    ensures maxRetries > 0 && r.Failure? ==> calls == maxRetries
    ensures r.Success? <==> exists j :: 0 <= j < maxRetries && attempt(j).Success?
    ensures calls > 0 ==> sleeps == Backoff(delay, calls - 1)
  {
    var lastException: Option<string> := None;
    calls := 0;
    sleeps := [];
    var rounds := if maxRetries < 0 then 0 else maxRetries;
    for a := 0 to rounds
      invariant calls == a
      invariant forall j :: 0 <= j < a ==> attempt(j).Failure?
      invariant a > 0 ==> lastException == Some(attempt(a - 1).error)
      invariant a == 0 ==> lastException == None && sleeps == []
      invariant 0 < a < maxRetries ==> sleeps == Backoff(delay, a)
      invariant 0 < a == maxRetries ==> sleeps == Backoff(delay, a - 1)
    {
      var outcome := attempt(a);
      calls := calls + 1;
      if outcome.Success? {
        return outcome, calls, sleeps;
      }
      lastException := Some(outcome.error);
      if a < maxRetries - 1 {
        sleeps := sleeps + [delay * Pow2(a)];
      }
    }
    if lastException.None? {
      return Failure(RaiseNoneError), calls, sleeps;
    }
    r := Failure(lastException.value);
  }
}
