/** The part of Python's `urllib.parse.urlparse` that the proxy code reads:
    the scheme, the host name and the port of a `scheme://netloc...` string. */
module Url {
  import opened Wrappers
  import opened Text
  import opened PyInt

  /** What `parsed.port` does: `None`, a number, or raising `ValueError`. */
  datatype PortField = NoPort | PortNumber(n: int) | PortError

  /** The scheme and network location `urlsplit` extracts. */
  datatype UrlView = UrlView(scheme: string, netloc: string)

  predicate IsAsciiLetter(c: char) {
    ('a' <= c <= 'z') || ('A' <= c <= 'Z')
  }

  /** The characters allowed in a URL scheme. */
  predicate IsSchemeChar(c: char) {
    IsAsciiLetter(c) || IsDigit(c) || c == '+' || c == '-' || c == '.'
  }

  /** The text before the first `:` is a scheme when it is non-empty, starts with
      a letter and holds scheme characters only. */
  predicate HasScheme(s: string, i: nat)
    requires i <= |s|
  {
    i > 0 && IsAsciiLetter(s[0]) && forall j :: 0 <= j < i ==> IsSchemeChar(s[j])
  }

  /** The length of the network location: up to the first `/`, `?` or `#`. */
  function NetlocLength(t: string): (n: nat)
    ensures n <= |t|
    ensures forall j :: 0 <= j < n ==> t[j] != '/' && t[j] != '?' && t[j] != '#'
    ensures n < |t| ==> t[n] == '/' || t[n] == '?' || t[n] == '#'
  {
    if t == [] || t[0] == '/' || t[0] == '?' || t[0] == '#' then 0
    else 1 + NetlocLength(t[1..])
  }

  /** `urlsplit(s)`: the lower-cased scheme (empty when there is none) and the
      network location (empty unless `//` follows the scheme). A location with a
      `[` but no `]`, or the other way round, raises `ValueError`. */
  function UrlSplit(s: string): Outcome<UrlView> {
    var colon := Find(s, ":");
    var hasScheme := colon.Some? && HasScheme(s, colon.value);
    var scheme := if hasScheme then Lower(s[..colon.value]) else "";
    var rest := if hasScheme then s[colon.value + 1..] else s;
    var netloc := if StartsWith(rest, "//") then rest[2..][..NetlocLength(rest[2..])] else "";
    if ('[' in netloc && ']' !in netloc) || (']' in netloc && '[' !in netloc) then Raises
    else Returns(UrlView(scheme, netloc))
  }

  /** `_hostinfo`: the host text and the port text of a network location, after
      dropping any `user@` part; an empty port text counts as no port. */
  function HostInfo(netloc: string): (string, Option<string>) {
    var hostinfo := RPartitionChar(netloc, '@').tail;
    var br := Partition(hostinfo, "[");
    var hp := if br.found then
        var closed := Partition(br.tail, "]");
        (closed.head, Partition(closed.tail, ":").tail)
      else
        var split := Partition(hostinfo, ":");
        (split.head, split.tail);
    (hp.0, if hp.1 == [] then None else Some(hp.1))
  }

  /** `parsed.hostname`: `None` when the host text is empty, otherwise the host
      lower-cased up to any `%` zone suffix. */
  function Hostname(u: UrlView): Option<string> {
    var host := HostInfo(u.netloc).0;
    if host == [] then None
    else
      var z := Partition(host, "%");
      Some(if z.found then Lower(z.head) + "%" + z.tail else Lower(host))
  }

  /** `parsed.port`: no port, a number in [0, 65535], or `ValueError` for a port
      text that is not all ASCII digits or is out of range. */
  function Port(u: UrlView): PortField {
    match HostInfo(u.netloc).1
    case None => NoPort
    case Some(p) =>
      if AllDigits(p) && DigitsValue(p) <= 65535 then PortNumber(DigitsValue(p))
      else PortError
  }

  /** No character of `s` is one `urlsplit` treats specially inside a host. */
  predicate PlainHost(s: string) {
    forall i :: 0 <= i < |s| ==>
      s[i] !in ":/?#@[]%" && !('A' <= s[i] <= 'Z')
  }

  lemma LowerPlain(s: string)
    requires PlainHost(s)
    ensures Lower(s) == s
  {
  }

  /** A valid lower-case scheme followed by `://` and a location free of `/`,
      `?`, `#`, `[` and `]` splits into exactly that scheme and location. */
  lemma SplitWithScheme(scheme: string, netloc: string)
    requires HasScheme(scheme, |scheme|) && ':' !in scheme && Lower(scheme) == scheme
    requires forall i :: 0 <= i < |netloc| ==> netloc[i] !in "/?#[]"
    ensures UrlSplit(scheme + "://" + netloc) == Returns(UrlView(scheme, netloc))
  {
    var s := scheme + "://" + netloc;
    SchemeBeforeColon(scheme, "//" + netloc);
    assert s == scheme + ":" + ("//" + netloc);
    var rest := s[|scheme| + 1..];
    assert rest[2..] == netloc;
    NetlocWhole(netloc);
    assert netloc[..|netloc|] == netloc;
  }

  /** The first `:` after a scheme ends that scheme. */
  lemma SchemeBeforeColon(scheme: string, rest: string)
    requires HasScheme(scheme, |scheme|) && ':' !in scheme
    ensures var s := scheme + ":" + rest;
      Find(s, ":") == Some(|scheme|) && HasScheme(s, |scheme|)
      && s[..|scheme|] == scheme && s[|scheme| + 1..] == rest
  {
    var s := scheme + ":" + rest;
    assert s == scheme + [':'] + rest;
    FindFirstChar(scheme, ':', rest);
    assert s[..|scheme|] == scheme;
  }

  /** `host:digits` with a plain host has that host text and that port text. */
  lemma HostAndPort(host: string, digits: string)
    requires PlainHost(host) && digits != [] && AllDigits(digits)
    ensures HostInfo(host + ":" + digits) == (host, Some(digits))
  {
    var netloc := host + ":" + digits;
    assert '@' !in netloc by {
      assert forall i :: 0 <= i < |netloc| ==> netloc[i] != '@' by {
        forall i | 0 <= i < |netloc| ensures netloc[i] != '@' {
          if i < |host| { assert netloc[i] == host[i]; }
          else if i > |host| { assert netloc[i] == digits[i - |host| - 1]; }
        }
      }
    }
    assert '[' !in netloc by {
      forall i | 0 <= i < |netloc| ensures netloc[i] != '[' {
        if i < |host| { assert netloc[i] == host[i]; }
        else if i > |host| { assert netloc[i] == digits[i - |host| - 1]; }
      }
    }
    assert RPartitionChar(netloc, '@').tail == netloc;
    ContainsChar(netloc, '[');
    assert ':' !in host by {
      assert forall i :: 0 <= i < |host| ==> host[i] != ':';
    }
    FindFirstChar(host, ':', digits);
  }

  /** Parsing `scheme://host:port` gives back its scheme, host and port: the URL
      a proxy renders is read back by `urlparse` unchanged. */
  lemma ParseRenderedUrl(scheme: string, host: string, port: nat)
    requires HasScheme(scheme, |scheme|) && ':' !in scheme && Lower(scheme) == scheme
    requires host != [] && PlainHost(host)
    requires port <= 65535
    ensures var s := scheme + "://" + host + ":" + NatToString(port);
      UrlSplit(s).Returns?
      && UrlSplit(s).value.scheme == scheme
      && Hostname(UrlSplit(s).value) == Some(host)
      && Port(UrlSplit(s).value) == PortNumber(port)
  {
    var digits := NatToString(port);
    var netloc := host + ":" + digits;
    forall i | 0 <= i < |netloc| ensures netloc[i] !in "/?#[]" {
      if i < |host| { assert netloc[i] == host[i]; }
      else if i > |host| { assert netloc[i] == digits[i - |host| - 1]; }
    }
    assert scheme + "://" + host + ":" + digits == scheme + "://" + netloc;
    SplitWithScheme(scheme, netloc);
    HostAndPort(host, digits);
    assert '%' !in host by {
      assert forall i :: 0 <= i < |host| ==> host[i] != '%';
    }
    ContainsChar(host, '%');
    LowerPlain(host);
  }

  /** A text free of `/`, `?` and `#` is one whole network location. */
  lemma NetlocWhole(t: string)
    requires forall i :: 0 <= i < |t| ==> t[i] != '/' && t[i] != '?' && t[i] != '#'
    ensures NetlocLength(t) == |t|
  {
  }
  /** `host:port` text, with no `:` in the host, carries no `://` and splits at
      its only `:` into the host and the rendered port. */
  lemma AddressText(host: string, port: int)
    requires ':' !in host
    ensures var s := host + ":" + IntToString(port);
      !Contains(s, "://") && Partition(s, ":") == Parts(host, true, IntToString(port))
  {
    var digits := IntToString(port);
    var s := host + ":" + digits;
    IntToStringShape(port);
    assert s == host + [':'] + digits;
    FindFirstChar(host, ':', digits);
    assert s[..|host|] == host && s[|host| + 1..] == digits;
    forall j: nat ensures !OccursAt(s, "://", j) {
      NoMarkAt(host, digits, j);
    }
  }

  /** No `://` starts at `j` in `host:digits` when only the separator is a
      `:` and the digits start with no `/`. */
  lemma NoMarkAt(host: string, digits: string, j: nat)
    requires ':' !in host && ':' !in digits && |digits| >= 1 && digits[0] != '/'
    ensures !OccursAt(host + ":" + digits, "://", j)
  {
    var s := host + ":" + digits;
    if j + 3 <= |s| {
      if j < |host| {
        assert s[j] == host[j];
      } else if j > |host| {
        assert s[j] == digits[j - |host| - 1];
      } else {
        assert s[j + 1] == digits[0];
      }
      assert s[j..j + 3][0] == s[j] && s[j..j + 3][1] == s[j + 1];
    }
  }
}
