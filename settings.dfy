/** The configuration constants of the pool (setting.py). */
module Settings {
  import opened Wrappers

  /** A configured fetch source: its name, the list URL, and the protocol it is
      declared to serve (`None` when the entry has no `type`). */
  datatype Source = Source(name: string, url: string, kind: Option<string>)

  /** The default partition-key prefix, `REDIS_KEY`. */
  const RedisKey: string := "proxy_pool"

  const ScoreMax: int := 100
  const ScoreMin: int := 0
  /** The score a newly admitted proxy gets. */
  const ScoreInit: int := 10

  const ProxySources: seq<Source> := [
    Source("all_proxies", "https://cdn.jsdelivr.net/gh/proxifly/free-proxy-list@main/proxies/all/data.txt", Some("all")),
    Source("http_proxies", "https://cdn.jsdelivr.net/gh/proxifly/free-proxy-list@main/proxies/protocols/http/data.txt", Some("http")),
    Source("socks4_proxies", "https://cdn.jsdelivr.net/gh/proxifly/free-proxy-list@main/proxies/protocols/socks4/data.txt", Some("socks4")),
    Source("socks5_proxies", "https://cdn.jsdelivr.net/gh/proxifly/free-proxy-list@main/proxies/protocols/socks5/data.txt", Some("socks5")),
    Source("us_proxies", "https://cdn.jsdelivr.net/gh/proxifly/free-proxy-list@main/proxies/countries/US/data.txt", Some("http"))
  ]

  /** Probe timeout in seconds (the timeout itself is not modelled). */
  const ValidateTimeout: nat := 5
  const ValidateUrls: seq<string> := [
    "http://httpbin.org/ip",
    "http://www.google.com",
    "http://www.baidu.com"
  ]

  /** Job intervals in seconds. */
  const FetchInterval: nat := 300
  const ValidateInterval: nat := 60
  const CleanInterval: nat := 1800
  /** The stats job's interval, written in the scheduler itself. */
  const StatsInterval: nat := 300

  /** The four protocol partitions every job iterates, in this order. A source
      of any other type (such as `all`) lands in a partition none of them visits. */
  const Protocols: seq<string> := ["http", "https", "socks4", "socks5"]
}
