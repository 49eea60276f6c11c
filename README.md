# Proxy pool, modelled in Dafny

This project models the core of a free-proxy pool written in Python. The pool has these parts:

- **Store.** It keeps proxy addresses in one Redis sorted set per protocol. The key is `proxy_pool:<protocol>`, the member is `ip:port` and the score is the proxy's quality.
- **Getter and fetcher.** They download public proxy lists, read them line by line into candidates, drop duplicates, and admit the new ones at score 10.
- **Tester and validator.** They probe proxies through test URLs. A proxy's score goes up by 1 after a passed test and down by 2 after a failed one.
- **Scheduler.** It runs four jobs on timers:
  - fetching;
  - testing;
  - cleaning up, which removes every member scored below 10;
  - reporting.
- **Helpers.** Small functions parse, format and normalise proxy strings.

## How the model is built

**The Redis server.** `RedisStore.Redis` is a class with one field, `data`, which maps each key to a sorted set (a map from member to score). Its methods are the Redis commands the clients send: `ZADD NX`, `ZINCRBY`, `ZREM`, `ZCARD`, `DEL` and the range reads. Each command's contract says what value it leaves in `data`. A key whose set becomes empty disappears, as it does in Redis.

**The clients.** Both store clients are classes:

- `Db.RedisClient`, for db/redis_client.py;
- `Storage.ProxyStorage`, for core/storage.py.

Each holds `redis: Redis?`. A `null` there stands for a failed connection, and then every method returns its default and changes nothing. Several clients may share one server object, as the scheduler's getter, tester and own client share one Redis.

**Contracts.** Each method's contract says what it returns and what the server's data becomes. It states this through functions on values from `SortedSets`:

- `Bind`, `AddIfAbsent`, `IncrBy`, `Band`;
- `Listing`, `NonIncreasing`.

Lemmas then prove what those values mean.

**Parsing.** The string helpers are pure functions:

- `format_proxy`, `parse_proxy_string`, `normalize_proxy`, `split_list`;
- `Proxy.from_string`;
- the getter's line reader.

They are written over Python's own string and integer semantics, modelled in `Text`, `PyInt` and `Url`: `strip`, `partition`, `split`, `int()`, `str()` and the part of `urlparse` the code reads. Where the source fills a dictionary field by field, the model is a method with the same steps, proved equal to the pure function:

- `parse_proxy_string`;
- the line loops;
- the deduplication loops;
- the probe loops;
- the score write-backs.

**Probes.** The network is an oracle `probe(proxyUrl, testUrl)`. It says whether a GET raised or answered with some status after some seconds. A probe passes exactly on status 200.

**Redis exceptions.** Every client method catches Redis exceptions and returns its default. The modelled server never raises, so these paths are the `null` server only.

## Model

| member | source | states |
|---|---|---|
| SortedSets.Bind | db/redis_client.py:45-47 | writing one key's set leaves every other key's set as it was, and an empty set reads as an absent key |
| SortedSets.KeyInjective | db/redis_client.py:45-47 | distinct protocols get distinct `prefix:protocol` keys |
| SortedSets.OtherPartition | db/redis_client.py:45-47 | writing one protocol's partition leaves every other protocol's partition unchanged |
| SortedSets.BindTwice | db/redis_client.py:104 | two writes to one key leave only the second |
| SortedSets.AddIfAbsent | db/redis_client.py:57 | `ZADD NX`: an existing member keeps its score; an absent one is inserted with the given score and the set grows by one |
| SortedSets.IncrBy | db/redis_client.py:124 | `ZINCRBY`: the member's new score is its old one (0 when absent) plus the delta, it is a member afterwards, and every other member keeps its score |
| SortedSets.LoggedScore | db/redis_client.py:122-129 | the logged value `v or 10`, capped at 100 after a success and floored at 0 after a failure; it equals the score itself when that is already in 1..100 |
| SortedSets.ScoreNotClamped | db/redis_client.py:124 | a success on a score of 100 stores 101 while the logged value is 100: only the log is clamped |
| SortedSets.Band | db/redis_client.py:72 | a score-range read keeps exactly the members whose score lies in the range, with their scores |
| SortedSets.Members | db/redis_client.py:158 | the members a listing names are exactly those at its positions |
| SortedSets.DistinctMembers | db/redis_client.py:158 | a listing without repeated members names as many members as it is long |
| SortedSets.ListingLength | db/redis_client.py:163-170 | a listing of a set is exactly as long as the set |
| SortedSets.ListingEmpty | db/redis_client.py:73-83 | a listing is empty exactly when the set it lists is empty |
| SortedSets.ListingInit | db/redis_client.py:158 | dropping the last entry of a listing lists the set without that member |
| SortedSets.ListingSnoc | db/redis_client.py:158 | appending an entry for a new member lists the set with that member added |
| SortedSets.Within | db/redis_client.py:226-237 | the entries of a listing whose score is in a band, in order |
| SortedSets.WithinListing | db/redis_client.py:226-237 | filtering a listing by a score band lists exactly that band of the set |
| SortedSets.WithinCount | db/redis_client.py:226-237 | the number of listed entries in a band is the size of that band |
| SortedSets.BandWithout | db/redis_client.py:226-237 | a band read with one member taken out: the member is in the band exactly when its score is in range |
| SortedSets.ListingHeadMax | db/redis_client.py:97-101 | the head of a non-increasing listing has a highest score of the set |
| SortedSets.ExtremeExists | db/redis_client.py:157 | every non-empty set of members has one whose score comes first in the requested order |
| SortedSets.ExtendListing | db/redis_client.py:157 | appending a first-in-order member of the rest extends an ordered partial listing |
| SortedSets.SortedListing | db/redis_client.py:157 | the server's ordered read: every member once, each with its score, in non-increasing or non-decreasing score order |
| SortedSets.RedisSlice | db/redis_client.py:97 | Redis's `start`/`stop` window is never longer than the listing |
| SortedSets.RedisSliceAllAndHead | db/redis_client.py:97-101 | the window `0, -1` is the whole listing and `0, 0` its head |
| SortedSets.FourProtocolCounts | core/storage.py:146-150 | counting over the four protocols gives the dictionary of their four partition sizes and their sum |
| RedisStore.Redis.constructor | db/redis_client.py:28-36 | a fresh server holds no keys |
| RedisStore.Redis.ZAddNX | db/redis_client.py:57 | returns 1 exactly when the member was absent; the key's set becomes `AddIfAbsent` of the old one, other keys unchanged |
| RedisStore.Redis.ZIncrBy | db/redis_client.py:124 | the key's set becomes `IncrBy` of the old one, and the member's new score is returned |
| RedisStore.Redis.ZRem | db/redis_client.py:104 | returns 1 exactly when the member was present; the key's set loses the member |
| RedisStore.Redis.ZCard | db/redis_client.py:170 | returns the size of the key's set |
| RedisStore.Redis.Delete | db/redis_client.py:182 | returns 1 exactly when the key held a non-empty set, which is then gone |
| RedisStore.Redis.ZRange | db/redis_client.py:219 | a window of an ascending listing of the key's set |
| RedisStore.Redis.ZRevRange | db/redis_client.py:78 | a window of a descending listing of the key's set |
| RedisStore.Redis.ZRangeByScore | core/storage.py:74 | an ascending listing of exactly the band of the key's set |
| RedisStore.Redis.ZRevRangeByScore | db/redis_client.py:72 | a descending listing of exactly the band of the key's set |
| Db.RedisClient.constructor | db/redis_client.py:17-23 | the key prefix is `REDIS_KEY`, and the server is whatever connecting gave, `null` after a failure |
| Db.RedisClient.AddProxy | db/redis_client.py:49-61 | disconnected: `False`. Connected: `True` exactly when the address was absent from the protocol's set; it is inserted at the given score (default 10), an existing score is left unchanged, and no other key changes |
| Db.RedisClient.GetRandomProxy | db/redis_client.py:63-86 | `None` exactly when the partition is empty; otherwise some member, and one scored at least 60 whenever such a member exists |
| Db.RedisClient.PopProxy | db/redis_client.py:88-112 | on a non-empty partition the top-scored member is removed, the count drops by one, and it is returned unless a competing removal won the race, in which case `None` comes back with no retry; on an empty partition `None`, nothing changes |
| Db.RedisClient.UpdateProxyScore | db/redis_client.py:114-133 | `True` exactly when connected; the stored score moves by +1 on success or -2 on failure, an absent member being created; the logged value alone is clamped |
| Db.RedisClient.RemoveProxy | db/redis_client.py:135-148 | `True` exactly when the address was present; afterwards it is absent and every other member and key is unchanged |
| Db.RedisClient.GetAllProxies | db/redis_client.py:150-161 | every member of the partition exactly once with its score, in non-increasing score order; its length is the partition size |
| Db.RedisClient.GetProxyCount | db/redis_client.py:163-173 | the size of the partition, 0 when disconnected |
| Db.RedisClient.ClearProxies | db/redis_client.py:175-187 | `True` exactly when the partition was non-empty; afterwards it is empty and other keys are unchanged |
| Db.RedisClient.GetStats | db/redis_client.py:199-242 | `None` (the empty dictionary) when disconnected; otherwise the statistics `StatsOf` the store |
| Db.RedisClient.GatherStats | db/redis_client.py:217-237 | the loop's total, per-protocol dictionary and five bucket counts are those of the protocols it walked |
| Db.RedisClient.Tally | db/redis_client.py:226-237 | each bucket count grows by the number of listed entries whose score falls in that bucket |
| Db.BucketOf | db/redis_client.py:228-237 | the `if`/`elif` chain sends every score to one of the five buckets |
| Db.BucketExact | db/redis_client.py:228-237 | a score lies within bucket b's bounds (up to 20, 21-40, 41-60, 61-80, above 80) exactly when the chain picks b |
| Db.BucketsCover | db/redis_client.py:226-237 | the five buckets of a set together hold each member exactly once |
| Db.BucketsAddUp | db/redis_client.py:217-237 | across any protocols the five bucket counts sum to the member count |
| Db.StatsConsistent | db/redis_client.py:205-239 | `total` equals the sum of `by_protocol` over the four protocols and also the sum of the five buckets |
| Db.StatsByProtocol | db/redis_client.py:217-223 | `total` is the sum of the four per-protocol counts |
| Db.StatsByRange | db/redis_client.py:226-237 | `total` is the sum of the five bucket counts |
| Db.RangeCounts | db/redis_client.py:208-214 | `by_score_range` always has exactly its five buckets |
| Storage.ProxyStorage.constructor | core/storage.py:18-24 | the key prefix is `REDIS_KEY`, the server is what connecting gave |
| Storage.ProxyStorage.AddProxy | core/storage.py:49-63 | `True` exactly when the proxy's `address` was absent from its own protocol's set; it is stored with the proxy's current score, and an existing entry is left unchanged |
| Storage.ProxyStorage.GetRandomProxy | core/storage.py:65-87 | `None` exactly when the partition is empty; otherwise some member, one scored within [60, 100] when there is one; a member above 100 is not preferred |
| Storage.ProxyStorage.GetAllProxies | core/storage.py:89-99 | every member of the partition once with its score, in non-decreasing score order |
| Storage.ProxyStorage.UpdateProxyScore | core/storage.py:101-120 | `True` exactly when connected; the stored score moves by +1 or -2, unclamped |
| Storage.ProxyStorage.RemoveProxy | core/storage.py:122-134 | `True` exactly when the member was present; afterwards it is absent and nothing else changes |
| Storage.ProxyStorage.GetCount | core/storage.py:136-153 | with a non-empty protocol, exactly `{protocol: size}`; without one, exactly the four protocols' sizes; `{}` when disconnected |
| CoreProxy.Proxy.constructor | core/proxy.py:13-21 | a new proxy has the given identity, score 10, and no check time, response time or country, and is not anonymous |
| CoreProxy.UrlScheme | core/proxy.py:29-33 | the scheme of `url` is the protocol for socks4 and socks5 and `http` for every other protocol, https included |
| CoreProxy.ParseIdentity | core/proxy.py:36-51 | `from_string`: whatever it returns came from text with a `:`, has a stripped host, and keeps the given protocol unless a known scheme replaced it; bare text whose part after the first `:` is not an integer raises |
| CoreProxy.ParseBareSplit | core/proxy.py:44-51 | any bare `head:tail` with no `:` in `head`: raises when `tail` is not an integer, otherwise gives the stripped head, that port and the given protocol |
| CoreProxy.ParseUrlRaises | core/proxy.py:38-51 | URL text raises exactly when `urlparse` rejects it or it has no host or no port |
| CoreProxy.AddressRoundTrip | core/proxy.py:24-51 | for an ip without `:` or surrounding white space, `from_string(address, protocol)` gives back that ip, port and protocol, for every integer port |
| CoreProxy.UrlRoundTrip | core/proxy.py:29-51 | `from_string(url)` gives back the ip and port, with the protocol `url` wrote, so an https proxy comes back as http |
| CoreProxy.AddressStripped | core/proxy.py:24-26 | an address built from a stripped ip needs no stripping |
| CoreProxy.ParseUrlCase | core/proxy.py:38-43 | on URL text with a host and a port, the scheme overrides the protocol only when it is http, https, socks4 or socks5 |
| CoreProxy.Proxy.EqualsHash | core/proxy.py:69-75 | two proxies are equal exactly when their hash keys (ip, port, protocol) agree |
| CoreProxy.Proxy.FromString | core/proxy.py:36-51 | raises exactly when the text does not read; otherwise a new proxy with the identity read, at score 10 and unprobed |
| PyInt.NatToString | core/proxy.py:26 | `str(n)` of a natural is a non-empty digit string denoting n |
| PyInt.IntRoundTrip | core/proxy.py:26-51 | `int(str(n)) == n` for every integer |
| PyInt.IntToStringShape | getter/proxy_getter.py:51 | a rendered integer starts with `-` or a digit, ends with a digit, and holds no `:` or `.` |
| Text.Strip | getter/proxy_getter.py:36 | stripped text neither starts nor ends with white space |
| Text.Partition | core/proxy.py:47 | `split(":", 1)`: with a separator, head + sep + tail is the text and the head is before the first occurrence; without one, the head is the text |
| Text.PartitionFirst | utils/tools.py:37 | `a + c + b` with no `c` in `a` partitions into exactly `a` and `b` |
| Text.PartitionAbsent | utils/tools.py:36-44 | text without the separator is not partitioned and stays whole |
| Text.Split | getter/proxy_getter.py:35 | the pieces of a split hold no separator |
| Text.SplitJoin | getter/proxy_getter.py:35 | joining the pieces of a split with the separator gives back the text |
| Text.ContainsChar | getter/proxy_getter.py:37 | `c in s` agrees with finding the one-character string |
| Url.ParseRenderedUrl | core/proxy.py:38-43 | `urlparse` on `scheme://host:port` gives back that scheme, hostname and port |
| Url.AddressText | core/fetcher.py:37 | `host:port` has no `://` and splits at its only `:` into the host and port |
| Dedup.Unique | getter/proxy_getter.py:96-103 | first-occurrence deduplication: never longer than the list, only elements of the list, and the same set of keys |
| Dedup.UniqueDistinct | getter/proxy_getter.py:96-103 | no two kept elements share a key |
| Dedup.UniqueFirst | core/fetcher.py:58-66 | each kept element is the first element of the list with its key |
| Dedup.UniqueOrder | core/fetcher.py:58-66 | the kept elements come in the order their keys first occur |
| Dedup.UniqueSnoc | getter/proxy_getter.py:99-103 | one loop step: an element is kept and its key recorded exactly when the key is new |
| Dedup.UniqueLoopStep | core/fetcher.py:62-65 | the `seen` set and the kept list move on to the next prefix together |
| Dedup.UniquePair | core/fetcher.py:62-65 | of two elements both are kept exactly when their keys differ |
| Dedup.UniqueWithin | core/fetcher.py:62-65 | every kept element comes from the list |
| Dedup.KeySet | getter/proxy_getter.py:98-102 | the `seen` set is exactly the keys of the elements visited |
| Dedup.FirstIndex | core/fetcher.py:62-65 | the first position holding a given key |
| Tools.FormatProxy | utils/tools.py:10-49 | `None` for empty input, for stripped text without `:` and for bare text whose part after the first `:` is not an integer; only text with `://` can raise; a formatted triple has a non-empty host and a non-zero port, and bare text keeps the default protocol and a host without `:` |
| Tools.FormatBareSplit | utils/tools.py:21-49 | any text stripping to bare `head:tail` with no `:` in `head`: `None` when `tail` is not an integer or the host is empty or the port zero, otherwise that host and port with the default protocol |
| Tools.FormatAddress | utils/tools.py:21-49 | `host:port` for a stripped host without `:` and a non-zero port formats back to exactly that host, port and default protocol |
| Tools.ValidatePort | utils/tools.py:61-67 | `True` exactly when `int(port)` succeeds and lies in [1, 65535]; `None` or a non-number is `False` and never raises |
| Tools.ValidatePortText | utils/tools.py:61-67 | a port judged as a number or as its decimal text is judged alike |
| Tools.ValidateProxy | utils/tools.py:70-77 | raises exactly when `format_proxy` raises; `True` exactly when it formats, the host passes the ip check, and the port is in [1, 65535] |
| Tools.ReadProxy | utils/tools.py:104-119 | only URL text can raise, and any port read is an integer or absent |
| Tools.ParseProxy | utils/tools.py:80-128 | only URL text can raise; a dictionary has the four keys, the stripped text, a string protocol and a non-zero integer port |
| Tools.ParseProxyString | utils/tools.py:80-128 | the field-by-field method returns exactly `ParseProxy` |
| Tools.ReadUrlFields | utils/tools.py:104-108 | the URL branch's three assignments leave the scheme, hostname and port read, or raise on a bad URL or port |
| Tools.ReadBareFields | utils/tools.py:110-119 | the bare branch leaves the head and the integer port, or `None` without `:` or with a non-integer port |
| Tools.DefaultPortFilled | utils/tools.py:121-126 | filling in the default port gives the final dictionary in each of the three cases |
| Tools.ParseBare | utils/tools.py:109-126 | bare `host:port` is tagged `http` and keeps its port, 80 replacing 0 |
| Tools.ParseUrlDefaultPort | utils/tools.py:104-126 | a URL with no port or port 0 keeps its scheme as protocol and gets 443 for https and 80 otherwise |
| Tools.FormatAgreesWithParse | utils/tools.py:10-128 | wherever `format_proxy` gives a triple, `parse_proxy_string` gives the same host, port and protocol |
| Tools.ProxyToSimpleString | utils/tools.py:131-136 | a result exactly when there is a dictionary holding both host and port |
| Tools.ProxyToUrl | utils/tools.py:139-148 | a result exactly when there is a dictionary holding both host and port |
| Tools.UrlExtendsSimple | utils/tools.py:131-148 | the URL form exists exactly when the simple one does and is `protocol://` (http by default) before it |
| Tools.NormalizeProxy | utils/tools.py:166-171 | raises exactly when parsing raises; otherwise it is `proxy_to_simple_string` of the parse |
| Tools.NormalizeIdempotent | utils/tools.py:166-171 | normalising the normal form of bare text gives the same normal form |
| Tools.NormalBare | utils/tools.py:109-126 | the normal form of bare text is its head and its port, 80 for zero |
| Tools.AddressNormal | utils/tools.py:166-171 | `host:port` with a host without `:` and a non-zero port is its own normal form |
| Tools.PatternMatchFormats | utils/tools.py:156-160 | a match of the address pattern never makes `validate_proxy` raise |
| Tools.Accepted | utils/tools.py:159-161 | never more accepted matches than matches |
| Tools.AcceptedExact | utils/tools.py:159-161 | a text is accepted exactly when it is a match and `validate_proxy` accepts it |
| Tools.ExtractProxies | utils/tools.py:151-163 | the loop keeps, in order, exactly the matches `validate_proxy` accepts |
| Tools.CutFormula | utils/tools.py:177 | the cut before piece i is `i * k + min(i, m)` |
| Tools.CutBounds | utils/tools.py:176-177 | with `k, m = divmod(len, n)`, every cut lies within the list and the last is its end |
| Tools.SplitList | utils/tools.py:174-177 | `n == 0` raises (division by zero) and a negative `n` gives no pieces |
| Tools.SplitListPieces | utils/tools.py:174-177 | exactly n pieces, the first `len % n` one longer than the others |
| Tools.SplitListFlatten | utils/tools.py:174-177 | the pieces joined in order are the list |
| Tools.Backoff | utils/tools.py:200-201 | the j-th pause is `delay * 2 ** j` |
| Tools.RetryOnFailure | utils/tools.py:180-205 | calls at most `max_retries` times, stopping at the first success, which it returns; after all fail it re-raises the last failure; pauses `delay * 2 ** attempt` after each failed attempt but the last; with no attempts `raise None` |
| Getter.ParseLine | getter/proxy_getter.py:35-56 | a candidate comes only from a considered line (non-empty after strip, with `:`, not starting with `#`), is tagged with the source's protocol and holds a `:` |
| Getter.LineAddress | getter/proxy_getter.py:40-49 | a kept address is the line without its `scheme://` prefix split at its first `:`: the ip is the text before it, with four dot-separated parts, and the port is `int()` of the rest, in [1, 65535] |
| Getter.LineAddressSplit | getter/proxy_getter.py:40-49 | any line whose unprefixed part is `head:tail` with no `:` in `head` is kept exactly when `tail` reads as an integer in [1, 65535] and `head` has four parts, as that head and port |
| Getter.LineAddressNoColon | getter/proxy_getter.py:44 | a line whose unprefixed part has no `:` yields no address |
| Getter.RenderedVerdict | getter/proxy_getter.py:35-56 | an `ip:port` line is kept exactly when the ip has four parts and the port is in range, and is emitted as itself |
| Getter.AddressRead | getter/proxy_getter.py:45-51 | the address part of `ip:port` is read back exactly when the ip has four parts and the port is in range |
| Getter.SchemeDropped | getter/proxy_getter.py:41-53 | a `scheme://` prefix is discarded and the candidate is tagged with the source's type, whatever the scheme says |
| Getter.SchemeField | getter/proxy_getter.py:43 | the text after the first `://` is the rest of the line |
| Getter.Harvest | getter/proxy_getter.py:35-56 | never more candidates than lines |
| Getter.HarvestTagged | getter/proxy_getter.py:50-53 | every candidate of a body carries the source's protocol |
| Getter.ProxyGetter.constructor | getter/proxy_getter.py:19-24 | the getter writes through the given database client |
| Getter.ProxyGetter.HarvestLines | getter/proxy_getter.py:35-56 | the line loop yields exactly the candidates of the lines, in order |
| Getter.ProxyGetter.FetchFromSource | getter/proxy_getter.py:26-63 | an unreachable source gives nothing; otherwise the candidates of its body's lines under `type` (default `http`) |
| Getter.ProxyGetter.Collect | getter/proxy_getter.py:88-94 | the candidates of every source concatenated in source order |
| Getter.ProxyGetter.FirstPairs | getter/proxy_getter.py:96-103 | the loop keeps exactly the first candidate of each (address, protocol) pair, in order |
| Getter.ProxyGetter.ProcessProxies | getter/proxy_getter.py:65-78 | the store becomes every candidate admitted in order at score 10, and the count is the number of `add_proxy` calls that returned `True` |
| Getter.AdmitMember | getter/proxy_getter.py:71-76 | after admitting, a partition holds its old members with their old scores plus exactly the candidates filed under it, new ones at score 10 |
| Getter.AdmitOne | getter/proxy_getter.py:75 | one `add_proxy` seen from one member of one partition |
| Getter.AddedAreNew | getter/proxy_getter.py:70-76 | with no pair repeated, the added count is the number of candidates absent from their partition beforehand |
| Getter.ProxyGetter.Run | getter/proxy_getter.py:80-113 | disconnected: nothing. Otherwise the first candidate of each pair from all sources in order, with no pair twice, is admitted, and the added count is how many of them were new |
| Fetcher.LineIdentity | core/fetcher.py:33-41 | a proxy comes only from a considered line and keeps the source's protocol unless a known scheme replaced it |
| Fetcher.AnyPortAccepted | core/fetcher.py:33-41 | any integer port is accepted, with no range or octet check |
| Fetcher.AddressOnlyDedup | core/fetcher.py:58-66 | keyed on the address alone, the first of two lines with one address wins even when their protocols differ, where the getter keeps both |
| Fetcher.HarvestIds | core/fetcher.py:33-41 | never more proxies than lines |
| Fetcher.ReadProxy | core/fetcher.py:36-41 | a line on which `from_string` raises yields nothing, otherwise one new proxy with the identity read |
| Fetcher.ReadLine | core/fetcher.py:34-41 | the body of the line loop: yields exactly what `LineIdentity` says, as new unprobed proxies |
| Fetcher.HarvestProxies | core/fetcher.py:33-41 | the line loop yields, as new unprobed proxies, exactly the identities of the lines in order |
| Fetcher.FetchFromSource | core/fetcher.py:25-47 | an unreachable source gives nothing; otherwise new proxies, at score 10 and unprobed, for exactly the identities its lines yield |
| Fetcher.CollectProxies | core/fetcher.py:51-56 | the proxies of every source concatenated in source order |
| Fetcher.FirstAddresses | core/fetcher.py:58-66 | the loop keeps exactly the first proxy of each address, in order |
| Fetcher.Visit | core/fetcher.py:63-65 | the loop body: the address is recorded and the proxy kept exactly when the address had not been seen |
| Fetcher.IdsUnique | core/fetcher.py:58-66 | deduplicating proxies by address and then taking identities is deduplicating the identities |
| Fetcher.FetchAll | core/fetcher.py:49-68 | the first proxy of each address over all sources in order, no address twice, all new and unprobed |
| Probing.Single | tester/proxy_tester.py:26-62 | success exactly on status 200; the time of any response, `inf` exactly after an exception |
| Probing.Probed | tester/proxy_tester.py:70 | the first `min(2, len(test_urls))` URLs, in order |
| Probing.Results | tester/proxy_tester.py:70-72 | the outcome of each visited URL, in order |
| Probing.Successes | tester/proxy_tester.py:74-76 | the success count never exceeds the number of probes |
| Probing.ValidIffAnswered | tester/proxy_tester.py:78-82 | the verdict is valid exactly when some visited URL answered 200, so with no URLs it is invalid |
| Probing.AverageWithin | tester/proxy_tester.py:78-80 | a valid proxy's average time lies between the least and the greatest time of its successes |
| Probing.SuccessTimeBounds | tester/proxy_tester.py:74-76 | the total time lies between the success count times a least and a greatest success time |
| Tester.ProxyUrlAgrees | tester/proxy_tester.py:30-33 | the probe URL is `protocol://addr` for SOCKS and `http://addr` otherwise, the URL the core `Proxy` reports |
| Tester.ProxyTester.constructor | tester/proxy_tester.py:21-24 | the tester writes through the given client and probes `VALIDATE_URLS` |
| Tester.ProxyTester.TestProxy | tester/proxy_tester.py:64-82 | the probe loop's verdict is the verdict of the first two URLs through the proxy URL |
| Tester.Outcomes | tester/proxy_tester.py:86-91 | one outcome per pair, in pair order: `None` for a raised test, otherwise its verdict |
| Tester.CountPassed | tester/proxy_tester.py:93-111 | the number of valid verdicts is between 0 and the number of pairs |
| Tester.ProxyTester.RunTests | tester/proxy_tester.py:86-91 | every pair's outcome, in order |
| Tester.ProxyTester.UpdateScores | tester/proxy_tester.py:93-111 | exactly one score update per pair in order, +1 for a valid verdict and -2 for an invalid or raised one; returns the valid count |
| Tester.ProxyTester.TestProxiesBatch | tester/proxy_tester.py:84-111 | returns the number of valid verdicts, at most the number of pairs; the store gets one update per pair in order |
| Tester.ScoreAllAt | tester/proxy_tester.py:94-109 | a batch adds to a partition exactly the members it touches there and keeps every untouched score |
| Tester.ScoreAllOnce | tester/proxy_tester.py:94-109 | with no pair repeated, each tested member moves exactly once, by +1 after a pass and -2 otherwise |
| Tester.ScoreAllElsewhere | tester/proxy_tester.py:94-109 | a batch leaves every key outside the partitions it names unchanged |
| Tester.TouchedHas | tester/proxy_tester.py:94-109 | a member is touched in a partition exactly when its pair occurs in the batch |
| Tester.HeadLength | tester/proxy_tester.py:124 | the length of Python's `xs[:limit]`, negative limits included |
| Tester.HeadIsTop | tester/proxy_tester.py:116-126 | a prefix of a non-increasing listing is a best-first selection |
| Tester.ProxyTester.GetProxiesToTest | tester/proxy_tester.py:113-129 | the `proxies[:limit]` highest-scored members of the partition, distinct, in non-increasing score order, each tagged with the protocol, none scored below a member left out |
| Tester.BatchNudges | tester/proxy_tester.py:94-109 | a batch over a best-first selection keeps the partition's members, moves each score by at most one update, and changes no other key |
| Tester.TestedCount | tester/proxy_tester.py:140-150 | a run tests at most 20 members of each protocol |
| Tester.ProgressStep | tester/proxy_tester.py:140-150 | testing the next protocol nudges its partition and leaves the rest as they were |
| Tester.ProxyTester.TestEach | tester/proxy_tester.py:140-150 | over distinct protocols, the tested total is the sum of the batch sizes, the valid total is at most that, each partition is nudged, and other keys are unchanged |
| Tester.ProxyTester.TestProtocol | tester/proxy_tester.py:141-150 | one protocol: the up to 20 best members are tested once each |
| Tester.ProxyTester.RunTest | tester/proxy_tester.py:131-154 | nothing when disconnected; otherwise at most 80 tested over the four protocols, `total_valid <= total_tested`, and nothing outside the four partitions changes |
| Validator.ProxyValidator.constructor | core/validator.py:19-21 | the validator probes `VALIDATE_URLS` |
| Validator.ProxyValidator.ValidateProxy | core/validator.py:49-65 | the probe loop's verdict is that of the first two URLs through the proxy's `url` |
| Validator.ProxyValidator.ValidateEach | core/validator.py:79-80 | one verdict per proxy, in order |
| Validator.GoodOnes | core/validator.py:82-89 | never more good proxies than inputs |
| Validator.GoodOnesExact | core/validator.py:82-89 | a proxy is returned exactly when it is an input with a valid verdict |
| Validator.KeepGood | core/validator.py:82-85 | keeping by each proxy's own verdict keeps the good ones, in order |
| Validator.Record | core/validator.py:82-85 | the loop collects the valid proxies in order and records the average time on each of them alone |
| Validator.ProxyValidator.ValidateProxies | core/validator.py:67-89 | exactly the inputs with a valid verdict, in input order; only those get `response_time` set, to their average, and every other field of every proxy is unchanged |
| Scheduler.CleanKey | scheduler/scheduler.py:53-57 | after cleaning a key it holds exactly the members scored at least 10 and no other key changes |
| Scheduler.CleanAllAt | scheduler/scheduler.py:52-57 | after `cleanup_job` a listed partition holds exactly its members scored at least 10, with their scores; an unlisted one is as it was |
| Scheduler.CleanAllElsewhere | scheduler/scheduler.py:52-57 | cleaning leaves every key outside the listed partitions unchanged |
| Scheduler.CleanIdempotent | scheduler/scheduler.py:52-57 | a second clean-up right after the first changes nothing |
| Scheduler.CleanAllFixed | scheduler/scheduler.py:52-57 | a store with nothing below 10 is left as it is |
| Scheduler.SurvivorsIdempotent | scheduler/scheduler.py:55 | keeping the members scored at least 10 twice keeps the same ones |
| Scheduler.LowOfListing | scheduler/scheduler.py:54-56 | removing the listed members below 10 leaves exactly the survivors |
| Scheduler.PrunedClean | scheduler/scheduler.py:53-56 | pruning the low members of a full listing is cleaning the key |
| Scheduler.CleanStep | scheduler/scheduler.py:54-56 | one step of the inner loop: a low member is removed, any other is passed over |
| Scheduler.ProxyScheduler.constructor | scheduler/scheduler.py:22-27 | a new scheduler is not running |
| Scheduler.ProxyScheduler.CleanPartition | scheduler/scheduler.py:53-57 | reading the partition and removing each listed member below 10 cleans exactly that key |
| Scheduler.ProxyScheduler.CleanEach | scheduler/scheduler.py:52-57 | the outer loop cleans the listed partitions in order |
| Scheduler.ProxyScheduler.CleanupJob | scheduler/scheduler.py:47-59 | the four partitions are cleaned, nothing else changes |
| Scheduler.ProxyScheduler.CountEach | scheduler/scheduler.py:65-69 | the loop's total is the member count of the listed partitions |
| Scheduler.ProxyScheduler.StatsJob | scheduler/scheduler.py:61-73 | the total is the sum of the four partition sizes, and nothing is modified |
| Scheduler.ProxyScheduler.FetchJob | scheduler/scheduler.py:29-36 | one getter run: its deduplicated candidates are admitted |
| Scheduler.ProxyScheduler.TestJob | scheduler/scheduler.py:38-45 | one tester run: the four partitions are nudged and nothing else changes |
| Scheduler.Interval | scheduler/scheduler.py:75-87 | every interval is positive; the body gives each job its settings constant (300, 60, 1800 and 300 seconds) |
| Scheduler.DueOnce | scheduler/scheduler.py:75-94 | at second t each job runs once when its interval divides t, and not otherwise |
| Scheduler.RunsPerInterval | scheduler/scheduler.py:75-95 | over the first t seconds each job runs exactly `t / interval` times |
| Scheduler.ProxyScheduler.RunPending | scheduler/scheduler.py:94 | runs exactly the jobs due, in registration order |
| Scheduler.ProxyScheduler.RunSchedule | scheduler/scheduler.py:91-95 | the loop runs the due jobs every second until `stop`, and is not running afterwards |
| Scheduler.ProxyScheduler.Start | scheduler/scheduler.py:97-115 | disconnected: returns at once, running nothing, leaving `running` and the getter's and tester's stores unchanged; otherwise runs fetch, test and stats in that order and then the loop |
| Scheduler.ProxyScheduler.Stop | scheduler/scheduler.py:117-120 | `running` is false afterwards |

## Left out

- Connecting, `ping` and `health_check`. A connection is a server object, or `null` when connecting failed. Both `_connect` methods and both `health_check` methods are left out.
- Failures after connecting. Every client method has an `except Exception` branch that returns `False`, `None`, `[]`, `{}` or 0 when a Redis command fails (db/redis_client.py, core/storage.py). A connected server in the model never fails, so these branches are modelled only for a failed connection (`null`).
- Redis's tie order. Redis lists members of equal score in byte order of the member; the model allows any order among ties.
- Float scores. Scores are integers. `int(score)` in `get_stats` is therefore the identity.
- `random.choice`. The random pick is an arbitrary choice (`:|`) among the candidates.
- `pop_proxy`'s race. The competing client's removal comes as the `lostRace` parameter of `Db.RedisClient.PopProxy`. The code does not retry, and neither does the model.
- `urlparse`. `Url` models the part of `urlsplit` the code reads:
  - the scheme rule and the lower-casing of the scheme;
  - the network location up to `/`, `?` or `#`;
  - `user@` dropping;
  - `[...]` hosts;
  - `%` zones;
  - the port with ASCII digits in [0, 65535].

  It leaves out the stripping of leading C0 control characters and spaces that `urlsplit` does first, so text such as `\x01http://1.2.3.4:8080`, which `from_string` accepts, is rejected by the model. It also leaves out these checks: the IPv6 address check, the removal of tabs and newlines, and the Unicode normalisation check. Lower-casing is ASCII only.
- `int()`. It is modelled as strip, an optional sign and ASCII digits. Underscores and non-ASCII digits are left out.
- `validate_ip`. `socket.inet_aton` is the `isIp` parameter of `Tools.ValidateProxy`.
- The address pattern of `extract_proxies_from_text`. The regular-expression search is given as the list of matches. `Tools.PatternMatch` states only what the proofs need of a match: it holds no `/`. That holds for every match, Unicode digits included.
- Tools.Accepted: its own contract states only the length bound; exactness is `Tools.AcceptedExact`.
- `retry_on_failure`. Sleeping is not performed: the pauses are returned as a list. The wrapped call is the `attempt` oracle, and only the wrapper is modelled, not the decorator plumbing.
- Getter.Harvest: its own contract states only the length bound; the protocol tag is `Getter.HarvestTagged`.
- Concrete list bodies. The whole-body example (two addresses out of a body with a comment, a blank and a bad line) is not evaluated; its address lines are covered by `Getter.RenderedVerdict` and `Getter.SchemeDropped`, its comment and blank lines by the `Considered` clause of `Getter.ParseLine`, and its bad line by `Getter.LineAddressSplit` and `Getter.LineAddressNoColon`.
- HTTP. The HTTP session, `raise_for_status` and the one-second pauses between sources are left out; a source's response is a parameter, `Unreachable` or a body.
- Validator.GoodOnes: its own contract states only the length bound; exactness is `Validator.GoodOnesExact`.
- Latencies. They are real numbers, not IEEE floats, and `float('inf')` is a separate value. Timeouts are not modelled.
- Concurrency. `asyncio.gather` runs the tests in list order, and `Semaphore(20)` is left out because it limits concurrency only. The tester's `return_exceptions` case is the `crashed` oracle.
- The tester's sort. `proxies.sort(reverse=True)` is not a separate step. The listing the client returns is already in non-increasing score order, and Python's sort is stable, so the sort leaves it unchanged.
- The scheduler's timing. The `schedule` library is modelled as ideal ticks: a job is due at second t when its interval divides t, and jobs take no time.
- The scheduler's lock. `threading.Lock` is left out, and so are the two-second pauses in `start`.
- `stop`. A call from another thread arrives after `stopAfter` seconds of the loop.
- Fixed oracles. The network oracles are the same in every round.
- RunJob: it has no contract of its own, so the store effect of a job run from the loop is not stated; the jobs' own contracts state it.
- Job exception handlers. The model has no exceptions for them to catch, because every client method already catches Redis errors.
- `to_dict` and `__str__`. They only format text, timestamps included: `last_checked` is a number of seconds, not a `datetime`.
- Logging. Logging is left out everywhere; the logged score of `update_proxy_score` is returned as a ghost value.
- Files outside the core. api/, run.py, main.py and utils/logger.py are not part of this model. The values of setting.py appear as constants in `Settings`.
