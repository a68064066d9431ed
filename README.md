# KirbyScan scan engine, modelled in Dafny

KirbyScan probes every address of an IPv4 range with an HTTP GET, prints the
status and page title of each answer, and can route its requests through a
pool of SOCKS5 proxies. This project models the program's decision logic and
treats the network as an oracle:

- `Proxies`: the proxy pool `ProxyManager`, a class with `all`, `active` and `current`.
  The constructor keeps the proxies that pass an abstract liveness probe. The stored
  index is computed the way the program computes it: it is the position in `all` of
  the last active proxy. That position is then used to index `active`.
  `GetCurrentProxy` and `DiscardCurrentProxy` therefore require it to be in bounds.
  That requirement is Rust's indexing panic (see Findings).
- `Scanning`: the `Scanner` class. It covers client configuration, the request URL,
  the retry loop of `scan` (at most two requests, only timeouts retried, the client
  rebuilt after every failure when a pool is attached) and title extraction.
  Request outcomes come from an oracle `network(request, attempt)`.
  HTML selection is a function parameter `firstMatch(selector, document)`.
- `Settings`: the configuration record and `load_from_file`'s normalisation.
  When `proxy` is false the proxy list is cleared. The thread count is clamped to the
  recommended count. I/O error kinds are mapped to errors. The file contents, the JSON
  decoder and the parallelism query are parameters.
- `Cli`: the front end's own decisions. An address gets a `/24` default. The port is
  checked. A pool is built only when proxies are configured. One line is printed per
  successful scan.
- `Errors`: the six error kinds and their messages.
- `Numerals`, `Wrappers`: fixed-width integer types, decimal text as Rust's `Display`
  writes it and `parse::<u16>` reads it, and Option/Result.

A failover design would discard the current proxy after a failed request. The code
never calls `discard_current_proxy`: `scan` only rebuilds the client against the
unchanged pool. The model follows the code. `Scanner.Scan` may modify only the
scanner's `client` field, so a scan cannot change the pool. `DiscardCurrentProxy`
is modelled, but nothing in the model calls it.

## Model

| member | source | states |
|---|---|---|
| `Errors.ErrorKindsPartitioned` | src/errors.rs:5-16 | there are exactly six error kinds; each is either a configuration error or a scanner error, never both |
| `Errors.Message` | src/errors.rs:21-28 | every error kind displays a fixed, non-empty message |
| `Errors.MessageInjective` | src/errors.rs:22-27 | different error kinds display different messages |
| `Errors.ScannerMessages` | src/errors.rs:25-26 | the connection error and the body error display "Error de conexion" and "Error al obtener el body." |
| `Settings.LoadFromFile` | src/config.rs:21-53 | (with its helpers `Settings.ReadError`, src/config.rs:23-27, and `Settings.RecommendedThreads`, src/config.rs:37-43) NotFound gives FileDoesNotExist, PermissionDenied gives FileInaccessible, any other read error or a decode failure gives ConfigLoadError, and every error is a config error; on success `proxies` is None when `proxy` is false and unchanged otherwise; `hilos` becomes min(hilos, recommended) and stays unchanged when parallelism is unknown (u32::MAX); `proxy`, `timeout` and `user_agent` are never changed |
| `Proxies.Filter` | src/proxy.rs:26-29 | the active list is an order-preserving subsequence of the input, holding exactly the input proxies that pass the probe |
| `Proxies.FilterCounts` | src/proxy.rs:26-29 | the active list keeps every copy of a live proxy and no copy of a dead one (multiset counts), so with the order above it is exactly the filtered input |
| `Proxies.FilterKeepsLiveCopies` | src/proxy.rs:26-29 | the same count property for every proxy at once |
| `Proxies.NewPoolFacts` | src/proxy.rs:25-40 | the values `new` stores: the filtered list is an ordered subsequence of the input inside it, the index is None iff no proxy is alive and otherwise names the last active proxy in `all`, and with every proxy alive the list is the input and, for distinct proxies, the index is in bounds |
| `Proxies.Position` | src/proxy.rs:32 | `position` returns None iff the proxy is absent; otherwise it returns the first index holding it |
| `Proxies.StoredIndex` | src/proxy.rs:31-33 | the stored index is None iff no proxy is active; otherwise it is the first position in `all` of the last active proxy, and the `unwrap` cannot fail |
| `Proxies.SubseqMembers` | src/proxy.rs:61-62 | every proxy of a subsequence of `all` is in `all`, so reselection's `unwrap` cannot fail |
| `Proxies.RemoveAt` | src/proxy.rs:54 | `Vec::remove(i)`: one element shorter, the elements before `i` unchanged, the ones after shifted down by one |
| `Proxies.SubseqRemoveAt` | src/proxy.rs:54 | removing one active proxy keeps `active` an order-preserving subsequence of `all` |
| `Proxies.ProxyManager.constructor` | src/proxy.rs:25-40 | `all` is the input; `active` is the filtered input (which keeps every copy of each live proxy, by `Proxies.FilterKeepsLiveCopies`); the index is None iff no proxy is alive, otherwise it is the position in `all` of the last active proxy; when every proxy is alive `active` is all of `all`, and with distinct proxies the index is then in bounds |
| `Proxies.ProxyManager.GetCurrentProxy` | src/proxy.rs:42-49 | returns None iff the index is None (iff no proxy is active); otherwise returns `active[index]`, a proxy of `all`; requires the index to be in bounds (the panic condition) |
| `Proxies.ProxyManager.DiscardCurrentProxy` | src/proxy.rs:51-57 | with no index nothing changes; otherwise exactly element `index` of `active` is removed, the rest keep their order, `|active|` drops by one, `all` is untouched, and the new index is the position in `all` of the new last active proxy, or None iff `active` is empty; a prefix of distinct proxies stays a prefix and its index stays in bounds |
| `Proxies.ProxyManager.SelectNextProxy` | src/proxy.rs:59-65 | stores the position in `all` of the last active proxy and changes nothing else |
| `Proxies.PrefixIndexIsLast` | src/proxy.rs:31-33 | when `active` is a prefix of distinct proxies, the stored index is `|active|-1`, or None when `active` is empty |
| `Proxies.AllAliveFilter` | src/proxy.rs:26-29 | when every proxy is alive, `active` is all of `all`, so the prefix condition holds after `new` |
| `Proxies.AllAliveInBounds` | src/proxy.rs:26-33 | when every proxy is alive the filter keeps them all, and with distinct proxies the index `new` stores is in bounds |
| `Proxies.DiscardKeepsPrefix` | src/proxy.rs:52-64 | on a prefix of distinct proxies, the stored index is the last position and discarding it leaves a prefix, so the pool then never indexes out of bounds |
| `Proxies.StoredIndexOutOfBounds` | src/proxy.rs:31-48 | with proxies [A, B] and only B alive, `active` is [B] and the stored index is 1, which is out of bounds for `active` |
| `Proxies.OnlyLastAlivePool` | src/proxy.rs:25-40 | `new` on [A, B] with only B alive yields a valid pool whose stored index 1 is not in bounds, so `get_current_proxy` would panic |
| `Proxies.StoredIndexNamesWrongProxy` | src/proxy.rs:31-48 | with proxies [D, L, M, L] and only D dead, `active` is [L, M, L] and the stored index is 1, which is in bounds but names M rather than the last active L |
| `Proxies.CorrectedDiscard` | src/proxy.rs:51-64 | the intended discard: removes the proxy at the corrected index `|active|-1` and selects the new last position |
| `Proxies.CorrectedDiscardKeepsInBounds` | src/proxy.rs:42-64 | for every pool, repeated proxies included, the corrected index names the last active proxy, and a corrected discard removes exactly it, keeps `active` an order-preserving subsequence of `all`, and leaves an in-bounds index naming the new last proxy |
| `Proxies.ActiveIndexSelectsLast` | src/proxy.rs:31-33 | on a prefix of distinct proxies the corrected index equals the stored one, so the correction changes nothing where the program already works |
| `Scanning.UrlNamesTarget` | src/scanner.rs:54 | (about `Scanning.Url`) the URL is "http://" + host + ":" + port + uri; the host has no ':' and the port text parses back to the port |
| `Scanning.ExtractTitle` | src/scanner.rs:83-90 | fails only with HtmlParsingError, and only when the "title" selector does not parse; otherwise returns the first title match or None |
| `Scanning.ExtractTitleNeverFails` | src/scanner.rs:85 | the constant "title" selector parses, so title extraction always succeeds |
| `Scanning.BuildClient` | src/scanner.rs:18-38 | the client has the configured timeout and user agent; it routes through SOCKS5 iff a pool is attached and has a current proxy, and then through `active[index]`; otherwise it connects directly |
| `Scanning.Scanner.constructor` | src/scanner.rs:40-50 | the scanner keeps its target and pool, with a client configured for the pool's current state |
| `Scanning.Scanner.Scan` | src/scanner.rs:53-80 | at most two requests, all to the target URL, the first with the existing client; a second request happens only after a timeout, using the rebuilt client if a pool is attached and the same client otherwise; a response ends the scan with (status, title), or with ResponseBodyError when the body fails; a non-timeout error, or a second timeout, gives RequestError; after a failure the client is rebuilt iff a pool is attached; the pool is never modified |
| `Cli.NormalizeCidr` | src/main.rs:46-51 | an argument without '/' gets "/24" appended; one with '/' is used verbatim; the result always has a prefix length |
| `Cli.AcceptPortExactly` | src/main.rs:63-69 | (about `Cli.AcceptPort`) a port is accepted iff it parses as a u16 other than 0, and the accepted value is the parsed one |
| `Cli.AcceptPortCases` | src/main.rs:63-69 | "0", "65536", "-1" and "" are rejected; "80", "+80" and "65535" are accepted with their values |
| `Cli.ProxyManagerFor` | src/main.rs:78-82 | a pool is built, from the configured list, iff the configuration has a proxy list |
| `Cli.UnescapeEscape` | src/main.rs:101 | the `{:?}` escaping of a title can be undone, so the printed title is the page's own |
| `Cli.ResultLineShowsTitle` | src/main.rs:99-106 | (about `Cli.ResultLine`) a line is printed iff the scan succeeded; it is the address, the port argument as typed, the uri, the status and the quoted title, or "No title" when the page has none |
| `Cli.NoTitleLine` | src/main.rs:101 | a success without a title prints `"No title"` in quotes |

## Left out

- Liveness probing and address resolution (`is_alive`, `to_socket_addr`) are left out because they are network I/O. Liveness is the parameter `alive: Proxy -> bool`, so two equal proxies are taken to get the same verdict.
- The `RwLock`s and concurrent access are left out; the pool is modelled sequentially. The nested locking in `discard_current_proxy` re-locks guards it still holds, so under `std::sync::RwLock` it would deadlock or panic the first time it ran with a current proxy (with no index the inner block is skipped). That is a concurrency artefact and is not modelled.
- reqwest is left out: client construction, the SOCKS5 transport, timeouts, and the async `send` and `text` calls. A client is the value (timeout, user agent, route). The outcome of each request comes from the `network` oracle.
- BuildClient: `ReqProxy::all` rejecting the `socks5://` URL is not modelled, so a current proxy is always used. The user-agent header `unwrap` and the `expect` on building the client are not modelled either; both would be panics.
- HTML parsing (scraper) is left out because it is a foreign library. `firstMatch` stands for "inner HTML of the first matching element". `ParseSelector` accepts bare tag names only, not the full CSS selector grammar.
- Reading `config.json`, serde decoding and `available_parallelism` are inputs of `LoadFromFile`. The loader's `println!`/`eprintln!` notices are output only and are not modelled.
- The rest of main.rs is left out as library or runtime plumbing: clap argument parsing, CIDR expansion by ipnetwork (`generate_ips_in_subnet`), the rayon pool and the tokio runtime. Printing itself is also left out; `ResultLine` gives the text.
- Only IPv4 targets are modelled, because main.rs only builds `IpAddr::V4`.
- Cli.ResultLineShowsTitle: the `{:?}` escaping covers quote, backslash, `\n`, `\r`, `\t` and NUL. Rust's `\u{…}` escapes are not modelled: they are written for other non-printable characters and also for grapheme-extend characters such as a combining accent (U+0301), which the model prints raw.
- Status codes are any u16. reqwest's restriction to 100..=999 is not modelled.

## Findings

| source | as written | input that shows it | evidently intended | confidence | as-written member | corrected member |
|---|---|---|---|---|---|---|
| src/proxy.rs:31-33 | the stored index is the position in `all_proxies` of the last active proxy, and `get_current_proxy` uses it to index `active_proxies` (src/proxy.rs:45) | proxies [A, B] with only B alive: `active` is [B], the index is 1, and `get_current_proxy` panics out of bounds | the index of the last active proxy within `active`, i.e. `len - 1` | high, proved; not executed | `Proxies.StoredIndexOutOfBounds` | `Proxies.CorrectedDiscardKeepsInBounds` |
| src/proxy.rs:31-33 | the stored index is the first position in `all_proxies` of the last active proxy, so with a repeated proxy it can be a valid index into `active_proxies` that names another proxy (src/proxy.rs:45) | proxies [D, L, M, L] with only D dead: `active` is [L, M, L], the index is 1, and `get_current_proxy` returns M instead of the last active L | the last active proxy, at `len - 1` | high, proved; not executed | `Proxies.StoredIndexNamesWrongProxy` | `Proxies.CorrectedDiscardKeepsInBounds` |

The pool class keeps the as-written index, because it describes the program.
`GetCurrentProxy` and `DiscardCurrentProxy` require that index to be in bounds.
`PrefixIndexIsLast` and `DiscardKeepsPrefix` name the pools where it is in bounds.
On those pools the corrected `ActiveIndex` and the stored index coincide.
`CorrectedDiscard` is the intended discard; `CorrectedDiscardKeepsInBounds` proves that it keeps the index
in bounds, naming the last active proxy, on every pool.
