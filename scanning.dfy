/**
 * The per-target scan: an HTTP client bound to the pool's current proxy (or
 * direct), at most two GET requests, and the page title of the first response.
 *
 * The network is an oracle: `network(req, k)` is what the k-th request
 * (counting from 0) of the scan turned out to be. The HTML library is the
 * function `firstMatch(selector, document)`, the inner HTML of the first
 * element matching the selector, if any.
 */
module Scanning {
  import opened Wrappers
  import opened Numerals
  import opened Errors
  import opened Settings
  import opened Proxies

  datatype Ipv4 = Ipv4(a: u8, b: u8, c: u8, d: u8)

  /** Dotted-quad text, as `Display` writes an IPv4 address. */
  function Ipv4ToString(ip: Ipv4): string {
    NatToString(ip.a) + "." + NatToString(ip.b) + "." + NatToString(ip.c) + "." + NatToString(ip.d)
  }

  /** `format!("http://{}:{}{}", ip, port, uri)`. */
  function Url(ip: Ipv4, port: u16, uri: string): string {
    "http://" + Ipv4ToString(ip) + ":" + NatToString(port) + uri
  }

  /** The URL names the target's host, a port text that parses back to its port, and its path. */
  lemma UrlNamesTarget(ip: Ipv4, port: u16, uri: string)
    ensures var host := Ipv4ToString(ip);
            var portText := NatToString(port);
            && Url(ip, port, uri) == "http://" + host + ":" + portText + uri
            && ':' !in host
            && ParseU16(portText) == Some(port)
  {
    ParseU16OfNatToString(port);
    var host := Ipv4ToString(ip);
    forall k | 0 <= k < |host| ensures host[k] != ':' {
    }
  }

  /** How a client reaches the target: directly or through a SOCKS5 proxy. */
  datatype Route = Direct | Socks5(proxy: Proxy)

  /** What a client is configured with: the timeout, the user-agent header, the route. */
  datatype Client = Client(timeout: u64, userAgent: string, route: Route)

  datatype Request = Get(client: Client, url: string)

  datatype Body = Text(html: string) | BodyReadFailed

  /** A request either is answered (the body may still fail to arrive) or fails. */
  datatype Response = Received(status: u16, body: Body) | Failed(isTimeout: bool)

  type Outcome = Result<(u16, Option<string>), AppError>

  const MaxAttempts: nat := 2

  /** A CSS selector; only type (tag name) selectors are modelled. */
  datatype Selector = Tag(name: string)

  predicate IsNameChar(c: char) {
    ('a' <= c <= 'z') || ('A' <= c <= 'Z') || ('0' <= c <= '9') || c == '-' || c == '_'
  }

  /** `Selector::parse` restricted to a bare tag name. */
  function ParseSelector(s: string): (r: Option<Selector>)
    ensures r.Some? <==> s != [] && !('0' <= s[0] <= '9') && forall i :: 0 <= i < |s| ==> IsNameChar(s[i])
    ensures r.Some? ==> r.value == Tag(s)
  {
    if s != [] && !('0' <= s[0] <= '9') && forall i :: 0 <= i < |s| ==> IsNameChar(s[i]) then Some(Tag(s))
    else None
  }

  /** `extract_title`: the first `title` element's inner HTML; fails only if the selector does not parse. */
  function ExtractTitle(html: string, firstMatch: (Selector, string) -> Option<string>)
    : (r: Result<Option<string>, AppError>)
    ensures r.Err? <==> ParseSelector("title").None?
    ensures r.Err? ==> r.error == HtmlParsingError
    ensures r.Ok? ==> r.value == firstMatch(Tag("title"), html)
  {
    match ParseSelector("title")
    case None => Err(HtmlParsingError)
    case Some(selector) => Ok(firstMatch(selector, html))
  }

  /** The constant selector always parses, so title extraction never fails. */
  lemma ExtractTitleNeverFails(html: string, firstMatch: (Selector, string) -> Option<string>)
    ensures ExtractTitle(html, firstMatch) == Ok(firstMatch(Tag("title"), html))
  {
    assert IsNameChar('t') && IsNameChar('i') && IsNameChar('l') && IsNameChar('e');
  }

  /**
   * The client `build_client` configures for the pool's state: the configured
   * timeout and user agent, through the pool's current proxy when there is a
   * pool and it has one, direct otherwise.
   */
  ghost predicate ConfiguredFor(c: Client, config: Config, pm: ProxyManager?)
    reads pm
    requires pm != null ==> pm.Valid() && pm.InBounds()
  {
    && c.timeout == config.timeout
    && c.userAgent == config.userAgent
    && (c.route.Socks5? <==> pm != null && pm.GetCurrentProxy().Some?)
    && (c.route.Socks5? ==> c.route.proxy == pm.GetCurrentProxy().value)
  }

  /** `Scanner::build_client`. */
  method BuildClient(config: Config, pm: ProxyManager?) returns (c: Client)
    requires pm != null ==> pm.Valid() && pm.InBounds()
    ensures c.timeout == config.timeout && c.userAgent == config.userAgent
    ensures c.route.Socks5? <==> pm != null && pm.current.Some?
    ensures c.route.Socks5? ==> c.route.proxy == pm.active[pm.current.value]
    ensures ConfiguredFor(c, config, pm)
  {
    var builder := Client(config.timeout, config.userAgent, Direct);
    if pm != null {
      var proxy := pm.GetCurrentProxy();
      if proxy.Some? {
        builder := builder.(route := Socks5(proxy.value));
      }
    }
    c := builder;
  }

  class Scanner {
    const baseIp: Ipv4
    const port: u16
    const uri: string
    var client: Client
    const proxyManager: ProxyManager?

    /** The pool this scanner may read is in a state it can read without panicking. */
    ghost predicate PoolReadable()
      reads this, proxyManager
    {
      proxyManager != null ==> proxyManager.Valid() && proxyManager.InBounds()
    }

    /** `Scanner::new`: a client configured for the pool as it is now. */
    constructor (baseIp: Ipv4, port: u16, uri: string, config: Config, pm: ProxyManager?)
      requires pm != null ==> pm.Valid() && pm.InBounds()
      ensures this.baseIp == baseIp && this.port == port && this.uri == uri
      ensures proxyManager == pm
      ensures ConfiguredFor(client, config, pm)
    {
      this.baseIp := baseIp;
      this.port := port;
      this.uri := uri;
      this.proxyManager := pm;
      var c := BuildClient(config, pm);
      this.client := c;
    }

    /**
     * `Scanner::scan`. Returns the outcome and, as ghost, the requests issued.
     * Only a timeout is retried; any failure rebuilds the client when a pool
     * is attached; the pool itself is never changed.
     */
    method Scan(config: Config, network: (Request, nat) -> Response,
                firstMatch: (Selector, string) -> Option<string>)
      returns (r: Outcome, ghost sent: seq<Request>)
      requires PoolReadable()
      modifies this`client
      ensures 1 <= |sent| <= MaxAttempts
      // every request goes to the target's URL; the first with the scanner's client
      ensures forall k :: 0 <= k < |sent| ==> sent[k].url == Url(baseIp, port, uri)
      ensures sent[0].client == old(client)
      // only a request that timed out is followed by another
      ensures forall k :: 0 <= k < |sent| - 1 ==> network(sent[k], k) == Failed(true)
      // a retry uses the rebuilt client when there is a pool, the same one otherwise
      ensures |sent| == 2 && proxyManager != null ==> ConfiguredFor(sent[1].client, config, proxyManager)
      ensures |sent| == 2 && proxyManager == null ==> sent[1].client == old(client)
      // the last request decides the outcome
      ensures var k := |sent| - 1;
        match network(sent[k], k)
        case Received(status, BodyReadFailed) =>
          r == Err(ResponseBodyError) && client == sent[k].client
        case Received(status, Text(html)) =>
          && (r.Ok? <==> ExtractTitle(html, firstMatch).Ok?)
          && (r.Ok? ==> r.value == (status, firstMatch(Tag("title"), html)))
          && (r.Err? ==> r.error == HtmlParsingError)
          && client == sent[k].client
        case Failed(isTimeout) =>
          && r == Err(RequestError)
          && (!isTimeout || |sent| == MaxAttempts)
          && (proxyManager != null ==> ConfiguredFor(client, config, proxyManager))
          && (proxyManager == null ==> client == old(client))
      ensures proxyManager != null ==> proxyManager.Valid() && proxyManager.InBounds()
    {
      var url := Url(baseIp, port, uri);
      sent := [];
      for attempt := 0 to MaxAttempts
        invariant |sent| == attempt
        invariant forall k :: 0 <= k < attempt ==> sent[k].url == url
        invariant attempt > 0 ==> sent[0].client == old(client)
        invariant forall k :: 0 <= k < attempt ==> network(sent[k], k) == Failed(true)
        invariant attempt > 0 && proxyManager != null ==> ConfiguredFor(client, config, proxyManager)
        invariant proxyManager == null ==> client == old(client)
        invariant attempt == 0 ==> client == old(client)
        invariant attempt > 1 && proxyManager != null ==> ConfiguredFor(sent[1].client, config, proxyManager)
        invariant attempt > 1 && proxyManager == null ==> sent[1].client == old(client)
      {
        var request := Get(client, url);
        sent := sent + [request];
        var response := network(request, attempt);
        match response {
          case Received(status, body) =>
            if body.BodyReadFailed? {
              return Err(ResponseBodyError), sent;
            }
            var title := ExtractTitle(body.html, firstMatch);
            if title.Err? {
              return Err(title.error), sent;
            }
            return Ok((status, title.value)), sent;
          case Failed(isTimeout) =>
            if proxyManager != null {
              client := BuildClient(config, proxyManager);
            }
            if !isTimeout {
              return Err(RequestError), sent;
            }
        }
      }
      r := Err(RequestError);
    }
  }
}
