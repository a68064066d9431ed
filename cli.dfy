/**
 * The command-line front end's own decisions: the default `/24` suffix, the
 * port check, whether a proxy pool is built, and the line a scan prints.
 */
module Cli {
  import opened Wrappers
  import opened Numerals
  import opened Errors
  import opened Settings
  import opened Proxies
  import opened Scanning

  /** An address without a prefix length scans its /24; one with a '/' is used as given. */
  method NormalizeCidr(ipOrCidr: string) returns (cidr: string)
    ensures '/' in ipOrCidr ==> cidr == ipOrCidr
    ensures '/' !in ipOrCidr ==> cidr == ipOrCidr + "/24"
    ensures '/' in cidr
  {
    cidr := ipOrCidr;
    if '/' !in ipOrCidr {
      cidr := cidr + "/24";
      assert cidr[|ipOrCidr|] == '/';
    }
  }

  /** The port argument: a u16 in 1..=65535, or None (the program reports it and stops). */
  function AcceptPort(arg: string): Option<u16> {
    match ParseU16(arg)
    case Some(p) => if 1 <= p <= 65535 then Some(p) else None
    case None => None
  }

  /** A port is accepted exactly when it parses as a u16 other than 0. */
  lemma AcceptPortExactly(arg: string)
    ensures AcceptPort(arg).Some? <==> ParseU16(arg).Some? && ParseU16(arg).value != 0
    ensures AcceptPort(arg).Some? ==> AcceptPort(arg) == ParseU16(arg) && 1 <= AcceptPort(arg).value
  {
  }

  /** Some boundary cases of the port check. */
  lemma {:induction false} AcceptPortCases()
    ensures AcceptPort("0") == None
    ensures AcceptPort("80") == Some(80)
    ensures AcceptPort("+80") == Some(80)
    ensures AcceptPort("65535") == Some(65535)
    ensures AcceptPort("65536") == None
    ensures AcceptPort("-1") == None
    ensures AcceptPort("") == None
  {
    assert DigitsValue("0") == 0 by { assert "0"[..0] == []; }
    assert DigitsValue("80") == 80 by { assert "80"[..1] == "8"; assert "8"[..0] == []; }
    assert "+80"[1..] == "80";
    assert DigitsValue("65535") == 65535 by {
      assert "65535"[..4] == "6553";
      assert "6553"[..3] == "655";
      assert "655"[..2] == "65";
      assert "65"[..1] == "6";
      assert "6"[..0] == [];
    }
    assert DigitsValue("65536") == 65536 by {
      assert "65536"[..4] == "6553";
      assert "6553"[..3] == "655";
      assert "655"[..2] == "65";
      assert "65"[..1] == "6";
      assert "6"[..0] == [];
    }
    assert !IsDigit("-1"[0]);
  }

  /** A pool is built, from the configured list, exactly when the configuration has one. */
  method ProxyManagerFor(config: Config, alive: Proxy -> bool) returns (pm: ProxyManager?)
    ensures pm != null <==> config.proxies.Some?
    ensures pm != null ==>
      && fresh(pm) && pm.Valid()
      && pm.all == config.proxies.value
      && pm.active == Filter(config.proxies.value, alive)
  {
    if config.proxies.Some? {
      pm := new ProxyManager(config.proxies.value, alive);
    } else {
      pm := null;
    }
  }

  /** One character as `{:?}` writes it inside a string literal. */
  function EscapeChar(c: char): string {
    match c
    case '"' => "\\\""
    case '\\' => "\\\\"
    case '\n' => "\\n"
    case '\r' => "\\r"
    case '\t' => "\\t"
    case '\0' => "\\0"
    case _ => [c]
  }

  function Escape(s: string): string {
    if s == [] then [] else EscapeChar(s[0]) + Escape(s[1..])
  }

  /** `format!("{:?}", s)` for a String: quoted, with its special characters escaped. */
  function DebugString(s: string): string {
    "\"" + Escape(s) + "\""
  }

  /** The character a backslash escape stands for. */
  function UnescapeChar(c: char): Option<char> {
    match c
    case '"' => Some('"')
    case '\\' => Some('\\')
    case 'n' => Some('\n')
    case 'r' => Some('\r')
    case 't' => Some('\t')
    case '0' => Some('\0')
    case _ => None
  }

  /** Reads escaped text back; None on a stray backslash or an unescaped quote. */
  function Unescape(e: string): Option<string>
    decreases |e|
  {
    if e == [] then Some([])
    else if e[0] == '\\' then
      if |e| < 2 || UnescapeChar(e[1]).None? then None
      else match Unescape(e[2..])
        case Some(rest) => Some([UnescapeChar(e[1]).value] + rest)
        case None => None
    else if e[0] == '"' then None
    else match Unescape(e[1..])
      case Some(rest) => Some([e[0]] + rest)
      case None => None
  }

  lemma UnescapeEscapeChar(c: char, t: string, u: string)
    requires Unescape(t) == Some(u)
    ensures Unescape(EscapeChar(c) + t) == Some([c] + u)
  {
    var e := EscapeChar(c) + t;
    if |EscapeChar(c)| == 2 {
      assert e[2..] == t;
    } else {
      assert e[1..] == t;
    }
  }

  /** The escaping is undone by Unescape, so a printed title shows exactly the page's title. */
  lemma {:induction false} UnescapeEscape(s: string)
    ensures Unescape(Escape(s)) == Some(s)
  {
    if s != [] {
      UnescapeEscape(s[1..]);
      UnescapeEscapeChar(s[0], Escape(s[1..]), s[1..]);
      assert [s[0]] + s[1..] == s;
    }
  }

  /** Text without quotes, backslashes or control characters is printed as it is. */
  lemma {:induction false} EscapePlain(s: string)
    requires forall i :: 0 <= i < |s| ==> ' ' <= s[i] && s[i] != '"' && s[i] != '\\'
    ensures Escape(s) == s
  {
    if s != [] {
      EscapePlain(s[1..]);
      assert EscapeChar(s[0]) == [s[0]];
      assert [s[0]] + s[1..] == s;
    }
  }

  function TitleShown(title: Option<string>): string {
    match title
    case Some(t) => t
    case None => "No title"
  }

  /**
   * What the program prints for a finished scan: nothing for a failure, one
   * line for a success. The port is printed as it was typed, not as parsed.
   */
  function ResultLine(ip: Ipv4, portArg: string, uri: string, r: Outcome): Option<string> {
    match r
    case Err(_) => None
    case Ok((status, title)) =>
      Some(Ipv4ToString(ip) + ":" + portArg + uri + " - Status: " + NatToString(status)
           + " - Title: " + DebugString(TitleShown(title)))
  }

  /**
   * A line is printed iff the scan succeeded; it ends with the quoted title,
   * which reads back as the page's title, or as "No title" when there is none.
   */
  lemma ResultLineShowsTitle(ip: Ipv4, portArg: string, uri: string, r: Outcome)
    ensures ResultLine(ip, portArg, uri, r).Some? <==> r.Ok?
    ensures r.Ok? ==>
      var prefix := Ipv4ToString(ip) + ":" + portArg + uri + " - Status: " + NatToString(r.value.0) + " - Title: ";
      && ResultLine(ip, portArg, uri, r).value == prefix + DebugString(TitleShown(r.value.1))
      && Unescape(Escape(TitleShown(r.value.1))) == Some(TitleShown(r.value.1))
      && (r.value.1.None? ==> TitleShown(r.value.1) == "No title")
  {
    if r.Ok? {
      UnescapeEscape(TitleShown(r.value.1));
    }
  }

  /** A success without a title prints "No title", quoted. */
  lemma NoTitleLine(ip: Ipv4, portArg: string, uri: string, status: u16)
    ensures ResultLine(ip, portArg, uri, Ok((status, None))) ==
      Some(Ipv4ToString(ip) + ":" + portArg + uri + " - Status: " + NatToString(status)
           + " - Title: " + DebugString("No title"))
    ensures DebugString("No title") == "\"No title\""
  {
    EscapePlain("No title");
  }
}
