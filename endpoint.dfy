/**
 * The value part of a server instance: how a URL is taken apart into scheme,
 * host and port, and how an instance's id and URL are derived from its host
 * and ports. The mutable part (availability, circuit breaker) is the class in
 * module Instances.
 */
module Endpoints {
  import opened Wrappers
  import opened JavaLang

  datatype Scheme = Http | Https | Ws | Wss | NoScheme

  function PrefixText(sch: Scheme): string
  {
    match sch
    case Http => "http://"
    case Https => "https://"
    case Ws => "ws://"
    case Wss => "wss://"
    case NoScheme => ""
  }

  predicate IsWebsocketScheme(sch: Scheme) { sch == Ws || sch == Wss }

  predicate IsSecureScheme(sch: Scheme) { sch == Https || sch == Wss }

  /** toLowerCase().startsWith(prefix) for a lower-case prefix. */
  predicate StartsWithIgnoreCase(s: string, prefix: string)
  {
    |prefix| <= |s| && ToLower(s[..|prefix|]) == prefix
  }

  /** The scheme recognised at the front of a URL; http, https, ws and wss are tried in that order. */
  function SchemeOf(url: string): (sch: Scheme)
    ensures |PrefixText(sch)| <= |url|
  {
    if StartsWithIgnoreCase(url, "http://") then Http
    else if StartsWithIgnoreCase(url, "https://") then Https
    else if StartsWithIgnoreCase(url, "ws://") then Ws
    else if StartsWithIgnoreCase(url, "wss://") then Wss
    else NoScheme
  }

  datatype HostPortInfo = HostPortInfo(websocket: bool, secure: bool, host: string, port: int)

  /** Integer.valueOf rejected the text after the first ':' (a NumberFormatException). */
  datatype UrlError = MalformedPort(text: string)

  /** The port a URL without an explicit port is taken to use. */
  const DefaultPort: int := 80

  /** Everything before the first '/', or all of the text when it has none. */
  function AuthorityOf(rest: string): (a: string)
    ensures '/' !in a
  {
    if '/' in rest then rest[..IndexOf(rest, '/')] else rest
  }

  /** Host and port from "host" (port 80) or "host:port"; the port text is everything after the first ':'. */
  function ParseAuthority(sch: Scheme, authority: string): (r: Result<HostPortInfo, UrlError>)
    ensures r.Success? ==> ':' !in r.value.host
    ensures r.Success? && '/' !in authority ==> '/' !in r.value.host
    ensures r.Success? ==> IsInt32(r.value.port)
  {
    var colon := IndexOf(authority, ':');
    if colon == -1 then
      Success(HostPortInfo(IsWebsocketScheme(sch), IsSecureScheme(sch), authority, DefaultPort))
    else
      var host := authority[..colon];
      var text := authority[colon + 1..];
      assert '/' !in authority ==> '/' !in host by {
        if '/' !in authority { PrefixAvoids(authority, colon, '/'); }
      }
      match ParseInt(text)
      case None => Failure(MalformedPort(text))
      case Some(p) => Success(HostPortInfo(IsWebsocketScheme(sch), IsSecureScheme(sch), host, p))
  }

  lemma PrefixAvoids(s: string, i: nat, c: char)
    requires i <= |s| && c !in s
    ensures c !in s[..i]
  {
    assert forall j | 0 <= j < i :: s[..i][j] == s[j];
  }

  /**
   * getHostInfoFromUrl: strip the scheme, cut at the first '/', then split
   * host and port at the first ':'. Without a ':' the whole remainder is the
   * host and the port is 80.
   */
  function GetHostInfoFromUrl(url: string): (r: Result<HostPortInfo, UrlError>)
    ensures r.Success? ==> ':' !in r.value.host && '/' !in r.value.host
    ensures r.Success? ==> IsInt32(r.value.port)
  {
    var sch := SchemeOf(url);
    ParseAuthority(sch, AuthorityOf(url[|PrefixText(sch)|..]))
  }

  /** The text of a URL with the given scheme, host, optional ":port" and path. */
  function RenderUrl(sch: Scheme, host: string, port: Option<int>, path: string): string
  {
    PrefixText(sch) + host + (if port.Some? then ":" + IntToString(port.value) else "") + path
  }

  lemma SchemeOfPrefixed(sch: Scheme, rest: string)
    requires sch != NoScheme
    ensures SchemeOf(PrefixText(sch) + rest) == sch
  {
    var s := PrefixText(sch) + rest;
    StartsWithOwnPrefix(PrefixText(sch), rest);
    match sch {
      case Http =>
      case Https =>
        Mismatch(s, "http://", 4);
      case Ws =>
        Mismatch(s, "http://", 0);
        Mismatch(s, "https://", 0);
      case Wss =>
        Mismatch(s, "http://", 0);
        Mismatch(s, "https://", 0);
        Mismatch(s, "ws://", 2);
    }
  }

  /** A lower-case prefix is found at the front of any text it starts. */
  lemma StartsWithOwnPrefix(prefix: string, rest: string)
    requires ToLower(prefix) == prefix
    ensures StartsWithIgnoreCase(prefix + rest, prefix)
  {
    assert (prefix + rest)[..|prefix|] == prefix;
  }

  /** A prefix whose k-th character differs from the lower-cased k-th character of `s` does not start `s`. */
  lemma Mismatch(s: string, prefix: string, k: nat)
    requires k < |prefix| && (k < |s| ==> ToLowerChar(s[k]) != prefix[k])
    ensures !StartsWithIgnoreCase(s, prefix)
  {
    if |prefix| <= |s| {
      assert ToLower(s[..|prefix|])[k] == ToLowerChar(s[k]);
    }
  }

  lemma NoSeparatorInIntToString(n: int)
    ensures '/' !in IntToString(n) && ':' !in IntToString(n)
  {
    var d := NatToString(if n < 0 then -n else n);
    assert forall i | 0 <= i < |d| :: IsDigit(d[i]);
    if n < 0 {
      assert IntToString(n) == "-" + d;
    }
  }

  lemma AuthorityBeforePath(authority: string, path: string)
    requires '/' !in authority
    requires path == [] || path[0] == '/'
    ensures AuthorityOf(authority + path) == authority
  {
    if path != [] {
      IndexOfAfterPrefix(authority, '/', path[1..]);
      assert authority + path == authority + ['/'] + path[1..];
      assert (authority + path)[..|authority|] == authority;
    } else {
      assert authority + path == authority;
    }
  }

  lemma ParseAuthorityWithPort(sch: Scheme, host: string, text: string)
    requires ':' !in host
    ensures ParseAuthority(sch, host + ":" + text)
         == match ParseInt(text)
            case None => Failure(MalformedPort(text))
            case Some(p) => Success(HostPortInfo(IsWebsocketScheme(sch), IsSecureScheme(sch), host, p))
  {
    var authority := host + ":" + text;
    IndexOfAfterPrefix(host, ':', text);
    assert authority == host + [':'] + text;
    assert authority[..|host|] == host;
    assert authority[|host| + 1..] == text;
  }

  lemma GetHostInfoParts(sch: Scheme, authority: string, path: string)
    requires sch != NoScheme
    requires '/' !in authority
    requires path == [] || path[0] == '/'
    ensures GetHostInfoFromUrl(PrefixText(sch) + authority + path) == ParseAuthority(sch, authority)
  {
    var url := PrefixText(sch) + authority + path;
    SchemeOfPrefixed(sch, authority + path);
    assert url == PrefixText(sch) + (authority + path);
    assert url[|PrefixText(sch)|..] == authority + path;
    AuthorityBeforePath(authority, path);
  }

  /** A URL with a written port parses to its host and that port. */
  lemma PortAuthority(sch: Scheme, host: string, port: int, path: string)
    requires sch != NoScheme
    requires ':' !in host && '/' !in host
    requires IsInt32(port)
    requires path == [] || path[0] == '/'
    ensures GetHostInfoFromUrl(PrefixText(sch) + (host + ":" + IntToString(port)) + path)
         == Success(HostPortInfo(IsWebsocketScheme(sch), IsSecureScheme(sch), host, port))
  {
    var text := IntToString(port);
    var authority := host + ":" + text;
    NoSeparatorInIntToString(port);
    assert '/' !in authority by {
      assert forall i | |host| < i < |authority| :: authority[i] == text[i - |host| - 1];
    }
    GetHostInfoParts(sch, authority, path);
    ParseAuthorityWithPort(sch, host, text);
    ParseIntOfIntToString(port);
  }

  /**
   * Taking a rendered URL apart gives back its pieces: the scheme's websocket
   * and secure flags, the host, and the port (80 when none is written).
   */
  lemma UrlRoundTrip(sch: Scheme, host: string, port: Option<int>, path: string)
    requires sch != NoScheme
    requires ':' !in host && '/' !in host
    requires port.Some? ==> IsInt32(port.value)
    requires path == [] || path[0] == '/'
    ensures GetHostInfoFromUrl(RenderUrl(sch, host, port, path))
         == Success(HostPortInfo(IsWebsocketScheme(sch), IsSecureScheme(sch), host,
                                 if port.Some? then port.value else DefaultPort))
  {
    if port.Some? {
      var text := IntToString(port.value);
      var authority := host + ":" + text;
      assert RenderUrl(sch, host, port, path) == PrefixText(sch) + authority + path;
      PortAuthority(sch, host, port.value, path);
    } else {
      assert RenderUrl(sch, host, port, path) == PrefixText(sch) + host + path;
      GetHostInfoParts(sch, host, path);
    }
  }

  /** A port that Integer.valueOf rejects makes the URL unusable: the constructor throws. */
  lemma MalformedPortFails(sch: Scheme, host: string, text: string)
    requires sch != NoScheme
    requires ':' !in host && '/' !in host && '/' !in text
    requires ParseInt(text).None?
    ensures GetHostInfoFromUrl(PrefixText(sch) + host + ":" + text) == Failure(MalformedPort(text))
  {
    var authority := host + ":" + text;
    assert '/' !in authority by {
      assert forall i | |host| < i < |authority| :: authority[i] == text[i - |host| - 1];
    }
    assert PrefixText(sch) + host + ":" + text == PrefixText(sch) + authority + [];
    GetHostInfoParts(sch, authority, []);
    ParseAuthorityWithPort(sch, host, text);
  }

  /** The immutable identity and addressing of a server instance. */
  datatype Endpoint = Endpoint(
    serviceName: string,
    id: string,
    host: string,
    isSecure: bool,
    port: int,
    websocketPort: int,
    url: string)

  /**
   * initialize: the id is the given one, or "host:port" using the http port
   * when it is positive and the websocket port otherwise; the URL is always
   * built from the http port, with https when the instance is secure.
   */
  function Initialize(serviceName: string, id: Option<string>, host: string, isSecure: bool,
                      port: int, websocketPort: int): Endpoint
  {
    var derivedId := host + ":" + IntToString(if port > 0 then port else websocketPort);
    var url := (if isSecure then "https://" else "http://") + host + ":" + IntToString(port);
    Endpoint(serviceName, if id.Some? then id.value else derivedId, host, isSecure, port, websocketPort, url)
  }

  /** The URL an instance derives for itself parses back to its host, its http port and its secure flag. */
  lemma InitializeUrlRoundTrip(serviceName: string, id: Option<string>, host: string, isSecure: bool,
                               port: int, websocketPort: int)
    requires ':' !in host && '/' !in host && IsInt32(port)
    ensures GetHostInfoFromUrl(Initialize(serviceName, id, host, isSecure, port, websocketPort).url)
         == Success(HostPortInfo(false, isSecure, host, port))
  {
    var sch := if isSecure then Https else Http;
    assert Initialize(serviceName, id, host, isSecure, port, websocketPort).url == RenderUrl(sch, host, Some(port), "");
    UrlRoundTrip(sch, host, Some(port), "");
  }

  /**
   * The URL constructor: a websocket URL supplies the websocket port (the http
   * port becomes -1), any other URL supplies the http port (the websocket port
   * becomes -1). A port Integer.valueOf rejects is an error.
   */
  function FromUrl(serviceName: string, url: string): (r: Result<Endpoint, UrlError>)
    ensures r.Success? ==> r.value.serviceName == serviceName && ':' !in r.value.host
    ensures r.Success? ==> (r.value.port == -1 || r.value.websocketPort == -1)
  {
    match GetHostInfoFromUrl(url)
    case Failure(e) => Failure(e)
    case Success(info) =>
      if info.websocket then Success(Initialize(serviceName, None, info.host, info.secure, -1, info.port))
      else Success(Initialize(serviceName, None, info.host, info.secure, info.port, -1))
  }

  /**
   * A URL with an explicit positive port gives the id "host:port"; a
   * websocket URL puts that port in the websocket slot and -1 in the http slot.
   */
  lemma FromUrlIdentity(serviceName: string, sch: Scheme, host: string, port: int, path: string)
    requires sch != NoScheme && ':' !in host && '/' !in host
    requires 0 < port <= MaxInt
    requires path == [] || path[0] == '/'
    ensures FromUrl(serviceName, RenderUrl(sch, host, Some(port), path)).Success?
    ensures var e := FromUrl(serviceName, RenderUrl(sch, host, Some(port), path)).value;
            && e.id == host + ":" + IntToString(port)
            && e.host == host
            && e.isSecure == IsSecureScheme(sch)
            && (if IsWebsocketScheme(sch) then e.port == -1 && e.websocketPort == port
                else e.port == port && e.websocketPort == -1)
  {
    UrlRoundTrip(sch, host, Some(port), path);
  }

  lemma FromUrlPlain(serviceName: string, url: string, info: HostPortInfo)
    requires GetHostInfoFromUrl(url) == Success(info) && !info.websocket
    ensures FromUrl(serviceName, url) == Success(Initialize(serviceName, None, info.host, info.secure, info.port, -1))
  {
  }

  lemma FromUrlWebsocket(serviceName: string, url: string, info: HostPortInfo)
    requires GetHostInfoFromUrl(url) == Success(info) && info.websocket
    ensures FromUrl(serviceName, url) == Success(Initialize(serviceName, None, info.host, info.secure, -1, info.port))
  {
  }

  lemma LocalhostInfo(url: string, sch: Scheme, port: int, path: string)
    requires sch != NoScheme && url == RenderUrl(sch, "localhost", Some(port), path)
    requires IsInt32(port) && (path == [] || path[0] == '/')
    ensures GetHostInfoFromUrl(url) == Success(HostPortInfo(IsWebsocketScheme(sch), IsSecureScheme(sch), "localhost", port))
  {
    UrlRoundTrip(sch, "localhost", Some(port), path);
  }

  lemma LocalhostEndpoints()
    ensures Initialize("kvpservice", None, "localhost", false, 8080, -1)
         == Endpoint("kvpservice", "localhost:8080", "localhost", false, 8080, -1, "http://localhost:8080")
    ensures Initialize("kvpservice", None, "localhost", true, -1, 8443)
         == Endpoint("kvpservice", "localhost:8443", "localhost", true, -1, 8443, "https://localhost:-1")
  {
    PortTexts();
    assert "localhost" + ":" + "8080" == "localhost:8080";
    assert "http://" + "localhost" + ":" + "8080" == "http://localhost:8080";
    assert "localhost" + ":" + "8443" == "localhost:8443";
    assert "https://" + "localhost" + ":" + "-1" == "https://localhost:-1";
  }

  /** "http://localhost:8080" gives the id "localhost:8080" and no websocket port. */
  lemma FromUrlHttpExample(url: string)
    requires url == RenderUrl(Http, "localhost", Some(8080), "")
    ensures FromUrl("kvpservice", url)
         == Success(Endpoint("kvpservice", "localhost:8080", "localhost", false, 8080, -1, "http://localhost:8080"))
  {
    LocalhostInfo(url, Http, 8080, "");
    FromUrlPlain("kvpservice", url, HostPortInfo(false, false, "localhost", 8080));
    LocalhostEndpoints();
  }

  /** "wss://localhost:8443/socket": the port goes to the websocket slot and the URL keeps the http port -1. */
  lemma FromUrlWebsocketExample(url: string)
    requires url == RenderUrl(Wss, "localhost", Some(8443), "/socket")
    ensures FromUrl("kvpservice", url)
         == Success(Endpoint("kvpservice", "localhost:8443", "localhost", true, -1, 8443, "https://localhost:-1"))
  {
    LocalhostInfo(url, Wss, 8443, "/socket");
    FromUrlWebsocket("kvpservice", url, HostPortInfo(true, true, "localhost", 8443));
    LocalhostEndpoints();
  }

  lemma PortTexts()
    ensures IntToString(8080) == "8080" && IntToString(8443) == "8443" && IntToString(-1) == "-1"
  {
    assert NatToString(8) == "8";
    assert NatToString(80) == "80";
    assert NatToString(808) == "808";
    assert NatToString(84) == "84";
    assert NatToString(844) == "844";
  }

  /** hashCode: 31 * hash(id) + hash(serviceName), in int arithmetic. */
  function InstanceHash(e: Endpoint): (h: int)
    ensures IsInt32(h)
  {
    Wrap32(31 * StringHash(e.id) + StringHash(e.serviceName))
  }
}
