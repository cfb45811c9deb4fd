/**
 * Fixed instance sources: a list given as URLs when the client is built, and
 * a list read from a comma-separated configuration value. Both turn each
 * trimmed URL into an instance marked available; a URL whose port does not
 * parse makes the whole build throw.
 */
module ServerLists {
  import opened Wrappers
  import opened JavaLang
  import opened Endpoints
  import opened CircuitBreaker
  import opened Instances

  /** The given entries that are not null, trimmed, in their order. */
  function Present(entries: seq<Option<string>>): (r: seq<string>)
    ensures |r| <= |entries|
    decreases |entries|
  {
    if entries == [] then []
    else
      var init := Present(entries[..|entries| - 1]);
      var last := entries[|entries| - 1];
      if last.Some? then init + [Trim(last.value)] else init
  }

  /** Exactly the trimmed texts of the entries that are not null occur in Present. */
  lemma {:induction false} PresentMembers(entries: seq<Option<string>>, u: string)
    ensures u in Present(entries) <==> exists i | 0 <= i < |entries| :: entries[i].Some? && Trim(entries[i].value) == u
    decreases |entries|
  {
    if entries != [] {
      var n := |entries| - 1;
      PresentMembers(entries[..n], u);
      assert forall i | 0 <= i < n :: entries[..n][i] == entries[i];
    }
  }

  /** A null entry adds nothing; a present one adds its trimmed text at the end. */
  lemma PresentAppend(entries: seq<Option<string>>, e: Option<string>)
    ensures Present(entries + [e]) == if e.Some? then Present(entries) + [Trim(e.value)] else Present(entries)
  {
    assert (entries + [e])[..|entries|] == entries;
  }

  /** All the values, in order, or the first error. */
  function Collect<T, E>(rs: seq<Result<T, E>>): (r: Result<seq<T>, E>)
    ensures r.Success? ==> |r.value| == |rs|
    decreases |rs|
  {
    if rs == [] then Success([])
    else
      match Collect(rs[..|rs| - 1])
      case Failure(e) => Failure(e)
      case Success(vs) =>
        match rs[|rs| - 1]
        case Failure(e) => Failure(e)
        case Success(v) => Success(vs + [v])
  }

  /** Collect succeeds exactly when every result does, with their values; a failure is one of the results'. */
  lemma {:induction false} CollectFacts<T, E>(rs: seq<Result<T, E>>)
    ensures Collect(rs).Success? <==> forall k | 0 <= k < |rs| :: rs[k].Success?
    ensures Collect(rs).Success? ==> forall k | 0 <= k < |rs| :: Collect(rs).value[k] == rs[k].value
    ensures Collect(rs).Failure? ==> exists k | 0 <= k < |rs| :: rs[k] == Failure(Collect(rs).error)
    decreases |rs|
  {
    if rs != [] {
      var n := |rs| - 1;
      CollectFacts(rs[..n]);
      assert forall k | 0 <= k < n :: rs[..n][k] == rs[k];
    }
  }

  /** new ServerInstance(serviceName, url) as a parser: the URL's endpoint or its error. */
  function UrlParser(serviceName: string): string -> Result<Endpoint, UrlError>
  {
    url => FromUrl(serviceName, url)
  }

  /** Each URL parsed on its own. */
  function ParseEach(parse: string -> Result<Endpoint, UrlError>, urls: seq<string>): (r: seq<Result<Endpoint, UrlError>>)
    ensures |r| == |urls| && forall k | 0 <= k < |urls| :: r[k] == parse(urls[k])
  {
    seq(|urls|, k requires 0 <= k < |urls| => parse(urls[k]))
  }

  /** Every URL's endpoint, in order, or the first URL's error. */
  function ParseAll(parse: string -> Result<Endpoint, UrlError>, urls: seq<string>): Result<seq<Endpoint>, UrlError>
  {
    Collect(ParseEach(parse, urls))
  }

  /** What new ServerInstance(serviceName, url) followed by setAvailable(true) leaves: a fresh available instance. */
  predicate AvailableInstance(s: ServerInstance, ep: Endpoint, now: int)
    reads s
  {
    && s.ep == ep && s.kind == PlainInstance && s.expiry == Never && s.info.None?
    && s.available && !s.lastAvailable && !s.listening && s.notifications == []
    && s.BreakerState() == Initial && s.lastUpdateTime == now
  }

  /** Distinct objects, one per position. */
  predicate Distinct(xs: seq<ServerInstance>)
  {
    forall k, l | 0 <= k < l < |xs| :: xs[k] != xs[l]
  }

  /**
   * The loop both sources run: each entry that is not null is trimmed,
   * parsed into a new instance and marked available, in entry order. A
   * malformed URL ends the loop with its error.
   */
  method BuildAvailable(parse: string -> Result<Endpoint, UrlError>, entries: seq<Option<string>>, now: int)
    returns (r: Result<seq<ServerInstance>, UrlError>)
    ensures r.Success? <==> ParseAll(parse, Present(entries)).Success?
    ensures r.Failure? ==> r.error == ParseAll(parse, Present(entries)).error
    ensures r.Success? ==> |r.value| == |Present(entries)| && Distinct(r.value)
    ensures r.Success? ==> forall k | 0 <= k < |r.value| ::
              fresh(r.value[k]) && AvailableInstance(r.value[k], ParseAll(parse, Present(entries)).value[k], now)
  {
    var list: seq<ServerInstance> := [];
    ghost var eps: seq<Endpoint> := [];
    var i := 0;
    while i < |entries|
      invariant 0 <= i <= |entries|
      invariant ParseAll(parse, Present(entries[..i])) == Success(eps)
      invariant |list| == |eps| && Distinct(list)
      invariant forall k | 0 <= k < |list| :: fresh(list[k]) && AvailableInstance(list[k], eps[k], now)
    {
      EntryStep(parse, entries, i, eps);
      if entries[i].Some? {
        var parsed := parse(Trim(entries[i].value));
        if parsed.Failure? {
          EntryFails(parse, entries, i, eps);
          return Failure(parsed.error);
        }
        var server := NewAvailableInstance(parsed.value, now);
        list := list + [server];
        eps := eps + [parsed.value];
      }
      i := i + 1;
    }
    assert entries[..i] == entries;
    r := Success(list);
  }

  /** new ServerInstance(serviceName, url) for the URL's endpoint, then setAvailable(true). */
  method NewAvailableInstance(ep: Endpoint, now: int) returns (s: ServerInstance)
    ensures fresh(s) && AvailableInstance(s, ep, now)
  {
    s := new ServerInstance(ep, PlainInstance, Never, None, now);
    s.SetAvailable(true, now);
  }

  /** Entry i of the loop: a null entry changes nothing; a well-formed one adds its endpoint. */
  lemma EntryStep(parse: string -> Result<Endpoint, UrlError>, entries: seq<Option<string>>, i: nat, eps: seq<Endpoint>)
    requires i < |entries| && ParseAll(parse, Present(entries[..i])) == Success(eps)
    ensures entries[i].None? ==> ParseAll(parse, Present(entries[..i + 1])) == Success(eps)
    ensures entries[i].Some? && parse(Trim(entries[i].value)).Success? ==>
              ParseAll(parse, Present(entries[..i + 1])) == Success(eps + [parse(Trim(entries[i].value)).value])
  {
    PresentNext(entries, i);
    if entries[i].Some? {
      ParseAllAppend(parse, Present(entries[..i]), Trim(entries[i].value));
    }
  }

  /** A malformed URL at entry i is the error of the whole list. */
  lemma EntryFails(parse: string -> Result<Endpoint, UrlError>, entries: seq<Option<string>>, i: nat, eps: seq<Endpoint>)
    requires i < |entries| && ParseAll(parse, Present(entries[..i])) == Success(eps)
    requires entries[i].Some? && parse(Trim(entries[i].value)).Failure?
    ensures ParseAll(parse, Present(entries)) == Failure(parse(Trim(entries[i].value)).error)
  {
    PresentNext(entries, i);
    ParseAllAppend(parse, Present(entries[..i]), Trim(entries[i].value));
    FailureSpreads(parse, entries, i + 1);
  }

  /** One entry more: its trimmed text added at the end when it is not null. */
  lemma PresentNext(entries: seq<Option<string>>, i: nat)
    requires i < |entries|
    ensures Present(entries[..i + 1]) ==
              if entries[i].Some? then Present(entries[..i]) + [Trim(entries[i].value)] else Present(entries[..i])
  {
    assert entries[..i + 1] == entries[..i] + [entries[i]];
    PresentAppend(entries[..i], entries[i]);
  }

  /** A malformed URL among the first j entries is the error of all of them. */
  lemma FailureSpreads(parse: string -> Result<Endpoint, UrlError>, entries: seq<Option<string>>, j: nat)
    requires j <= |entries| && ParseAll(parse, Present(entries[..j])).Failure?
    ensures ParseAll(parse, Present(entries)) == ParseAll(parse, Present(entries[..j]))
  {
    var prefix := Present(entries[..j]);
    var all := Present(entries);
    PresentPrefix(entries, j);
    ParseEachPrefix(parse, prefix, all);
    PrefixFailure(ParseEach(parse, prefix), ParseEach(parse, all));
  }

  /** Parsing one more URL: its error, or its endpoint appended. */
  lemma ParseAllAppend(parse: string -> Result<Endpoint, UrlError>, urls: seq<string>, url: string)
    requires ParseAll(parse, urls).Success?
    ensures ParseAll(parse, urls + [url]) ==
              match parse(url)
              case Failure(e) => Failure(e)
              case Success(ep) => Success(ParseAll(parse, urls).value + [ep])
  {
    var rs := ParseEach(parse, urls + [url]);
    assert rs[..|urls|] == ParseEach(parse, urls);
  }

  /** A failure among the first results is the failure of a longer sequence that starts with them. */
  lemma {:induction false} PrefixFailure<T, E>(prefix: seq<Result<T, E>>, rs: seq<Result<T, E>>)
    requires |prefix| <= |rs| && rs[..|prefix|] == prefix
    requires Collect(prefix).Failure?
    ensures Collect(rs) == Collect(prefix)
    decreases |rs|
  {
    if |rs| > |prefix| {
      assert rs[..|rs| - 1][..|prefix|] == prefix;
      PrefixFailure(prefix, rs[..|rs| - 1]);
    } else {
      assert rs == prefix;
    }
  }

  /** One result more: its value appended, or, when it failed, the failure of the whole sequence. */
  lemma CollectStep<T, E>(rs: seq<Result<T, E>>, i: nat, vs: seq<T>)
    requires i < |rs| && Collect(rs[..i]) == Success(vs)
    ensures rs[i].Success? ==> Collect(rs[..i + 1]) == Success(vs + [rs[i].value])
    ensures rs[i].Failure? ==> Collect(rs) == Failure(rs[i].error)
  {
    var next := rs[..i + 1];
    assert next[..i] == rs[..i] && next[i] == rs[i];
    if rs[i].Failure? {
      PrefixFailure(next, rs);
    }
  }

  lemma ParseEachPrefix(parse: string -> Result<Endpoint, UrlError>, prefix: seq<string>, urls: seq<string>)
    requires |prefix| <= |urls| && urls[..|prefix|] == prefix
    ensures ParseEach(parse, urls)[..|prefix|] == ParseEach(parse, prefix)
  {
  }

  /** The entries' first j give a prefix of what all of them give. */
  lemma {:induction false} PresentPrefix(entries: seq<Option<string>>, j: nat)
    requires j <= |entries|
    ensures |Present(entries[..j])| <= |Present(entries)|
    ensures Present(entries)[..|Present(entries[..j])|] == Present(entries[..j])
    decreases |entries| - j
  {
    if j == |entries| {
      assert entries[..j] == entries;
    } else {
      PresentPrefix(entries, j + 1);
      PresentAppend(entries[..j], entries[j]);
      assert entries[..j + 1] == entries[..j] + [entries[j]];
    }
  }

  /** ConstServerList: the instances built from the URLs it was given, fixed for its lifetime. */
  class ConstServerList {
    const serviceName: string
    const list: seq<ServerInstance>

    constructor (serviceName: string, list: seq<ServerInstance>)
      ensures this.serviceName == serviceName && this.list == list
    {
      this.serviceName := serviceName;
      this.list := list;
    }

    /** getListOfServers: the list is a constant, so every call returns the same instances. */
    function GetListOfServers(): (r: seq<ServerInstance>)
      ensures r == list
    {
      list
    }
  }

  /**
   * The ConstServerList constructor: the service name must not be empty;
   * null URLs are skipped and every other one becomes an available instance,
   * in order. A malformed URL makes the constructor throw.
   */
  method NewConstServerList(serviceName: string, servers: seq<Option<string>>, now: int)
    returns (r: Result<ConstServerList, UrlError>)
    requires serviceName != []
    ensures r.Success? <==> ParseAll(UrlParser(serviceName), Present(servers)).Success?
    ensures r.Success? ==> fresh(r.value) && r.value.serviceName == serviceName
    ensures r.Success? ==> |r.value.list| == |Present(servers)| && Distinct(r.value.list)
    ensures r.Success? ==> forall k | 0 <= k < |r.value.list| ::
              fresh(r.value.list[k])
              && AvailableInstance(r.value.list[k], ParseAll(UrlParser(serviceName), Present(servers)).value[k], now)
  {
    var built := BuildAvailable(UrlParser(serviceName), servers, now);
    if built.Failure? {
      return Failure(built.error);
    }
    var l := new ConstServerList(serviceName, built.value);
    r := Success(l);
  }

  /** The pieces of a configuration value: nothing for an absent or empty value, else its ','-separated pieces. */
  function Pieces(value: Option<string>): (r: seq<Option<string>>)
    ensures value.None? || value.value == [] ==> r == []
    ensures value.Some? && value.value != [] ==>
              |r| == |Split(value.value, ',')| && forall k | 0 <= k < |r| :: r[k] == Some(Split(value.value, ',')[k])
  {
    if value.None? || value.value == [] then []
    else
      var parts := Split(value.value, ',');
      seq(|parts|, k requires 0 <= k < |parts| => Some(parts[k]))
  }

  /** Without a null among them the entries give every piece, trimmed. */
  lemma {:induction false} PresentOfPieces(pieces: seq<string>, entries: seq<Option<string>>)
    requires |entries| == |pieces| && forall k | 0 <= k < |pieces| :: entries[k] == Some(pieces[k])
    ensures |Present(entries)| == |pieces|
    ensures forall k | 0 <= k < |pieces| :: Present(entries)[k] == Trim(pieces[k])
    decreases |pieces|
  {
    if pieces != [] {
      var n := |pieces| - 1;
      PresentOfPieces(pieces[..n], entries[..n]);
      PresentAppend(entries[..n], entries[n]);
      assert entries[..n] + [entries[n]] == entries;
    }
  }

  /** ConfigServerList: the instances built from the configuration value, replaced whenever it changes. */
  class ConfigServerList {
    const serviceName: string
    var servers: seq<ServerInstance>

    /** The list starts empty; the service name must not be blank. */
    constructor (serviceName: string)
      requires serviceName != []
      ensures this.serviceName == serviceName && servers == []
    {
      this.serviceName := serviceName;
      servers := [];
    }

    function GetListOfServers(): (r: seq<ServerInstance>)
      reads this
      ensures r == servers
    {
      servers
    }

    /**
     * convertPropertyToList: an absent or empty value empties the list;
     * otherwise every ','-separated piece, trimmed, becomes an available
     * instance and the new list replaces the old one. A malformed URL throws
     * before the swap, leaving the old list.
     */
    method ConvertPropertyToList(value: Option<string>, now: int) returns (r: Result<(), UrlError>)
      modifies this
      ensures value.None? || value.value == [] ==> r.Success? && servers == []
      ensures r.Success? <==> ParseAll(UrlParser(serviceName), Present(Pieces(value))).Success?
      ensures r.Failure? ==> servers == old(servers)
      ensures r.Success? ==> |servers| == |Present(Pieces(value))| && Distinct(servers)
      ensures r.Success? ==> forall k | 0 <= k < |servers| ::
                fresh(servers[k])
                && AvailableInstance(servers[k], ParseAll(UrlParser(serviceName), Present(Pieces(value))).value[k], now)
    {
      if value.None? || value.value == [] {
        servers := [];
        return Success(());
      }
      var built := BuildAvailable(UrlParser(serviceName), Pieces(value), now);
      if built.Failure? {
        return Failure(built.error);
      }
      servers := built.value;
      r := Success(());
    }
  }

  /** The ConfigServerList constructor, which converts the current value at once; a malformed URL makes it throw. */
  method NewConfigServerList(serviceName: string, value: Option<string>, now: int)
    returns (r: Result<ConfigServerList, UrlError>)
    requires serviceName != []
    ensures r.Success? <==> ParseAll(UrlParser(serviceName), Present(Pieces(value))).Success?
    ensures r.Success? ==> fresh(r.value) && r.value.serviceName == serviceName
    ensures r.Success? ==> |r.value.servers| == |Present(Pieces(value))|
    ensures r.Success? ==> forall k | 0 <= k < |r.value.servers| ::
              AvailableInstance(r.value.servers[k], ParseAll(UrlParser(serviceName), Present(Pieces(value))).value[k], now)
  {
    var l := new ConfigServerList(serviceName);
    var ok := l.ConvertPropertyToList(value, now);
    if ok.Failure? {
      return Failure(ok.error);
    }
    r := Success(l);
  }

  /** The ',' separated pieces of two URLs without commas, trimmed, are the two URLs. */
  lemma TwoUrlPieces(u1: string, u2: string)
    requires ',' !in u1 && ',' !in u2 && u2 != []
    requires u1 != [] && !IsSpace(u1[0]) && !IsSpace(u1[|u1| - 1]) && !IsSpace(u2[0]) && !IsSpace(u2[|u2| - 1])
    ensures Present(Pieces(Some(u1 + "," + u2))) == [u1, u2]
  {
    var v := u1 + "," + u2;
    assert Join([u1, u2], ',') == v by {
      assert [u1, u2][1..] == [u2];
    }
    SplitOfJoin([u1, u2], ',');
    PresentOfPieces(Split(v, ','), Pieces(Some(v)));
  }

  /** A URL rendered with a scheme, a host without commas or spaces and a port is one comma-free piece with no space at its ends. */
  lemma RenderedUrlPiece(sch: Scheme, host: string, port: nat)
    requires sch != NoScheme && ',' !in host
    ensures var u := RenderUrl(sch, host, Some(port), "");
            && u != [] && ',' !in u && !IsSpace(u[0]) && !IsSpace(u[|u| - 1])
  {
    var d := NatToString(port);
    var u := RenderUrl(sch, host, Some(port), "");
    assert IntToString(port) == d;
    assert u == PrefixText(sch) + host + ":" + d;
    assert forall i | 0 <= i < |d| :: IsDigit(d[i]);
    assert u[|u| - 1] == d[|d| - 1];
    assert u[0] == PrefixText(sch)[0];
  }

  /** Two well-formed URLs parse to both endpoints, in order. */
  lemma ParseTwo(parse: string -> Result<Endpoint, UrlError>, u1: string, u2: string)
    requires parse(u1).Success? && parse(u2).Success?
    ensures ParseAll(parse, [u1, u2]) == Success([parse(u1).value, parse(u2).value])
  {
    var rs := ParseEach(parse, [u1, u2]);
    var first := rs[..1];
    assert |first| == 1 && first[..0] == [] && first[0] == parse(u1);
    assert Collect(first[..0]) == Success([]);
    assert [] + [parse(u1).value] == [parse(u1).value];
    assert Collect(first) == Success([parse(u1).value]);
    assert rs[..|rs| - 1] == first && rs[1] == parse(u2);
    assert [parse(u1).value] + [parse(u2).value] == [parse(u1).value, parse(u2).value];
  }

  /** Two comma-free well-formed URLs joined by ',' give both endpoints, in order. */
  lemma ParseTwoPieces(parse: string -> Result<Endpoint, UrlError>, u1: string, u2: string)
    requires ',' !in u1 && ',' !in u2 && u2 != []
    requires u1 != [] && !IsSpace(u1[0]) && !IsSpace(u1[|u1| - 1]) && !IsSpace(u2[0]) && !IsSpace(u2[|u2| - 1])
    requires parse(u1).Success? && parse(u2).Success?
    ensures ParseAll(parse, Present(Pieces(Some(u1 + "," + u2)))) == Success([parse(u1).value, parse(u2).value])
  {
    TwoUrlPieces(u1, u2);
    ParseTwo(parse, u1, u2);
  }

  /**
   * "http://localhost:8080,http://localhost:8180" gives two instances, with
   * ids localhost:8080 and localhost:8180 and http ports 8080 and 8180.
   */
  lemma TwoLocalhostUrls(sn: string, u1: string, u2: string)
    requires u1 == RenderUrl(Http, "localhost", Some(8080), "") && u2 == RenderUrl(Http, "localhost", Some(8180), "")
    ensures ParseAll(UrlParser(sn), Present(Pieces(Some(u1 + "," + u2)))).Success?
    ensures var eps := ParseAll(UrlParser(sn), Present(Pieces(Some(u1 + "," + u2)))).value;
            && |eps| == 2
            && eps[0].id == "localhost" + ":" + IntToString(8080) && eps[0].port == 8080 && eps[0].websocketPort == -1
            && eps[1].id == "localhost" + ":" + IntToString(8180) && eps[1].port == 8180 && eps[1].websocketPort == -1
  {
    RenderedUrlPiece(Http, "localhost", 8080);
    RenderedUrlPiece(Http, "localhost", 8180);
    FromUrlIdentity(sn, Http, "localhost", 8080, "");
    FromUrlIdentity(sn, Http, "localhost", 8180, "");
    ParseTwoPieces(UrlParser(sn), u1, u2);
  }
}
