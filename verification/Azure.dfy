/** Azure URLs: parse_azure_url and the printer it inverts. */
module Azure {
  import opened Bytes

  datatype Scheme = Az | Abfs

  datatype Error = Malformed | NoContainerPart | NoHost | NoContainer

  /** The arguments of azureBlobStorage(). */
  datatype Parts = Parts(accountUrl: string, container: string, path: string)

  datatype Result = Ok(parts: Parts) | Err(error: Error)

  // ---- Cutting at a character ---------------------------------------------

  /** strchr and the two copies around it: what is before the first `c`, and after it if it is there. */
  function Cut(s: string, c: char): (r: (string, Option<string>))
    ensures c !in r.0
    ensures s == Joined(r.0, c, r.1)
  {
    FindOne(s, c);
    match Find(s, [c])
    case None => (s, None)
    case Some(i) => (s[..i], Some(s[i + 1..]))
  }

  function Joined(a: string, c: char, b: Option<string>): string
  {
    match b
    case None => a
    case Some(tail) => a + ([c] + tail)
  }

  lemma CutJoined(a: string, c: char, b: Option<string>)
    requires c !in a
    ensures Cut(Joined(a, c, b), c) == (a, b)
  {
    var s := Joined(a, c, b);
    FindOne(s, c);
    if b.Some? {
      assert s[|a|] == c && s[..|a|] == a && s[|a| + 1..] == b.value;
    }
  }

  function OrEmpty(s: Option<string>): string
  {
    if s.Some? then s.value else ""
  }

  // ---- The parser -------------------------------------------------------

  const BLOB_HOST := ".blob.core.windows.net"

  function AccountUrl(host: string, query: Option<string>): string
  {
    Joined("https://" + host, '?', query)
  }

  function ParseAbfs(uri: string, query: Option<string>): Result
  {
    var (container, rest) := Cut(uri, '@');
    if rest.None? then Err(NoContainerPart)
    else
      var (host, path) := Cut(rest.value, '/');
      var account := if '.' in host then host else host + BLOB_HOST;
      Ok(Parts(AccountUrl(account, query), container, OrEmpty(path)))
  }

  function ParseAz(uri: string, query: Option<string>): Result
  {
    var (host, rest) := Cut(uri, '/');
    if '.' !in host then Err(NoHost)
    else
      var (container, path) := Cut(OrEmpty(rest), '/');
      if container == "" then Err(NoContainer)
      else Ok(Parts(AccountUrl(host, query), container, OrEmpty(path)))
  }

  /** parse_azure_url. */
  function Parse(scheme: Scheme, url: string): Result
  {
    match Find(url, "://")
    case None => Err(Malformed)
    case Some(i) =>
      assert At(url, i, "://");
      assert |url[i..]| >= 3;
      var (uri, query) := Cut(url[i + 3..], '?');
      if scheme == Abfs then ParseAbfs(uri, query) else ParseAz(uri, query)
  }

  // ---- The printers -----------------------------------------------------

  /** az://host/container[/path][?query]; abfs://container@account[/path][?query] */
  datatype Url =
    | AzUrl(scheme: string, host: string, container: string, path: Option<string>, query: Option<string>)
    | AbfsUrl(scheme: string, container: string, account: string, path: Option<string>, query: Option<string>)

  /** A part that may be missing, after its mark. */
  function Suffix(mark: char, part: Option<string>): string
  {
    if part.Some? then [mark] + part.value else ""
  }

  function Location(u: Url): string
  {
    match u
    case AzUrl(_, host, container, path, _) => host + "/" + container + Suffix('/', path)
    case AbfsUrl(_, container, account, path, _) => container + "@" + account + Suffix('/', path)
  }

  function Print(u: Url): string
  {
    u.scheme + "://" + Location(u) + Suffix('?', u.query)
  }

  /** The scheme's text ends at the first "://". */
  predicate SchemeText(s: string)
  {
    forall k: nat | k < |s| :: !At(s + "://", k, "://")
  }

  /** Pieces free of the separators that follow them. */
  predicate Wf(u: Url)
  {
    && SchemeText(u.scheme) && '?' !in Location(u)
    && match u
       case AzUrl(_, host, container, _, _) =>
         '/' !in host && '.' in host && '/' !in container && container != ""
       case AbfsUrl(_, container, account, _, _) =>
         '@' !in container && '/' !in account
  }

  /** What a URL means: the query stays on the account URL, a dotless account is expanded. */
  function Meaning(u: Url): Parts
  {
    var path := if u.path.Some? then u.path.value else "";
    match u
    case AzUrl(_, host, container, _, query) =>
      Parts("https://" + host + Suffix('?', query), container, path)
    case AbfsUrl(_, container, account, _, query) =>
      var host := if '.' in account then account else account + ".blob.core.windows.net";
      Parts("https://" + host + Suffix('?', query), container, path)
  }

  function SchemeOf(u: Url): Scheme
  {
    if u.AzUrl? then Az else Abfs
  }

  lemma SchemeIsFound(scheme: string, tail: string)
    requires SchemeText(scheme)
    ensures Find(scheme + ("://" + tail), "://") == Some(|scheme|)
    ensures (scheme + ("://" + tail))[|scheme| + 3..] == tail
  {
    var s := scheme + ("://" + tail);
    assert s == (scheme + "://") + tail;
    forall k: nat | k < |scheme| ensures !At(s, k, "://") {
      AtPrefix(scheme + "://", tail, k, "://");
    }
    assert s[|scheme|..] == "://" + tail;
    FindIs(s, "://", |scheme|);
  }

  /** The parser inverts the printer. */
  lemma ParsePrinted(u: Url)
    requires Wf(u)
    ensures Parse(SchemeOf(u), Print(u)) == Ok(Meaning(u))
  {
    hide Find, Cut, Joined, AccountUrl, Location, Print, Meaning;
    LocationIsJoined(u);
    PrintIsJoined(u);
    MeaningIsJoined(u);
    var location := Location(u);
    SchemeIsFound(u.scheme, Joined(location, '?', u.query));
    CutJoined(location, '?', u.query);
    match u
    case AzUrl(_, host, container, path, _) =>
      CutJoined(host, '/', Some(Joined(container, '/', path)));
      CutJoined(container, '/', path);
    case AbfsUrl(_, container, account, path, _) =>
      CutJoined(container, '@', Some(Joined(account, '/', path)));
      CutJoined(account, '/', path);
  }

  lemma SplitAround(url: string, i: nat)
    requires At(url, i, "://")
    ensures i + 3 <= |url| && url == (url[..i] + "://") + url[i + 3..]
    ensures url == url[..i] + ("://" + url[i + 3..])
  {
    assert url[i..][..3] == "://";
    assert url == url[..i] + url[i..];
    assert url[i..] == "://" + url[i + 3..];
  }

  /** What precedes the first "://" does not hold one, even with the mark behind it. */
  lemma NoMarkBefore(front: string, rest: string)
    requires forall k: nat | k < |front| :: !At((front + "://") + rest, k, "://")
    ensures SchemeText(front)
  {
    hide At;
    forall k: nat | k < |front| ensures !At(front + "://", k, "://") {
      AtPrefix(front + "://", rest, k, "://");
    }
  }

  lemma SchemeBefore(url: string, i: nat)
    requires Find(url, "://") == Some(i)
    ensures i + 3 <= |url| && url == url[..i] + ("://" + url[i + 3..]) && SchemeText(url[..i])
  {
    hide Find, At, SchemeText;
    SplitAround(url, i);
    NoMarkBefore(url[..i], url[i + 3..]);
  }

  lemma JoinedIsSuffixed(a: string, c: char, b: Option<string>)
    ensures Joined(a, c, b) == a + Suffix(c, b)
  {
  }

  /** The printed forms, as the parser takes them apart. */
  lemma LocationIsJoined(u: Url)
    ensures u.AzUrl? ==> Location(u) == Joined(u.host, '/', Some(Joined(u.container, '/', u.path)))
    ensures u.AbfsUrl? ==> Location(u) == Joined(u.container, '@', Some(Joined(u.account, '/', u.path)))
  {
    hide Joined;
    match u
    case AzUrl(_, host, container, path, _) =>
      JoinedIsSuffixed(container, '/', path);
      JoinedIsSuffixed(host, '/', Some(Joined(container, '/', path)));
      assert host + (['/'] + (container + Suffix('/', path))) == host + "/" + container + Suffix('/', path);
    case AbfsUrl(_, container, account, path, _) =>
      JoinedIsSuffixed(account, '/', path);
      JoinedIsSuffixed(container, '@', Some(Joined(account, '/', path)));
      assert container + (['@'] + (account + Suffix('/', path))) == container + "@" + account + Suffix('/', path);
  }

  lemma PrintIsJoined(u: Url)
    ensures Print(u) == u.scheme + ("://" + Joined(Location(u), '?', u.query))
  {
    hide Location, Joined;
    JoinedIsSuffixed(Location(u), '?', u.query);
    assert u.scheme + "://" + Location(u) + Suffix('?', u.query)
        == u.scheme + ("://" + (Location(u) + Suffix('?', u.query)));
  }

  lemma MeaningIsJoined(u: Url)
    ensures Meaning(u) ==
            match u
            case AzUrl(_, host, container, path, query) => Parts(AccountUrl(host, query), container, OrEmpty(path))
            case AbfsUrl(_, container, account, path, query) =>
              Parts(AccountUrl(if '.' in account then account else account + BLOB_HOST, query), container, OrEmpty(path))
  {
  }

  /** And whatever it accepts was printed from pieces that mean what it returns. */
  lemma AcceptedIsPrinted(scheme: Scheme, url: string) returns (u: Url)
    requires Parse(scheme, url).Ok?
    ensures Wf(u) && SchemeOf(u) == scheme && Print(u) == url && Meaning(u) == Parse(scheme, url).parts
  {
    hide Find, AccountUrl, Cut, SchemeText, Location, Print, Meaning;
    var i := Find(url, "://").value;
    SchemeBefore(url, i);
    var (uri, query) := Cut(url[i + 3..], '?');
    match scheme {
      case Az =>
        var (host, rest) := Cut(uri, '/');
        var (container, path) := Cut(OrEmpty(rest), '/');
        assert rest.Some?;
        u := AzUrl(url[..i], host, container, path, query);
      case Abfs =>
        var (container, rest) := Cut(uri, '@');
        var (account, path) := Cut(rest.value, '/');
        u := AbfsUrl(url[..i], container, account, path, query);
    }
    LocationIsJoined(u);
    PrintIsJoined(u);
    MeaningIsJoined(u);
  }

  /** A URL is accepted exactly when some well-formed pieces print to it. */
  lemma AcceptedIff(scheme: Scheme, url: string)
    ensures Parse(scheme, url).Ok? <==> exists u :: Wf(u) && SchemeOf(u) == scheme && Print(u) == url
  {
    if Parse(scheme, url).Ok? {
      var u := AcceptedIsPrinted(scheme, url);
    }
    if u :| Wf(u) && SchemeOf(u) == scheme && Print(u) == url {
      ParsePrinted(u);
    }
  }

  /** An empty query is not the same as none. */
  /** Why a URL with a scheme is rejected. */
  lemma RejectedAs(scheme: string, host: string, rest: Option<string>, query: Option<string>)
    requires SchemeText(scheme) && '/' !in host && '?' !in host + Suffix('/', rest)
    ensures var url := scheme + "://" + (host + Suffix('/', rest)) + Suffix('?', query);
            && (Parse(Abfs, url) == Err(NoContainerPart) <==> '@' !in host + Suffix('/', rest))
            && (Parse(Abfs, url).Err? ==> Parse(Abfs, url) == Err(NoContainerPart))
            && (Parse(Az, url) == Err(NoHost) <==> '.' !in host)
            && (Parse(Az, url) == Err(NoContainer) <==>
                  '.' in host && (rest.None? || rest.value == "" || rest.value[0] == '/'))
  {
    hide Find, Cut, AccountUrl;
    var location := host + Suffix('/', rest);
    JoinedIsSuffixed(host, '/', rest);
    JoinedIsSuffixed(location, '?', query);
    assert scheme + "://" + location + Suffix('?', query) == scheme + ("://" + Joined(location, '?', query));
    SchemeIsFound(scheme, Joined(location, '?', query));
    CutJoined(location, '?', query);
    CutJoined(host, '/', rest);
    var (front, back) := Cut(location, '@');
    var (container, path) := Cut(OrEmpty(rest), '/');
    assert OrEmpty(rest) == Joined(container, '/', path);
  }

  lemma NoScheme(scheme: Scheme, url: string)
    ensures Parse(scheme, url) == Err(Malformed) <==> forall k: nat | k < |url| :: !At(url, k, "://")
  {
  }

  lemma EmptyQueryIsKept(u: Url)
    requires Wf(u) && u.query == Some("")
    ensures Parse(SchemeOf(u), Print(u)) != Parse(SchemeOf(u), Print(u.(query := None)))
  {
    hide Parse, Print, Location, SchemeText;
    var bare := u.(query := None);
    LocationWithoutQuery(u);
    ParsePrinted(u);
    ParsePrinted(bare);
    assert |Meaning(u).accountUrl| == |Meaning(bare).accountUrl| + 1;
  }

  lemma LocationWithoutQuery(u: Url)
    ensures Location(u.(query := None)) == Location(u)
  {
  }
}
