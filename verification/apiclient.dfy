/**
 * The raw Immich API client: every request is rewritten to the configured
 * server under the "/api" path with the API key header attached, and any
 * answer other than 200 OK is turned into an error.
 *
 * Parsing the endpoint URL, the HTTP transport and draining a rejected
 * body are outside the model; the transport is a parameter.
 */
module ApiClient {
  import opened Wrappers
  import opened Text

  // ---------------------------------------------------------------- status codes

  const StatusOK := 200
  const StatusUnauthorized := 401

  datatype StatusError = InvalidToken | UnexpectedStatus(code: int)

  /** checkStatusCode: 401 means a bad token, anything else but 200 is unexpected. */
  function CheckStatusCode(code: int): (r: Option<StatusError>)
    ensures r.None? <==> code == StatusOK
  {
    if code == StatusUnauthorized then Some(InvalidToken)
    else if code != StatusOK then Some(UnexpectedStatus(code))
    else None
  }

  const InvalidTokenMessage := "invalid immich token"
  const UnexpectedPrefix := "unexpected status code "

  /** The error text a caller sees. */
  function Message(e: StatusError): (m: string)
    ensures m == InvalidTokenMessage <==> e == InvalidToken
    ensures e.UnexpectedStatus? ==>
              |m| > |UnexpectedPrefix| && m[..|UnexpectedPrefix|] == UnexpectedPrefix && m[|UnexpectedPrefix|..] == Itoa(e.code)
  {
    match e
    case InvalidToken => InvalidTokenMessage
    case UnexpectedStatus(code) => UnexpectedPrefix + Itoa(code)
  }

  /** Only 401 reads as a token problem; every other rejected code, 2xx included, is reported by number. */
  lemma StatusClassification(code: int)
    ensures code == StatusUnauthorized ==> CheckStatusCode(code) == Some(InvalidToken)
    ensures code != StatusUnauthorized && code != StatusOK ==>
      CheckStatusCode(code) == Some(UnexpectedStatus(code))
  {
  }

  /** The reported number of an unexpected status reads back as the status code. */
  lemma MessageNamesCode(code: int)
    requires InInt64(code) && code != StatusOK && code != StatusUnauthorized
    ensures var m := Message(CheckStatusCode(code).value);
      && |m| > |UnexpectedPrefix|
      && m[..|UnexpectedPrefix|] == UnexpectedPrefix
      && Atoi(m[|UnexpectedPrefix|..]) == Some(code)
  {
    var m := Message(CheckStatusCode(code).value);
    assert m[|UnexpectedPrefix|..] == Itoa(code);
    AtoiItoa(code);
  }

  /** Different rejected codes never produce the same error text. */
  lemma MessagesDistinguishCodes(c1: int, c2: int)
    requires InInt64(c1) && InInt64(c2)
    requires CheckStatusCode(c1).Some? && CheckStatusCode(c2).Some?
    requires Message(CheckStatusCode(c1).value) == Message(CheckStatusCode(c2).value)
    ensures c1 == c2
  {
    if c1 != StatusUnauthorized && c2 != StatusUnauthorized {
      MessageNamesCode(c1);
      MessageNamesCode(c2);
    }
  }

  // ---------------------------------------------------------------- paths

  /** The pieces of `s` between slashes (a single piece when there is none). */
  function Split(s: string): (r: seq<string>)
    ensures |r| > 0
    decreases |s|
  {
    if |s| == 0 then [""]
    else
      var r := Split(s[1..]);
      if s[0] == '/' then [""] + r else [[s[0]] + r[0]] + r[1..]
  }

  predicate NoSlashes(xs: seq<string>) {
    forall i :: 0 <= i < |xs| ==> '/' !in xs[i]
  }

  /** A path element that survives cleaning. */
  predicate IsName(seg: string) {
    seg != "" && seg != "." && seg != ".."
  }

  predicate AllNames(names: seq<string>) {
    forall i :: 0 <= i < |names| ==> IsName(names[i])
  }

  /**
   * Walks the pieces of a rooted path: empty pieces and "." are dropped,
   * ".." removes the last kept name (and is dropped at the root).
   */
  function Resolve(stack: seq<string>, segs: seq<string>): (r: seq<string>)
    requires AllNames(stack)
    ensures AllNames(r)
    decreases |segs|
  {
    if |segs| == 0 then stack
    else if segs[0] == "" || segs[0] == "." then Resolve(stack, segs[1..])
    else if segs[0] == ".." then Resolve(if |stack| > 0 then stack[..|stack| - 1] else stack, segs[1..])
    else Resolve(stack + [segs[0]], segs[1..])
  }

  function JoinSlash(names: seq<string>): string
    decreases |names|
  {
    if |names| == 0 then ""
    else if |names| == 1 then names[0]
    else names[0] + "/" + JoinSlash(names[1..])
  }

  /** A rooted path made of the given names; "/" when there are none. */
  function Render(names: seq<string>): (p: string)
    ensures |p| > 0 && p[0] == '/'
  {
    "/" + JoinSlash(names)
  }

  /** path.Clean on a rooted path. */
  function CleanRooted(p: string): (r: string)
    ensures |r| > 0 && r[0] == '/'
  {
    Render(Resolve([], Split(p)))
  }

  const ApiPath := "/api"

  /**
   * path.Join("/api", p): the first element is not empty, so Join cleans
   * the two elements joined by a slash, even when `p` is empty.
   */
  function JoinApi(p: string): (r: string)
    ensures |r| > 0 && r[0] == '/'
  {
    CleanRooted(ApiPath + "/" + p)
  }

  /** No piece contains a slash. */
  lemma {:induction false} SplitHasNoSlashes(s: string)
    ensures NoSlashes(Split(s))
    decreases |s|
  {
    if |s| > 0 {
      SplitHasNoSlashes(s[1..]);
      var r := Split(s[1..]);
      if s[0] != '/' {
        assert '/' !in [s[0]] + r[0];
        assert Split(s) == [[s[0]] + r[0]] + r[1..];
        forall i | 0 <= i < |Split(s)| ensures '/' !in Split(s)[i] {
          if i > 0 { assert Split(s)[i] == r[i]; }
        }
      } else {
        forall i | 0 <= i < |Split(s)| ensures '/' !in Split(s)[i] {
          if i > 0 { assert Split(s)[i] == r[i - 1]; }
        }
      }
    }
  }

  /** Resolving keeps only pieces it was given. */
  lemma {:induction false} ResolveHasNoSlashes(stack: seq<string>, segs: seq<string>)
    requires AllNames(stack) && NoSlashes(stack) && NoSlashes(segs)
    ensures NoSlashes(Resolve(stack, segs))
    decreases |segs|
  {
    if |segs| > 0 {
      var next := if segs[0] == "" || segs[0] == "." then stack
        else if segs[0] == ".." then (if |stack| > 0 then stack[..|stack| - 1] else stack)
        else stack + [segs[0]];
      assert NoSlashes(next) by {
        if segs[0] != "" && segs[0] != "." && segs[0] != ".." {
          assert '/' !in segs[0];
        }
      }
      assert Resolve(stack, segs) == Resolve(next, segs[1..]);
      ResolveHasNoSlashes(next, segs[1..]);
    }
  }

  /** A piece without slashes, a slash, then the rest: the piece comes first. */
  lemma {:induction false} SplitCons(piece: string, rest: string)
    requires '/' !in piece
    ensures Split(piece + "/" + rest) == [piece] + Split(rest)
    decreases |piece|
  {
    var s := piece + "/" + rest;
    if |piece| == 0 {
      assert s[0] == '/' && s[1..] == rest;
    } else {
      var tail := piece[1..] + "/" + rest;
      assert s[0] == piece[0] && s[1..] == tail;
      assert '/' !in piece[1..];
      SplitCons(piece[1..], rest);
      assert [piece[0]] + piece[1..] == piece;
    }
  }

  /** A text without slashes is a single piece. */
  lemma {:induction false} SplitNoSlash(s: string)
    requires '/' !in s
    ensures Split(s) == [s]
    decreases |s|
  {
    if |s| > 0 {
      assert '/' !in s[1..];
      SplitNoSlash(s[1..]);
      assert [s[0]] + s[1..] == s;
    }
  }

  /** Splitting joined names gives the names back. */
  lemma {:induction false} SplitJoinSlash(names: seq<string>)
    requires |names| > 0 && NoSlashes(names)
    ensures Split(JoinSlash(names)) == names
    decreases |names|
  {
    if |names| == 1 {
      SplitNoSlash(names[0]);
    } else {
      assert '/' !in names[0];
      SplitCons(names[0], JoinSlash(names[1..]));
      SplitJoinSlash(names[1..]);
      assert names == [names[0]] + names[1..];
    }
  }

  /** The pieces of a rendered path: the root piece, then the names (or one empty piece). */
  lemma SplitRender(names: seq<string>)
    requires NoSlashes(names)
    ensures |names| == 0 ==> Split(Render(names)) == ["", ""]
    ensures |names| > 0 ==> Split(Render(names)) == [""] + names
  {
    SplitCons("", JoinSlash(names));
    assert Render(names) == "" + "/" + JoinSlash(names);
    if |names| == 0 {
      SplitNoSlash("");
    } else {
      SplitJoinSlash(names);
    }
  }

  /** An empty piece is skipped. */
  lemma ResolveSkipEmpty(stack: seq<string>, rest: seq<string>)
    requires AllNames(stack)
    ensures Resolve(stack, [""] + rest) == Resolve(stack, rest)
  {
    assert ([""] + rest)[1..] == rest;
  }

  /** A name is pushed. */
  lemma ResolvePush(stack: seq<string>, name: string, rest: seq<string>)
    requires AllNames(stack) && IsName(name)
    ensures Resolve(stack, [name] + rest) == Resolve(stack + [name], rest)
  {
    assert ([name] + rest)[1..] == rest;
  }

  /** Resolving names only pushes them. */
  lemma {:induction false} ResolveNames(stack: seq<string>, names: seq<string>)
    requires AllNames(stack) && AllNames(names)
    ensures Resolve(stack, names) == stack + names
    decreases |names|
  {
    if |names| > 0 {
      ResolvePush(stack, names[0], names[1..]);
      assert names == [names[0]] + names[1..];
      ResolveNames(stack + [names[0]], names[1..]);
      assert stack + [names[0]] + names[1..] == stack + names;
    } else {
      assert stack + names == stack;
    }
  }

  /** A rendered path is already clean. */
  lemma CleanRender(names: seq<string>)
    requires AllNames(names) && NoSlashes(names)
    ensures CleanRooted(Render(names)) == Render(names)
  {
    SplitRender(names);
    if |names| == 0 {
      ResolveSkipEmpty([], [""]);
      ResolveSkipEmpty([], []);
      assert [""] + [] == [""];
      assert ["", ""] == [""] + [""];
    } else {
      ResolveSkipEmpty([], names);
      ResolveNames([], names);
      assert [] + names == names;
    }
  }

  /** Cleaning is idempotent: a cleaned path stays as it is. */
  lemma CleanIdempotent(p: string)
    ensures CleanRooted(CleanRooted(p)) == CleanRooted(p)
  {
    SplitHasNoSlashes(p);
    ResolveHasNoSlashes([], Split(p));
    CleanRender(Resolve([], Split(p)));
  }

  /** The names a path keeps when it has no "..": every piece but the empty ones and ".". */
  function Kept(segs: seq<string>): (r: seq<string>)
    requires forall i :: 0 <= i < |segs| ==> segs[i] != ".."
    ensures AllNames(r)
    decreases |segs|
  {
    if |segs| == 0 then []
    else if segs[0] == "" || segs[0] == "." then Kept(segs[1..])
    else [segs[0]] + Kept(segs[1..])
  }

  lemma {:induction false} ResolveKept(stack: seq<string>, segs: seq<string>)
    requires AllNames(stack)
    requires forall i :: 0 <= i < |segs| ==> segs[i] != ".."
    ensures Resolve(stack, segs) == stack + Kept(segs)
    decreases |segs|
  {
    if |segs| > 0 {
      if segs[0] == "" || segs[0] == "." {
        ResolveKept(stack, segs[1..]);
      } else {
        ResolveKept(stack + [segs[0]], segs[1..]);
        assert stack + [segs[0]] + Kept(segs[1..]) == stack + Kept(segs);
      }
    } else {
      assert stack + [] == stack;
    }
  }

  /** Joining under "/api" adds a root piece and the piece "api" in front of the request's pieces. */
  lemma SplitUnderApi(p: string)
    ensures Split(ApiPath + "/" + p) == ["", "api"] + Split(p)
  {
    var t := "api" + "/" + p;
    var s := "" + "/" + t;
    assert ApiPath + "/" + p == s;
    SplitCons("api", p);
    SplitCons("", t);
    assert Split(s) == [""] + (["api"] + Split(p));
    assert [""] + (["api"] + Split(p)) == ["", "api"] + Split(p);
  }

  /** A path made of "api" and further names starts with "/api", followed by nothing or a slash. */
  lemma RenderUnderApi(rest: seq<string>)
    ensures Render(["api"] + rest)[..|ApiPath|] == ApiPath
    ensures |Render(["api"] + rest)| == |ApiPath| || Render(["api"] + rest)[|ApiPath|] == '/'
  {
    var names := ["api"] + rest;
    if |rest| == 0 {
      assert JoinSlash(names) == "api";
    } else {
      assert names[1..] == rest;
      assert JoinSlash(names) == "api" + "/" + JoinSlash(rest);
    }
  }

  /** Without "..", the pieces under "/api" resolve to "api" followed by the request's kept names. */
  lemma ResolveUnderApi(p: string)
    requires forall i :: 0 <= i < |Split(p)| ==> Split(p)[i] != ".."
    ensures Resolve([], Split(ApiPath + "/" + p)) == ["api"] + Kept(Split(p))
  {
    SplitUnderApi(p);
    var q := ["api"] + Split(p);
    assert Split(ApiPath + "/" + p) == [""] + q;
    ResolveSkipEmpty([], q);
    ResolvePush([], "api", Split(p));
    assert [] + ["api"] == ["api"];
    ResolveKept(["api"], Split(p));
  }

  /** A request path without ".." is rewritten under "/api", keeping its names in order. */
  lemma StaysUnderApi(p: string)
    requires forall i :: 0 <= i < |Split(p)| ==> Split(p)[i] != ".."
    ensures JoinApi(p) == Render(["api"] + Kept(Split(p)))
    ensures JoinApi(p)[..|ApiPath|] == ApiPath
    ensures |JoinApi(p)| == |ApiPath| || JoinApi(p)[|ApiPath|] == '/'
  {
    ResolveUnderApi(p);
    RenderUnderApi(Kept(Split(p)));
  }

  /** Names are all kept. */
  lemma {:induction false} KeptNames(names: seq<string>)
    requires AllNames(names)
    ensures Kept(names) == names
    decreases |names|
  {
    if |names| > 0 {
      KeptNames(names[1..]);
      assert names == [names[0]] + names[1..];
    }
  }

  /** A clean rooted request path is moved under "/api" as it is. */
  lemma RenderedUnderApi(names: seq<string>)
    requires AllNames(names) && NoSlashes(names)
    ensures JoinApi(Render(names)) == Render(["api"] + names)
  {
    SplitRender(names);
    var pieces := Split(Render(names));
    if |names| == 0 {
      assert pieces == ["", ""];
      assert Kept(["", ""]) == [];
    } else {
      assert pieces[0] == "" && pieces[1..] == names;
      KeptNames(names);
      assert Kept(pieces) == Kept(names);
    }
    StaysUnderApi(Render(names));
  }

  /** A typical request path gains the "/api" prefix. */
  lemma UsersMeExample()
    ensures JoinApi("/users/me") == "/api/users/me"
  {
    var names := ["users", "me"];
    assert "/users/me" == Render(names);
    assert "/api/users/me" == Render(["api", "users", "me"]);
    assert '/' !in names[0] && '/' !in names[1];
    RenderedUnderApi(names);
    assert ["api"] + names == ["api", "users", "me"];
  }

  /** A trailing slash leaves an empty last piece. */
  lemma SplitTrailingSlash(name: string)
    requires '/' !in name
    ensures Split(name + "/") == [name, ""]
  {
    SplitNoSlash("");
    SplitCons(name, "");
    assert name + "/" == name + "/" + "";
  }

  /** A trailing slash is dropped. */
  lemma TrailingSlashExample()
    ensures JoinApi("albums/") == "/api/albums"
  {
    var name := "albums";
    SplitTrailingSlash(name);
    var pieces := Split(name + "/");
    assert Kept(pieces) == [name] by {
      assert pieces[0] == name && pieces[1..] == [""];
      assert name != "" && name != "." && name != "..";
      assert Kept([""]) == [];
    }
    ResolveUnderApi(name + "/");
    assert JoinApi(name + "/") == Render(["api"] + [name]);
    assert name + "/" == "albums/";
    assert ["api"] + [name] == ["api", "albums"];
    assert Render(["api", "albums"]) == "/api/albums";
  }

  /** An empty request path is the API root. */
  lemma EmptyPathExample()
    ensures JoinApi("") == "/api"
  {
    SplitNoSlash("");
    StaysUnderApi("");
    assert Kept([""]) == [];
    assert "/api" == Render(["api"]);
  }

  /** A ".." in the request path climbs out of "/api". */
  lemma DotDotExample()
    ensures JoinApi("/../x") == "/x"
  {
    SplitNoSlash("x");
    assert "/../x" == "" + "/" + (".." + "/" + "x");
    SplitCons("..", "x");
    SplitCons("", ".." + "/" + "x");
    SplitUnderApi("/../x");
    var rest := ["..", "x"];
    assert Split(ApiPath + "/" + "/../x") == [""] + (["api"] + ([""] + rest));
    ResolveSkipEmpty([], ["api"] + ([""] + rest));
    ResolvePush([], "api", [""] + rest);
    ResolveSkipEmpty(["api"], rest);
    assert Resolve(["api"], rest) == Resolve([], ["x"]);
    assert Resolve([], ["x"]) == ["x"];
    assert "/x" == Render(["x"]);
  }

  // ---------------------------------------------------------------- requests

  /** The parts of a URL the client reads or writes. */
  datatype Url = Url(scheme: string, host: string, path: string, rawQuery: string)

  datatype Header = Header(name: string, value: string)

  datatype Request = Request(url: Url, headers: seq<Header>)

  datatype Response = Response(status: int, body: seq<bv8>)

  /** The configuration: the endpoint (already parsed) and the API key. */
  datatype Config = Config(endpoint: Url, apiKey: string)

  datatype Client = Client(endpoint: Url, apiKey: string)

  const ApiKeyHeader := "X-API-Key"

  /** NewClient: the endpoint's path is replaced by "/api" whatever it was. */
  function NewClient(conf: Config): (c: Client)
    ensures c.endpoint.path == ApiPath
    ensures c.endpoint.scheme == conf.endpoint.scheme && c.endpoint.host == conf.endpoint.host
    ensures c.apiKey == conf.apiKey
  {
    var u := conf.endpoint;
    Client(if u.path != ApiPath then u.(path := ApiPath) else u, conf.apiKey)
  }

  /** The request rewrite: the key header added, the URL moved to the endpoint under "/api", the query kept. */
  function Rewrite(c: Client, req: Request): (r: Request)
    ensures r.headers == req.headers + [Header(ApiKeyHeader, c.apiKey)]
    ensures r.url.rawQuery == req.url.rawQuery
  {
    Request(c.endpoint.(path := JoinApi(req.url.path), rawQuery := req.url.rawQuery),
            req.headers + [Header(ApiKeyHeader, c.apiKey)])
  }

  /**
   * Every request a configured client sends goes to the configured server,
   * carries the key, keeps its query, and stays under "/api" unless its
   * path climbs out with "..".
   */
  lemma RequestsGoToApi(conf: Config, req: Request)
    ensures var r := Rewrite(NewClient(conf), req);
      && r.url.scheme == conf.endpoint.scheme && r.url.host == conf.endpoint.host
      && r.url.rawQuery == req.url.rawQuery
      && r.headers[|r.headers| - 1] == Header(ApiKeyHeader, conf.apiKey)
      && ((forall i :: 0 <= i < |Split(req.url.path)| ==> Split(req.url.path)[i] != "..") ==>
            |r.url.path| >= |ApiPath| && r.url.path[..|ApiPath|] == ApiPath)
  {
    if forall i :: 0 <= i < |Split(req.url.path)| ==> Split(req.url.path)[i] != ".." {
      StaysUnderApi(req.url.path);
    }
  }

  /** What the transport reports: a response, or an error (possibly alongside a response). */
  datatype TransportReply = Delivered(resp: Response) | TransportFailed(partial: Option<Response>, reason: string)

  datatype RoundTripError = TransportError(reason: string) | StatusRejected(status: StatusError)

  /** The response and the error RoundTrip returns. */
  datatype Outcome = Outcome(resp: Option<Response>, err: Option<RoundTripError>)

  /**
   * RoundTrip: send the rewritten request; a transport error passes through
   * unchanged, and a response whose status is not 200 is dropped in favour
   * of the status error.
   */
  function RoundTrip(c: Client, req: Request, send: Request -> TransportReply): (r: Outcome)
    ensures send(Rewrite(c, req)).TransportFailed? ==>
      r == Outcome(send(Rewrite(c, req)).partial, Some(TransportError(send(Rewrite(c, req)).reason)))
    ensures send(Rewrite(c, req)).Delivered? ==>
      var resp := send(Rewrite(c, req)).resp;
      && (r.err.None? <==> resp.status == StatusOK)
      && (r.err.None? ==> r.resp == Some(resp))
      && (r.err.Some? ==> r.resp.None? && r.err.value == StatusRejected(CheckStatusCode(resp.status).value))
  {
    match send(Rewrite(c, req))
    case TransportFailed(partial, reason) => Outcome(partial, Some(TransportError(reason)))
    case Delivered(resp) =>
      match CheckStatusCode(resp.status)
      case Some(e) => Outcome(None, Some(StatusRejected(e)))
      case None => Outcome(Some(resp), None)
  }

  /** A caller never gets a response without an error unless the server answered 200 OK. */
  lemma OnlyOkSucceeds(c: Client, req: Request, send: Request -> TransportReply)
    ensures RoundTrip(c, req, send).err.None? <==>
      send(Rewrite(c, req)).Delivered? && send(Rewrite(c, req)).resp.status == StatusOK
    ensures RoundTrip(c, req, send).err.None? ==> RoundTrip(c, req, send).resp.Some?
  {
  }
}
