/** The worker's request handling: the top-level `fetch` dispatch, the VOD
    route with its single plan, the live route and the guard of the videos
    route. Every upstream call is an input. The dispatch returns the
    handlers' promises without awaiting them, so its `catch` never sees
    their rejections: `Fetch` models that as written, `FetchAwaited` the
    evidently intended handler that answers 500 with the error. */
module WorkerRoutes {
  import opened Wrappers
  import opened JsText
  import opened JsObject
  import opened UriCodec
  import opened Twitch
  import opened WorkerParse
  import opened WorkerProxy
  import opened WorkerHttp

  const Running: string := "Twitch Proxy Worker Running"
  const RootPath: string := "/"
  const LivePath: string := "/api/get-live"
  const VideosPath: string := "/api/get-channel-videos"
  const VodPath: string := "/api/get-m3u8"
  const ProxyPath: string := "/api/proxy"
  const PlaylistHeader: string := "#EXTM3U"
  const VodNotFound: string := "VOD introuvable ou Sub-only"

  // ---------------------------------------------------------------------
  // handleGetM3U8

  /** `res.ok`: a 2xx status. */
  predicate Ok(status: int)
  {
    200 <= status <= 299
  }

  /** What `fetch(masterUrl)` answered: its status and, when `res.text()`
      is read, the body. */
  datatype Page = Page(status: int, text: string)

  /** `handleGetM3U8`, given the `id` parameter, the VOD token lookup and
      the answer to the master-playlist request. The token helper has no
      `catch`: a failed GraphQL request, a body that is not JSON or a JSON
      `null` rejects it, and the handler with it. A token of `null` or
      `undefined` is `Got(None)`. There is no second plan. */
  function HandleGetM3U8(id: Option<string>, token: Upstream<Option<Token>>, page: Upstream<Page>): Outcome
  {
    if Missing(id) then Done(JsonError("ID manquant"))
    else
      match token
      case Threw(m) => Rejected(m)
      case Got(None) => Done(JsonError(VodNotFound, 404))
      case Got(Some(t)) =>
        var masterUrl := VodMasterUrl(id.value, t);
        match page
        case Threw(m) => Rejected(m)
        case Got(p) =>
          if Ok(p.status) && Contains(p.text, PlaylistHeader) then
            Done(JsonResponse(LinksObject(WorkerLinks(p.text, masterUrl), masterUrl)))
          else Done(JsonError(VodNotFound, 404))
  }

  /** The route answers with links exactly when a token exists, the request
      succeeds with a 2xx status and the body mentions `#EXTM3U`; the
      links are then the parsed master playlist under `Auto`, and `best` is
      that playlist, which the proxy treats as a VOD playlist. */
  lemma VodAccepted(id: Option<string>, token: Upstream<Option<Token>>, page: Upstream<Page>)
    requires !Missing(id)
    ensures var r := HandleGetM3U8(id, token, page);
      (r.Done? && r.response.status == 200) <==>
        token.Got? && token.value.Some? && page.Got? && Ok(page.value.status) && Contains(page.value.text, PlaylistHeader)
    ensures var r := HandleGetM3U8(id, token, page);
      r.Done? && r.response.status == 200 ==>
        var masterUrl := VodMasterUrl(id.value, token.value.value);
        && r.response.body == Json(LinksObject(WorkerLinks(page.value.text, masterUrl), masterUrl))
        && IsVod(None, masterUrl) && Contains(masterUrl, PlaylistMark)
        && Get(WorkerLinks(page.value.text, masterUrl), Auto).Some?
  {
    if token.Got? && token.value.Some? {
      var masterUrl := VodMasterUrl(id.value, token.value.value);
      VodMasterUrlShape(id.value, token.value.value);
      if page.Got? {
        WorkerLinksContents(page.value.text, masterUrl, Auto);
      }
    }
  }

  /** `getVodAccessToken` as written: its GraphQL variables use the
      shorthand property `vodID`, a name nothing declares (the parameter is
      `vodId`), so building them throws a `ReferenceError` before any
      request is made. */
  const VodIdUndeclared: string := "vodID is not defined"

  /** `handleGetM3U8` as written: once the id is present, the token lookup
      throws, so the only answer that settles is the missing-id one. */
  function HandleGetM3U8AsWritten(id: Option<string>): (r: Outcome)
    ensures r.Done? <==> Missing(id)
    ensures r.Done? ==> r.response.status == 400
  {
    if Missing(id) then Done(JsonError("ID manquant")) else Rejected(VodIdUndeclared)
  }

  /** A VOD with a token and a valid master playlist: the handler as
      intended answers with its links, the handler as written rejects. */
  lemma VodTokenNeverAsked()
    ensures var id, page := Some("1"), Got(Page(200, PlaylistHeader));
      && HandleGetM3U8AsWritten(id) == Rejected(VodIdUndeclared)
      && HandleGetM3U8(id, Got(Some(Token("v", "s"))), page).Done?
      && HandleGetM3U8(id, Got(Some(Token("v", "s"))), page).response.status == 200
  {
    assert Contains(PlaylistHeader, PlaylistHeader) by {
      ContainsInfix([], PlaylistHeader, []);
      assert [] + PlaylistHeader + [] == PlaylistHeader;
    }
  }

  /** Every other settled answer is the 404 `VOD introuvable ou Sub-only`
      error; the handler rejects exactly when the token lookup rejects, or
      when a token was found and the playlist request fails, and then with
      that failure's message. */
  lemma VodRefused(id: Option<string>, token: Upstream<Option<Token>>, page: Upstream<Page>)
    requires !Missing(id)
    ensures var r := HandleGetM3U8(id, token, page);
      r.Rejected? <==> token.Threw? || (token.value.Some? && page.Threw?)
    ensures var r := HandleGetM3U8(id, token, page);
      r.Rejected? ==> r.message == (if token.Threw? then token.message else page.message)
    ensures var r := HandleGetM3U8(id, token, page);
      r.Done? && r.response.status != 200 ==> r.response == JsonError(VodNotFound, 404)
  {
  }

  // ---------------------------------------------------------------------
  // handleGetLive

  /** The worker's live master playlist: the server's, except that the
      token value is percent-encoded. */
  function WorkerLiveMasterUrl(clean: string, t: Token): string
  {
    LiveMasterUrl(clean, Token(EncodeURIComponent(t.value), t.signature))
  }

  /** `broadcastSettings`: its title and its game's display name, each
      possibly absent. */
  datatype Broadcast = Broadcast(title: Option<string>, game: Option<string>)

  /** `x || fallback` on an optional string. */
  function OrElse(x: Option<string>, fallback: string): (r: string)
    ensures x.Some? && x.value != [] ==> r == x.value
    ensures x.None? || x.value == [] ==> r == fallback
  {
    if x.Some? && x.value != [] then x.value else fallback
  }

  /** `handleGetLive`, given the `name` parameter, the live token lookup
      for the normalised name (which rejects like the VOD one), the
      playlist text and the broadcast settings. */
  function HandleGetLive(name: Option<string>, token: Upstream<Option<Token>>, text: Upstream<string>,
                         info: Upstream<Option<Broadcast>>): Outcome
  {
    if Missing(name) then Done(JsonError("Nom manquant"))
    else LiveFor(NormalizeLogin(name.value), token, text, info)
  }

  /** Everything after the name check, for the normalised name. */
  function LiveFor(clean: string, token: Upstream<Option<Token>>, text: Upstream<string>,
                   info: Upstream<Option<Broadcast>>): Outcome
  {
    match token
    case Threw(m) => Rejected(m)
    case Got(None) => Done(JsonError("Offline", 404))
    case Got(Some(t)) =>
      var masterUrl := WorkerLiveMasterUrl(clean, t);
      match text
      case Threw(m) => Rejected(m)
      case Got(body) =>
        match info
        case Threw(m) => Rejected(m)
        case Got(b) =>
          var title := if b.Some? then OrElse(b.value.title, "Live") else "Live";
          var game := if b.Some? then OrElse(b.value.game, "") else "";
          Done(JsonResponse(LiveObject(WorkerLinks(body, masterUrl), masterUrl, title, game)))
  }

  /** A live answer is for the normalised channel: names differing only in
      case or surrounding white space are the same request. */
  lemma LiveNameBlind(name: string, pad: string, token: Upstream<Option<Token>>, text: Upstream<string>,
                      info: Upstream<Option<Broadcast>>)
    requires name != [] && AllSpace(pad)
    ensures HandleGetLive(Some(pad + ToLower(name) + pad), token, text, info)
         == HandleGetLive(Some(name), token, text, info)
  {
    var padded := pad + ToLower(name) + pad;
    assert !Missing(Some(padded)) by {
      assert |padded| >= |ToLower(name)| == |name|;
    }
    assert NormalizeLogin(padded) == NormalizeLogin(name) by {
      NormalizePadding(pad, ToLower(name), pad);
      NormalizeCaseBlind(name);
    }
    assert HandleGetLive(Some(padded), token, text, info) == LiveFor(NormalizeLogin(name), token, text, info);
  }

  /** A live answer offers the parse of the playlist under the channel's
      master playlist, which is also `best` and which the proxy treats as
      a playlist; the title is never empty. */
  lemma LiveAnswer(clean: string, token: Upstream<Option<Token>>, text: Upstream<string>, info: Upstream<Option<Broadcast>>)
    ensures var r := LiveFor(clean, token, text, info);
      r.Done? && r.response.status == 200 ==>
        && token.Got? && token.value.Some? && text.Got?
        && var masterUrl := WorkerLiveMasterUrl(clean, token.value.value);
        && r.response.body.Json? && r.response.body.value.LiveObject?
        && r.response.body.value.links == WorkerLinks(text.value, masterUrl)
        && r.response.body.value.best == masterUrl
        && Contains(masterUrl, PlaylistMark) && r.response.body.value.title != []
  {
    if token.Got? && token.value.Some? {
      var t := token.value.value;
      LiveMasterUrlShape(clean, Token(EncodeURIComponent(t.value), t.signature));
    }
  }

  /** The live route's refusals: 400 without a name, a rejection when the
      token lookup rejects, 404 `Offline` without a token. */
  lemma LiveRefused(name: Option<string>, token: Upstream<Option<Token>>, text: Upstream<string>,
                    info: Upstream<Option<Broadcast>>)
    ensures Missing(name) ==> HandleGetLive(name, token, text, info) == Done(JsonError("Nom manquant", 400))
    ensures !Missing(name) && token.Threw? ==> HandleGetLive(name, token, text, info) == Rejected(token.message)
    ensures !Missing(name) && token == Got(None) ==> HandleGetLive(name, token, text, info) == Done(JsonError("Offline", 404))
    ensures !Missing(name) && token.Got? && token.value.Some? && text.Got? && info.Got? ==>
      HandleGetLive(name, token, text, info).Done? && HandleGetLive(name, token, text, info).response.status == 200
  {
  }

  // ---------------------------------------------------------------------
  // handleGetVideos

  /** `handleGetVideos`'s guard; what follows it (the GraphQL query and
      its answer) is the input `rest`. */
  function HandleGetVideos(name: Option<string>, rest: Outcome): (r: Outcome)
    ensures Missing(name) ==> r.Done? && r.response.status == 400
    ensures !Missing(name) ==> r == rest
  {
    if Missing(name) then Done(JsonError("Nom manquant")) else rest
  }

  // ---------------------------------------------------------------------
  // fetch

  /** What the dispatch reads of a request: its method and path. */
  datatype Request = Request(verb: string, path: string)

  /** The promises the four handlers settle to for this request. */
  datatype Handlers = Handlers(live: Outcome, videos: Outcome, vod: Outcome, proxy: Outcome)

  predicate IsRoute(path: string)
  {
    path == RootPath || path == LivePath || path == VideosPath || path == VodPath || path == ProxyPath
  }

  /** The body of the `try`: the handler's own promise for a route. */
  function Route(path: string, h: Handlers): Outcome
  {
    if path == RootPath then Done(Response(200, CommonHeaders, Text(Running)))
    else if path == LivePath then h.live
    else if path == VideosPath then h.videos
    else if path == VodPath then h.vod
    else if path == ProxyPath then h.proxy
    else Done(Response(404, CommonHeaders, Text("Not Found")))
  }

  /** `fetch` as written: `return handleX(url)` hands back the handler's
      promise from inside the `try`, so a rejection settles the returned
      promise after the `try` has been left, and the `catch` never runs.
      The rejection escapes to the runtime. */
  function Fetch(req: Request, h: Handlers): Outcome
  {
    if req.verb == "OPTIONS" then Done(Response(200, CommonHeaders, NoBody))
    else Route(req.path, h)
  }

  /** The `catch`: `{ error: e.message }` with status 500. */
  function ServerError(message: string): (r: Response)
    ensures r.status == 500 && r.body == Json(ErrorObject(message))
    ensures r.headers == CommonHeaders
  {
    Response(500, CommonHeaders, Json(ErrorObject(message)))
  }

  /** `fetch` with `return await handleX(url)`: the `catch` now turns
      every rejection into the 500 answer. */
  function FetchAwaited(req: Request, h: Handlers): Outcome
  {
    match Fetch(req, h)
    case Rejected(m) => Done(ServerError(m))
    case Done(r) => Done(r)
  }

  /** The preflight is answered before anything else, for any path, with an
      empty body and the common headers. */
  lemma Preflight(req: Request, h: Handlers)
    requires req.verb == "OPTIONS"
    ensures Fetch(req, h) == Done(Response(200, CommonHeaders, NoBody))
    ensures FetchAwaited(req, h) == Fetch(req, h)
  {
  }

  /** Paths are matched exactly: any other path is a 404 `Not Found`, and
      each API path gets its own handler's promise. */
  lemma DispatchExact(req: Request, h: Handlers)
    requires req.verb != "OPTIONS"
    ensures Fetch(req, h) == Done(Response(404, CommonHeaders, Text("Not Found"))) <==>
      !IsRoute(req.path)
        || (req.path == LivePath && h.live == Done(Response(404, CommonHeaders, Text("Not Found"))))
        || (req.path == VideosPath && h.videos == Done(Response(404, CommonHeaders, Text("Not Found"))))
        || (req.path == VodPath && h.vod == Done(Response(404, CommonHeaders, Text("Not Found"))))
        || (req.path == ProxyPath && h.proxy == Done(Response(404, CommonHeaders, Text("Not Found"))))
    ensures req.path == LivePath ==> Fetch(req, h) == h.live
    ensures req.path == VideosPath ==> Fetch(req, h) == h.videos
    ensures req.path == VodPath ==> Fetch(req, h) == h.vod
    ensures req.path == ProxyPath ==> Fetch(req, h) == h.proxy
    ensures req.path == RootPath ==> Fetch(req, h) == Done(Response(200, CommonHeaders, Text(Running)))
  {
    PathsDistinct();
  }

  lemma PathsDistinct()
    ensures RootPath != LivePath && RootPath != VideosPath && RootPath != VodPath && RootPath != ProxyPath
    ensures LivePath != VideosPath && LivePath != VodPath && LivePath != ProxyPath
    ensures VideosPath != VodPath && VideosPath != ProxyPath && VodPath != ProxyPath
  {
    assert |RootPath| == 1 && |LivePath| == 13 && |VideosPath| == 23 && |VodPath| == 13 && |ProxyPath| == 10;
    assert LivePath[9] != VodPath[9];
  }

  /** A missing query parameter gets 400 whichever route reads it; the
      JSON routes answer `{ error }` with the common headers, the proxy a
      bare text without them. */
  lemma MissingParameter(req: Request, param: Option<string>, vodParam: Option<string>, protocol: string, host: string,
                         playlist: Upstream<string>, stream: Upstream<Option<string>>,
                         token: Upstream<Option<Token>>, page: Upstream<Page>, text: Upstream<string>,
                         info: Upstream<Option<Broadcast>>, rest: Outcome)
    requires req.verb != "OPTIONS" && Missing(param)
    ensures var h := Handlers(HandleGetLive(param, token, text, info), HandleGetVideos(param, rest),
                              HandleGetM3U8(param, token, page), HandleProxy(param, vodParam, protocol, host, playlist, stream));
      && (req.path in {LivePath, VideosPath, VodPath} ==>
            Fetch(req, h).Done? && Fetch(req, h).response.status == 400
            && Fetch(req, h).response.body.Json? && Fetch(req, h).response.body.value.ErrorObject?
            && Get(Fetch(req, h).response.headers, AllowOrigin) == Some("*"))
      && (req.path == ProxyPath ==> Fetch(req, h) == Done(Response(400, [], Text("URL manquante"))))
  {
    PathsDistinct();
    CommonAllowsAny();
  }

  /** Awaiting changes nothing but the rejections: each becomes the 500
      answer carrying its message, and the intended handler never lets one
      escape. */
  lemma AwaitCatches(req: Request, h: Handlers)
    ensures FetchAwaited(req, h).Done?
    ensures Fetch(req, h).Done? ==> FetchAwaited(req, h) == Fetch(req, h)
    ensures Fetch(req, h).Rejected? ==> FetchAwaited(req, h) == Done(ServerError(Fetch(req, h).message))
  {
  }

  /** As written, a playlist the upstream fails to deliver rejects the
      whole request: `GET /api/proxy?url=…m3u8` with the fetch failing
      does not get the 500 JSON answer the `catch` was written for. */
  lemma RejectionEscapes()
    ensures var req := Request("GET", ProxyPath);
      var h := Handlers(Rejected(""), Rejected(""), Rejected(""),
        HandleProxy(Some("https://a/b.m3u8"), None, "https:", "w", Threw("network"), Threw("network")));
      Fetch(req, h) == Rejected("network") && FetchAwaited(req, h) == Done(ServerError("network"))
  {
    PathsDistinct();
    var url := "https://a/b.m3u8";
    assert Contains(url, PlaylistMark) by {
      ContainsInfix("https://a/b", PlaylistMark, "");
      assert "https://a/b" + PlaylistMark + "" == url;
    }
  }
}
