/** The worker's responses: a status, a header object and a body, the
    `COMMON_HEADERS` every answer but one carries, the JSON helpers, and
    what an awaited upstream call can come back with. */
module WorkerHttp {
  import opened Wrappers
  import opened JsObject

  const ContentType: string := "Content-Type"
  const AllowOrigin: string := "Access-Control-Allow-Origin"
  const JsonType: string := "application/json"

  /** `COMMON_HEADERS`: CORS for any origin and a desktop browser's
      `User-Agent`. It has no `Content-Type`. */
  const CommonHeaders: Entries<string, string> := [
    (AllowOrigin, "*"),
    ("Access-Control-Allow-Methods", "GET, POST, OPTIONS"),
    ("Access-Control-Allow-Headers", "Content-Type"),
    ("User-Agent", "Mozilla/5.0 (Windows NT 10.0; Win64; x64) AppleWebKit/537.36 (KHTML, like Gecko) Chrome/91.0.4472.124 Safari/537.36")
  ]

  /** The JSON objects the worker serialises. */
  datatype Json =
    | ErrorObject(error: string)                                  // `{ error }`
    | LinksObject(links: Entries<string, string>, best: string)   // `{ links, best }`
    | LiveObject(links: Entries<string, string>, best: string, title: string, game: string)

  /** A response body: `null`, text, the upstream body passed through, or
      serialised JSON. */
  datatype Body = NoBody | Text(text: string) | Upstream | Json(value: Json)

  /** `new Response(body, { status, headers })`; the status defaults to 200. */
  datatype Response = Response(status: int, headers: Entries<string, string>, body: Body)

  /** What a handler's promise settles to: a response, or a rejection with
      the error's message. */
  datatype Outcome = Done(response: Response) | Rejected(message: string)

  /** What an awaited upstream call (`fetch`, `res.text()`, `res.json()`)
      gives: its value, or a rejection. */
  datatype Upstream<T> = Got(value: T) | Threw(message: string)

  /** `!x` on a query parameter: missing (`null`) or empty. */
  predicate Missing(param: Option<string>)
  {
    param.None? || param.value == []
  }

  lemma CommonHeadersUntyped()
    ensures !HasKey(CommonHeaders, ContentType)
  {
    HasKeyIff(CommonHeaders, ContentType);
    assert Keys(CommonHeaders) == [CommonHeaders[0].0, CommonHeaders[1].0, CommonHeaders[2].0, CommonHeaders[3].0];
    assert CommonHeaders[0].0[0] == 'A' && CommonHeaders[1].0[0] == 'A' && CommonHeaders[2].0[0] == 'A' && CommonHeaders[3].0[0] == 'U';
  }

  /** `{ ...COMMON_HEADERS, 'Content-Type': t }`: the common headers, in
      their order, then the content type. */
  function WithType(t: string): (h: Entries<string, string>)
    ensures Get(h, ContentType) == Some(t)
    ensures forall k :: k != ContentType ==> Get(h, k) == Get(CommonHeaders, k)
    ensures h == CommonHeaders + [(ContentType, t)]
  {
    CommonHeadersUntyped();
    PutAllOne(CommonHeaders, ContentType, t);
    forall k | k != ContentType
      ensures Get(PutAll(CommonHeaders, [(ContentType, t)]), k) == Get(CommonHeaders, k)
    {
      PutGetOther(CommonHeaders, ContentType, t, k);
    }
    PutAll(CommonHeaders, [(ContentType, t)])
  }

  /** The common headers allow any origin, and `Content-Type` does not
      override that. */
  lemma CommonAllowsAny()
    ensures Get(CommonHeaders, AllowOrigin) == Some("*")
    ensures AllowOrigin != ContentType
  {
    assert CommonHeaders[0] == (AllowOrigin, "*");
    assert AllowOrigin[0] != ContentType[0];
  }

  /** `jsonError(msg, status = 400)`. */
  function JsonError(msg: string, status: int := 400): (r: Response)
    ensures r.status == status && r.body == Json(ErrorObject(msg))
    ensures Get(r.headers, ContentType) == Some(JsonType)
    ensures forall k :: k != ContentType ==> Get(r.headers, k) == Get(CommonHeaders, k)
  {
    Response(status, WithType(JsonType), Json(ErrorObject(msg)))
  }

  /** `jsonResponse(data)`: status 200, JSON content type, and the common
      headers for everything else. */
  function JsonResponse(data: Json): (r: Response)
    ensures r.status == 200 && r.body == Json(data)
    ensures Get(r.headers, ContentType) == Some(JsonType)
    ensures forall k :: k != ContentType ==> Get(r.headers, k) == Get(CommonHeaders, k)
  {
    Response(200, WithType(JsonType), Json(data))
  }
}
