/** The Express server's `/api/get-m3u8` route: Plan A asks Twitch for the
    official VOD playlist with a playback token; only when that fails does
    Plan B probe the storyboard storage. Every upstream answer is an input. */
module ServerVod {
  import opened Wrappers
  import opened JsText
  import opened JsObject
  import opened Twitch
  import opened ServerStoryboard

  /** What `check.data` is once axios has read the body: a string, or
      anything else (an object parsed from JSON, an empty body). */
  datatype Data = Text(text: string) | NotText

  /** The outcome of `axios.get(url, AXIOS_CONFIG)`: it throws on network
      errors, or answers with a status and data. */
  datatype Fetch = Threw | Answered(status: int, data: Data)

  /** `validateStatus` of `AXIOS_CONFIG`: axios throws for anything else. */
  predicate ValidStatus(status: int)
  {
    200 <= status < 500
  }

  /** Plan A's test: a string body mentioning `#EXTM3U`, from an answer
      axios did not turn into an exception. */
  predicate Accepted(check: Fetch)
  {
    && check.Answered? && ValidStatus(check.status)
    && check.data.Text? && check.data.text != [] && Contains(check.data.text, "#EXTM3U")
  }

  /** `getVodStoryboardData`'s answer: the seek-preview URL (`""` when null)
      and the owner's login. */
  datatype Metadata = Metadata(seekPreviewsUrl: string, ownerLogin: string)

  const AutoOfficial: string := "Auto (Officiel)"

  datatype VodReply =
    | MissingId                                                            // 400 `ID manquant`
    | Official(links: Entries<string, string>, best: string)               // Plan A
    | FromStoryboard(links: Entries<string, string>, best: string, info: string)  // Plan B
    | VodNotFound                                                          // 404 `VOD introuvable.`

  /** The route, for the `id` parameter, the VOD token, the answer to the
      Plan A request, the storyboard metadata, the parse of its seek-preview
      URL and the storyboard probes. */
  function VodRoute(id: Option<string>, token: Option<Token>, check: Fetch, metadata: Option<Metadata>,
                    parsed: Option<(string, string)>, probe: string -> bool): VodReply
  {
    if id.None? || id.value == [] then MissingId
    else if token.Some? && Accepted(check) then
      var url := VodMasterUrl(id.value, token.value);
      Official([(AutoOfficial, url)], url)
    else if metadata.Some? && metadata.value.seekPreviewsUrl != [] then
      match StoryboardSpec(metadata.value.seekPreviewsUrl, parsed, probe)
      case Some(links) =>
        StoryboardNull(metadata.value.seekPreviewsUrl, parsed, probe);
        FromStoryboard(links, links[0].1, "VOD de " + metadata.value.ownerLogin)
      case None => VodNotFound
    else VodNotFound
  }

  /** Plan A answers exactly when a token exists and the official playlist
      passes the check, and it then offers that playlist alone. */
  lemma PlanA(id: Option<string>, token: Option<Token>, check: Fetch, metadata: Option<Metadata>,
              parsed: Option<(string, string)>, probe: string -> bool)
    requires id.Some? && id.value != []
    ensures VodRoute(id, token, check, metadata, parsed, probe).Official? <==> token.Some? && Accepted(check)
    ensures token.Some? && Accepted(check) ==>
      var url := VodMasterUrl(id.value, token.value);
      VodRoute(id, token, check, metadata, parsed, probe) == Official([(AutoOfficial, url)], url)
      && Contains(url, "/vod/") && Contains(url, ".m3u8")
  {
    if token.Some? {
      VodMasterUrlShape(id.value, token.value);
    }
  }

  /** Plan B is consulted only when Plan A fails: once Plan A succeeds the
      storyboard inputs make no difference. */
  lemma PlanBOnlyOtherwise(id: Option<string>, token: Option<Token>, check: Fetch,
                           m1: Option<Metadata>, p1: Option<(string, string)>, probe1: string -> bool,
                           m2: Option<Metadata>, p2: Option<(string, string)>, probe2: string -> bool)
    requires token.Some? && Accepted(check)
    ensures VodRoute(id, token, check, m1, p1, probe1) == VodRoute(id, token, check, m2, p2, probe2)
  {
  }

  /** A storyboard answer offers the best quality first: `best` is the
      first link, its quality precedes every other offered one in
      `QUALITY_ORDER`, and every link is a probed candidate of that
      quality. */
  lemma StoryboardBest(id: Option<string>, token: Option<Token>, check: Fetch, metadata: Option<Metadata>,
                       parsed: Option<(string, string)>, probe: string -> bool)
    requires VodRoute(id, token, check, metadata, parsed, probe).FromStoryboard?
    ensures var r := VodRoute(id, token, check, metadata, parsed, probe);
      && r.links != [] && r.best == r.links[0].1
      && r.info == "VOD de " + metadata.value.ownerLogin
      && (forall j :: 0 < j < |r.links| ==>
            PositionIn(QualityOrder, r.links[0].0) < PositionIn(QualityOrder, r.links[j].0))
      && (forall x :: x in r.links ==>
            x.0 in QualityOrder && x.1 == Candidate(parsed.value.0, StorageId(parsed.value.1).value, x.0) && probe(x.1))
  {
    var seek := metadata.value.seekPreviewsUrl;
    StoryboardNull(seek, parsed, probe);
    QualityOrderDistinct();
    ProbedContents(parsed.value.0, StorageId(parsed.value.1).value, probe, QualityOrder);
  }

  /** The 404 is returned exactly when a valid id gets neither plan. */
  lemma NotFoundIff(id: Option<string>, token: Option<Token>, check: Fetch, metadata: Option<Metadata>,
                    parsed: Option<(string, string)>, probe: string -> bool)
    requires id.Some? && id.value != []
    ensures VodRoute(id, token, check, metadata, parsed, probe) == VodNotFound <==>
      !(token.Some? && Accepted(check))
      && (metadata.None? || metadata.value.seekPreviewsUrl == []
          || StoryboardSpec(metadata.value.seekPreviewsUrl, parsed, probe).None?)
  {
  }
}
