/** The worker's `/api/proxy` route (`handleProxy`). A playlist is fetched
    and rewritten line by line: child playlists always come back through the
    worker, and segments do too for a VOD, carrying `isVod=true` so that the
    flag survives into every request the player makes next; a live
    segment is handed to the player as a bare absolute link. Anything that
    is not a playlist is streamed through. */
module WorkerProxy {
  import opened Wrappers
  import opened JsText
  import opened JsObject
  import opened UriCodec
  import opened Playlist
  import opened WorkerHttp

  const UrlParam: string := "url"
  const VodParam: string := "isVod"
  const TrueText: string := "true"
  const FalseText: string := "false"
  const PlaylistMark: string := ".m3u8"
  const VodMark: string := "/vod/"
  const PlaylistType: string := "application/vnd.apple.mpegurl"
  const SegmentType: string := "video/MP2T"

  /** A boolean interpolated into a template literal. */
  function FlagText(b: bool): string
  {
    if b then TrueText else FalseText
  }

  /** `url.searchParams.get('isVod') === 'true' || targetUrl.includes('/vod/')`. */
  predicate IsVod(vodParam: Option<string>, targetUrl: string)
  {
    vodParam == Some(TrueText) || Contains(targetUrl, VodMark)
  }

  /** `${originUrl.protocol}//${originUrl.host}/api/proxy`. */
  function WorkerBase(protocol: string, host: string): string
  {
    protocol + "//" + host + "/api/proxy"
  }

  /** The query of a wrapped link: `url=<encoded link>&isVod=<flag>`. */
  function WrappedQuery(full: string, flag: bool): string
  {
    UrlParam + "=" + EncodeURIComponent(full) + "&" + VodParam + "=" + FlagText(flag)
  }

  /** `${workerBase}?url=${encodeURIComponent(fullLink)}&isVod=${flag}`. */
  function Wrapped(workerBase: string, full: string, flag: bool): string
  {
    workerBase + "?" + WrappedQuery(full, flag)
  }

  /** The `map` callback over one line of the playlist. */
  function RewriteLine(workerBase: string, baseUrl: string, isVod: bool, line: string): string
  {
    var l := Trim(line);
    if KindOf(l) != Uri then l
    else
      var full := AbsoluteLink(baseUrl, l);
      if Contains(l, PlaylistMark) then Wrapped(workerBase, full, isVod)
      else if isVod then Wrapped(workerBase, full, true)
      else full
  }

  function RewriteLines(workerBase: string, baseUrl: string, isVod: bool, lines: seq<string>): seq<string>
  {
    seq(|lines|, i requires 0 <= i < |lines| => RewriteLine(workerBase, baseUrl, isVod, lines[i]))
  }

  /** The rewritten playlist: split on `\n`, map, join on `\n`. */
  function RewritePlaylist(workerBase: string, targetUrl: string, isVod: bool, text: string): string
  {
    Join(RewriteLines(workerBase, DirectoryOf(targetUrl), isVod, Split(text, '\n')), '\n')
  }

  lemma ParamsPlain()
    ensures IsPlainName(UrlParam) && IsPlainName(VodParam)
  {
    assert UrlParam == ['u', 'r', 'l'];
    assert VodParam == ['i', 's', 'V', 'o', 'd'];
  }

  /** `true` and `false` need no escaping. */
  lemma FlagPlain(b: bool)
    ensures EncodeURIComponent(FlagText(b)) == FlagText(b)
  {
    assert TrueText == ['t', 'r', 'u', 'e'];
    assert FalseText == ['f', 'a', 'l', 's', 'e'];
    EncodeIdentityIff(FlagText(b));
  }

  /** The query of a wrapped link parses to the link and the flag, in that
      order, whatever characters the link holds. */
  lemma WrappedQueryParses(full: string, flag: bool)
    ensures FormParse(WrappedQuery(full, flag)) == [(UrlParam, full), (VodParam, FlagText(flag))]
    ensures QueryGet(WrappedQuery(full, flag), UrlParam) == Some(full)
    ensures QueryGet(WrappedQuery(full, flag), VodParam) == Some(FlagText(flag))
  {
    var q := WrappedQuery(full, flag);
    var ps := [(UrlParam, full), (VodParam, FlagText(flag))];
    ParamsPlain();
    FlagPlain(flag);
    assert q == UrlParam + "=" + EncodeURIComponent(full) + "&" + VodParam + "=" + EncodeURIComponent(FlagText(flag));
    QueryTwoParams(UrlParam, full, VodParam, FlagText(flag));
    assert UrlParam != VodParam by {
      assert UrlParam[0] != VodParam[0];
    }
    assert ps[1..] == [(VodParam, FlagText(flag))];
    assert FirstValue(ps, VodParam) == FirstValue(ps[1..], VodParam);
  }

  /** A wrapped link holds no line break when the worker's own address
      holds none. */
  lemma WrappedOneLine(workerBase: string, full: string, flag: bool)
    requires '\n' !in workerBase
    ensures '\n' !in Wrapped(workerBase, full, flag)
  {
    var head, tail := UrlParam + "=", "&" + VodParam + "=" + FlagText(flag);
    var e := EncodeURIComponent(full);
    assert '\n' !in e by {
      assert !IsEncodedChar('\n');
      EncodedLacks(full, '\n');
    }
    ParamTextOneLine(flag);
    WrappedPieces(workerBase, full, flag);
  }

  /** The fixed parts of the wrapped query hold no line break. */
  lemma ParamTextOneLine(flag: bool)
    ensures '\n' !in UrlParam + "="
    ensures '\n' !in "&" + VodParam + "=" + FlagText(flag)
  {
    assert UrlParam + "=" == ['u', 'r', 'l', '='];
    assert FlagText(flag) == (if flag then ['t', 'r', 'u', 'e'] else ['f', 'a', 'l', 's', 'e']);
    assert "&" + VodParam + "=" + FlagText(flag) == ['&', 'i', 's', 'V', 'o', 'd', '='] + FlagText(flag);
  }

  lemma WrappedPieces(workerBase: string, full: string, flag: bool)
    ensures Wrapped(workerBase, full, flag)
      == workerBase + "?" + ((UrlParam + "=") + EncodeURIComponent(full) + ("&" + VodParam + "=" + FlagText(flag)))
  {
  }

  /** When the player follows a wrapped line, the worker is asked again
      with the `url` parameter decoding to exactly the absolute link, and
      the flag reading what it was set to: `isVod` for a child playlist,
      `true` for a VOD segment. Once a request is a VOD, every request the
      rewritten playlist leads to is one too. */
  lemma WrappedLineRoundTrip(workerBase: string, baseUrl: string, isVod: bool, line: string)
    requires KindOf(Trim(line)) == Uri
    requires Contains(Trim(line), PlaylistMark) || isVod
    ensures var out, full := RewriteLine(workerBase, baseUrl, isVod, line), AbsoluteLink(baseUrl, Trim(line));
      && StartsWith(out, workerBase + "?")
      && QueryGet(out[|workerBase| + 1..], UrlParam) == Some(full)
      && QueryGet(out[|workerBase| + 1..], VodParam) == Some(FlagText(isVod))
      && (isVod ==> IsVod(QueryGet(out[|workerBase| + 1..], VodParam), full))
  {
    var full := AbsoluteLink(baseUrl, Trim(line));
    assert RewriteLine(workerBase, baseUrl, isVod, line) == Wrapped(workerBase, full, isVod);
    WrappedParams(workerBase, full, isVod);
  }

  /** A wrapped link starts with the route and carries both parameters. */
  lemma WrappedParams(workerBase: string, full: string, flag: bool)
    ensures var out := Wrapped(workerBase, full, flag);
      && StartsWith(out, workerBase + "?")
      && QueryGet(out[|workerBase| + 1..], UrlParam) == Some(full)
      && QueryGet(out[|workerBase| + 1..], VodParam) == Some(FlagText(flag))
  {
    var q := WrappedQuery(full, flag);
    assert (workerBase + "?" + q)[|workerBase| + 1..] == q;
    assert (workerBase + "?" + q)[..|workerBase| + 1] == workerBase + "?";
    WrappedQueryParses(full, flag);
  }

  /** A live segment (no `.m3u8`, flag unset) bypasses the worker: the
      line becomes the absolute link itself, the trimmed line when it
      starts with `http`. */
  lemma LiveSegmentBare(workerBase: string, baseUrl: string, line: string)
    requires KindOf(Trim(line)) == Uri && !Contains(Trim(line), PlaylistMark)
    ensures RewriteLine(workerBase, baseUrl, false, line) == AbsoluteLink(baseUrl, Trim(line))
    ensures StartsWith(Trim(line), Http) ==> RewriteLine(workerBase, baseUrl, false, line) == Trim(line)
  {
  }

  /** Blank lines and tags come out as their trimmed text whatever the
      flag; a child playlist is wrapped either way, carrying the flag; and
      the flag changes exactly the URI lines. */
  lemma FlagDecidesSegmentsOnly(workerBase: string, baseUrl: string, line: string)
    ensures KindOf(Trim(line)) != Uri ==>
      RewriteLine(workerBase, baseUrl, true, line) == RewriteLine(workerBase, baseUrl, false, line) == Trim(line)
    ensures KindOf(Trim(line)) == Uri && Contains(Trim(line), PlaylistMark) ==>
      RewriteLine(workerBase, baseUrl, true, line) == Wrapped(workerBase, AbsoluteLink(baseUrl, Trim(line)), true)
      && RewriteLine(workerBase, baseUrl, false, line) == Wrapped(workerBase, AbsoluteLink(baseUrl, Trim(line)), false)
    ensures RewriteLine(workerBase, baseUrl, true, line) == RewriteLine(workerBase, baseUrl, false, line)
      <==> KindOf(Trim(line)) != Uri
  {
    var l := Trim(line);
    if KindOf(l) == Uri {
      var full := AbsoluteLink(baseUrl, l);
      var wt := Wrapped(workerBase, full, true);
      if Contains(l, PlaylistMark) {
        WrappedDiffers(workerBase, full);
      } else {
        assert wt[..|workerBase|] == workerBase;
        WrappedIsNotLink(workerBase, full);
      }
    }
  }

  /** The two flags give two different wrapped links: they differ in
      length. */
  lemma WrappedDiffers(workerBase: string, full: string)
    ensures Wrapped(workerBase, full, true) != Wrapped(workerBase, full, false)
  {
    WrappedLength(workerBase, full, true);
    WrappedLength(workerBase, full, false);
    assert |TrueText| == 4 && |FalseText| == 5;
  }

  lemma WrappedLength(workerBase: string, full: string, flag: bool)
    ensures |Wrapped(workerBase, full, flag)| == |workerBase| + 12 + |EncodeURIComponent(full)| + |FlagText(flag)|
  {
    assert |UrlParam| == 3 && |VodParam| == 5;
  }

  /** A wrapped link is longer than the link it wraps: the two cannot
      coincide. */
  lemma WrappedIsNotLink(workerBase: string, full: string)
    ensures Wrapped(workerBase, full, true) != full
  {
    EncodeLength(full);
    WrappedLength(workerBase, full, true);
  }

  /** The rewrite keeps the playlist's lines one for one (line `i` of the
      output is the rewrite of line `i` of the input), as long as no output
      line can hold a line break: the worker's address has none, and the
      target URL has none or every link is wrapped. */
  lemma RewriteKeepsLines(workerBase: string, targetUrl: string, isVod: bool, text: string)
    requires '\n' !in workerBase
    requires isVod || '\n' !in targetUrl
    ensures Split(RewritePlaylist(workerBase, targetUrl, isVod, text), '\n')
      == RewriteLines(workerBase, DirectoryOf(targetUrl), isVod, Split(text, '\n'))
    ensures |Split(RewritePlaylist(workerBase, targetUrl, isVod, text), '\n')| == |Split(text, '\n')|
  {
    var lines := Split(text, '\n');
    var baseUrl := DirectoryOf(targetUrl);
    var out := RewriteLines(workerBase, baseUrl, isVod, lines);
    forall i | 0 <= i < |out| ensures '\n' !in out[i] {
      RewriteLineOneLine(workerBase, targetUrl, isVod, lines[i]);
    }
    SplitJoin(out, '\n');
  }

  lemma RewriteLineOneLine(workerBase: string, targetUrl: string, isVod: bool, line: string)
    requires '\n' !in workerBase && '\n' !in line
    requires isVod || '\n' !in targetUrl
    ensures '\n' !in RewriteLine(workerBase, DirectoryOf(targetUrl), isVod, line)
  {
    var l := Trim(line);
    var d := DirectoryOf(targetUrl);
    var full := AbsoluteLink(d, l);
    TrimKeeps(line, '\n');
    if KindOf(l) == Uri {
      if Contains(l, PlaylistMark) {
        WrappedOneLine(workerBase, full, isVod);
      } else if isVod {
        WrappedOneLine(workerBase, full, true);
      } else {
        BareLinkOneLine(targetUrl, l);
      }
    }
  }

  lemma BareLinkOneLine(targetUrl: string, l: string)
    requires '\n' !in targetUrl && '\n' !in l
    ensures '\n' !in AbsoluteLink(DirectoryOf(targetUrl), l)
  {
    var d := DirectoryOf(targetUrl);
    assert targetUrl == d + targetUrl[|d|..];
    assert '\n' !in d;
  }

  /** `response.headers.get('Content-Type') || 'video/MP2T'`: a missing or
      empty header falls back to MPEG-TS. */
  function StreamType(header: Option<string>): (t: string)
    ensures t != []
    ensures header.Some? && header.value != [] ==> t == header.value
    ensures header.None? || header.value == [] ==> t == SegmentType
  {
    if header.Some? && header.value != [] then header.value else SegmentType
  }

  /** `handleProxy`, given the `url` and `isVod` parameters, the request's
      protocol and host, and the upstream answers: the playlist's text
      for a `.m3u8` target, the content type of the streamed answer
      otherwise. A rejected upstream call rejects the handler: it has no
      `try`. */
  function HandleProxy(target: Option<string>, vodParam: Option<string>, protocol: string, host: string,
                       playlist: Upstream<string>, stream: Upstream<Option<string>>): (r: Outcome)
    ensures Missing(target) <==> r == Done(Response(400, [], Text("URL manquante")))
    ensures !Missing(target) && Contains(target.value, PlaylistMark) && playlist.Got? ==>
      r == Done(Response(200, WithType(PlaylistType),
        Text(RewritePlaylist(WorkerBase(protocol, host), target.value, IsVod(vodParam, target.value), playlist.value))))
    ensures !Missing(target) && !Contains(target.value, PlaylistMark) && stream.Got? ==>
      r == Done(Response(200, WithType(StreamType(stream.value)), Upstream))
    ensures r.Rejected? <==>
      (!Missing(target) && if Contains(target.value, PlaylistMark) then playlist.Threw? else stream.Threw?)
  {
    if Missing(target) then Done(Response(400, [], Text("URL manquante")))
    else
      var url := target.value;
      var isVod := IsVod(vodParam, url);
      var workerBase := WorkerBase(protocol, host);
      if Contains(url, PlaylistMark) then
        match playlist
        case Got(text) => Done(Response(200, WithType(PlaylistType), Text(RewritePlaylist(workerBase, url, isVod, text))))
        case Threw(m) => Rejected(m)
      else
        match stream
        case Got(header) => Done(Response(200, WithType(StreamType(header)), Upstream))
        case Threw(m) => Rejected(m)
  }

  /** The only answer without `COMMON_HEADERS` is the missing-URL one:
      every other response the handler settles to allows any origin. */
  lemma ProxyCors(target: Option<string>, vodParam: Option<string>, protocol: string, host: string,
                  playlist: Upstream<string>, stream: Upstream<Option<string>>)
    ensures var r := HandleProxy(target, vodParam, protocol, host, playlist, stream);
      r.Done? ==>
        (Get(r.response.headers, AllowOrigin) == Some("*") <==> !Missing(target))
  {
    CommonAllowsAny();
  }
}
