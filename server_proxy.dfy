/** The Express server's `/api/proxy` route. A playlist (`.m3u8`) is fetched
    as text and every URI line is rewritten to come back through the proxy;
    anything else is streamed through untouched. */
module ServerProxy {
  import opened Wrappers
  import opened JsText
  import opened UriCodec
  import opened Playlist

  const ProxyPrefix: string := "/api/proxy?"
  const UrlParam: string := "url"

  /** `/api/proxy?url=${encodeURIComponent(full)}`. */
  function Proxied(full: string): string
  {
    ProxyPrefix + UrlParam + "=" + EncodeURIComponent(full)
  }

  /** The `map` callback over one line of the playlist. */
  function RewriteLine(baseUrl: string, line: string): string
  {
    var l := Trim(line);
    if KindOf(l) != Uri then l else Proxied(AbsoluteLink(baseUrl, l))
  }

  function RewriteLines(baseUrl: string, lines: seq<string>): seq<string>
  {
    seq(|lines|, i requires 0 <= i < |lines| => RewriteLine(baseUrl, lines[i]))
  }

  /** The rewritten playlist: split on `\n`, map, join on `\n`. */
  function RewritePlaylist(targetUrl: string, body: string): string
  {
    Join(RewriteLines(DirectoryOf(targetUrl), Split(body, '\n')), '\n')
  }

  lemma UrlParamPlain()
    ensures IsPlainName(UrlParam)
  {
    assert UrlParam == ['u', 'r', 'l'];
  }

  /** A proxied link is one line, starts with the route's prefix, and its
      `url` parameter decodes back to the link. */
  lemma ProxiedShape(full: string)
    ensures '\n' !in Proxied(full)
    ensures StartsWith(Proxied(full), ProxyPrefix)
    ensures QueryGet(Proxied(full)[|ProxyPrefix|..], UrlParam) == Some(full)
  {
    var e := EncodeURIComponent(full);
    var query := UrlParam + "=" + e;
    assert '\n' !in ProxyPrefix + query by {
      assert '\n' !in e by {
        assert !IsEncodedChar('\n');
        EncodedLacks(full, '\n');
      }
      assert ProxyPrefix + UrlParam + "=" == "/api/proxy?url=";
    }
    assert (ProxyPrefix + query)[|ProxyPrefix|..] == query;
    assert Proxied(full) == ProxyPrefix + query;
    UrlParamPlain();
    QueryOneParam(UrlParam, full);
  }

  /** No rewritten line holds a line break. */
  lemma RewriteLineOneLine(baseUrl: string, line: string)
    requires '\n' !in line
    ensures '\n' !in RewriteLine(baseUrl, line)
  {
    TrimKeeps(line, '\n');
    ProxiedShape(AbsoluteLink(baseUrl, Trim(line)));
  }

  /** The rewrite keeps the playlist's lines one for one: splitting the
      output on `\n` gives exactly the rewritten input lines, so the line
      count is preserved and line `i` of the output comes from line `i` of
      the input. */
  lemma RewriteKeepsLines(targetUrl: string, body: string)
    ensures Split(RewritePlaylist(targetUrl, body), '\n') == RewriteLines(DirectoryOf(targetUrl), Split(body, '\n'))
    ensures |Split(RewritePlaylist(targetUrl, body), '\n')| == |Split(body, '\n')|
  {
    var lines := Split(body, '\n');
    var out := RewriteLines(DirectoryOf(targetUrl), lines);
    forall i | 0 <= i < |out| ensures '\n' !in out[i] {
      RewriteLineOneLine(DirectoryOf(targetUrl), lines[i]);
    }
    SplitJoin(out, '\n');
  }

  /** Blank lines and tags come out as their trimmed text, and URI lines
      stay URI lines: the rewrite never changes a line's kind. */
  lemma RewriteLineKind(baseUrl: string, line: string)
    ensures KindOf(RewriteLine(baseUrl, line)) == KindOf(Trim(line))
    ensures KindOf(Trim(line)) != Uri ==> RewriteLine(baseUrl, line) == Trim(line)
  {
    if KindOf(Trim(line)) == Uri {
      var out := Proxied(AbsoluteLink(baseUrl, Trim(line)));
      ProxiedShape(AbsoluteLink(baseUrl, Trim(line)));
      assert out[0] == ProxyPrefix[0] == '/';
    }
  }

  /** Every URI line becomes a proxy URL whose `url` parameter decodes back
      to exactly the absolute link: what the proxy reads when the player
      follows it. */
  lemma ProxiedLinkRoundTrip(baseUrl: string, line: string)
    requires KindOf(Trim(line)) == Uri
    ensures var out := RewriteLine(baseUrl, line);
      StartsWith(out, ProxyPrefix)
      && QueryGet(out[|ProxyPrefix|..], UrlParam) == Some(AbsoluteLink(baseUrl, Trim(line)))
  {
    ProxiedShape(AbsoluteLink(baseUrl, Trim(line)));
  }

  /** What the route answers. */
  datatype ProxyReply =
    | MissingUrl                     // 400 `URL manquante`
    | Rewritten(playlist: string)    // 200, application/vnd.apple.mpegurl
    | Streamed(contentType: string)  // 200, the upstream body piped through
    | ProxyFailed                    // 500 `Erreur lors du proxy`

  /** The route, given the `url` parameter and the upstream answers: the
      playlist text (`None` when axios throws) or the streamed response's
      content type (`None` when axios throws). */
  function ProxyRoute(url: Option<string>, playlistText: Option<string>, streamType: Option<string>): (r: ProxyReply)
    ensures r == MissingUrl <==> url.None? || url.value == []
    ensures r.Rewritten? <==> url.Some? && url.value != [] && Contains(url.value, ".m3u8") && playlistText.Some?
    ensures r.Rewritten? ==> r.playlist == RewritePlaylist(url.value, playlistText.value)
    ensures r.Streamed? ==> !Contains(url.value, ".m3u8") && streamType == Some(r.contentType)
    ensures url.Some? && url.value != [] && !Contains(url.value, ".m3u8") && streamType.Some? ==>
      r == Streamed(streamType.value)
  {
    if url.None? || url.value == [] then MissingUrl
    else if Contains(url.value, ".m3u8") then
      match playlistText
      case Some(text) => Rewritten(RewritePlaylist(url.value, text))
      case None => ProxyFailed
    else
      match streamType
      case Some(t) => Streamed(t)
      case None => ProxyFailed
  }
}
