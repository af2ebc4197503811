/** What both back ends share about Twitch itself: the playback token an
    upstream GraphQL call hands back, the master-playlist URLs built from
    it, and the normalisation of a channel name typed by a user. */
module Twitch {
  import opened JsText

  /** `{ value, signature }` of a playback access token. */
  datatype Token = Token(value: string, signature: string)

  /** `channelName.trim().toLowerCase()`. */
  function NormalizeLogin(name: string): (clean: string)
    ensures IsTrimmed(clean) && NoUpper(clean)
    ensures |clean| <= |name|
  {
    TrimShape(name);
    ToLowerIdempotent(Trim(name));
    LowerKeepsTrimmed(Trim(name));
    ToLower(Trim(name))
  }

  /** Lower-casing never turns an end character into white space or back. */
  lemma LowerKeepsTrimmed(s: string)
    requires IsTrimmed(s)
    ensures IsTrimmed(ToLower(s))
  {
    if s != [] {
      var t := ToLower(s);
      assert t[0] == LowerChar(s[0]) && t[|t| - 1] == LowerChar(s[|s| - 1]);
    }
  }

  /** A normalised name is its own normal form. */
  lemma NormalizeIdempotent(name: string)
    ensures NormalizeLogin(NormalizeLogin(name)) == NormalizeLogin(name)
  {
    var clean := NormalizeLogin(name);
    TrimIdentity(clean);
    ToLowerIdempotent(Trim(name));
  }

  /** White space around a name never changes its normal form. */
  lemma NormalizePadding(a: string, name: string, b: string)
    requires AllSpace(a) && AllSpace(b)
    ensures NormalizeLogin(a + name + b) == NormalizeLogin(name)
  {
    TrimAround(a, name, b);
  }

  /** Case never matters: a name and its lower-cased form normalise alike. */
  lemma NormalizeCaseBlind(name: string)
    ensures NormalizeLogin(ToLower(name)) == NormalizeLogin(name)
  {
    TrimShape(name);
    var r := Trim(name);
    var i, j := TrimBounds(name);
    LowerAppend(name[..i] + r, name[j..]);
    LowerAppend(name[..i], r);
    ToLowerSpace(name[..i]);
    ToLowerSpace(name[j..]);
    LowerKeepsTrimmed(r);
    TrimPadded(ToLower(name[..i]), ToLower(r), ToLower(name[j..]));
    ToLowerIdempotent(r);
  }

  lemma LowerAppend(a: string, b: string)
    ensures ToLower(a + b) == ToLower(a) + ToLower(b)
  {
    var l, r := ToLower(a + b), ToLower(a) + ToLower(b);
    assert forall k :: 0 <= k < |l| ==> l[k] == r[k];
  }

  const Usher: string := "https://usher.ttvnw.net"

  /** The master playlist of a live channel, as the server builds it. */
  function LiveMasterUrl(clean: string, t: Token): string
  {
    Usher + "/api/channel/hls/" + clean + ".m3u8" + LiveQuery(t)
  }

  function LiveQuery(t: Token): string
  {
    "?allow_source=true&allow_audio_only=true&allow_spectre=true&player=twitchweb"
    + "&playlist_include_framerate=true&segment_preference=4&sig=" + t.signature
    + "&token=" + t.value
  }

  /** The master playlist of a VOD, identical in both back ends. */
  function VodMasterUrl(vodId: string, t: Token): string
  {
    Usher + "/vod/" + vodId + ".m3u8" + VodQuery(t)
  }

  function VodQuery(t: Token): string
  {
    "?nauth=" + t.value + "&nauthsig=" + t.signature + "&allow_source=true&player_backend=mediaplayer"
  }

  /** Whatever the id and token, a VOD master URL is one the proxies treat
      as a playlist, and the worker as a VOD. */
  lemma VodMasterUrlShape(vodId: string, t: Token)
    ensures Contains(VodMasterUrl(vodId, t), "/vod/")
    ensures Contains(VodMasterUrl(vodId, t), ".m3u8")
  {
    var head := Usher + "/vod/" + vodId;
    ContainsInfix(Usher, "/vod/", vodId);
    ContainsPrefix(head, ".m3u8" + VodQuery(t), "/vod/");
    assert head + (".m3u8" + VodQuery(t)) == VodMasterUrl(vodId, t);
    ContainsInfix(head, ".m3u8", VodQuery(t));
  }

  /** A live master URL is a playlist URL for the proxies. */
  lemma LiveMasterUrlShape(clean: string, t: Token)
    ensures Contains(LiveMasterUrl(clean, t), ".m3u8")
  {
    ContainsInfix(Usher + "/api/channel/hls/" + clean, ".m3u8", LiveQuery(t));
  }
}
