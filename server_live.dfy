/** The Express server's `/api/get-live` route: the channel name is
    normalised, the master playlist is fetched with a live token, and its
    variants are collected into a links object that starts with the master
    playlist itself. The token and the fetched body are inputs. */
module ServerLive {
  import opened Wrappers
  import opened JsText
  import opened JsObject
  import opened Playlist
  import opened Twitch

  const AutoMulti: string := "Auto (Multi-qualités)"
  const AutoLive: string := "Auto (Live)"

  /** The object the `forEach` over the playlist's lines ends with. */
  function LiveLinks(body: string, masterUrl: string): Entries<string, string>
  {
    Fold(Scan([(AutoMulti, masterUrl)], ""), Split(body, '\n')).links
  }

  /** The parsing loop, as written: `links` starts with the master playlist,
      `lastInfo` holds the pending label. */
  method ParseLive(body: string, masterUrl: string) returns (links: Entries<string, string>)
    ensures links == LiveLinks(body, masterUrl)
  {
    var lines := Split(body, '\n');
    ghost var start := Scan([(AutoMulti, masterUrl)], "");
    links := [(AutoMulti, masterUrl)];
    var lastInfo := "";
    for i := 0 to |lines|
      invariant Scan(links, lastInfo) == Fold(start, lines[..i])
    {
      var line := lines[i];
      ghost var before := Scan(links, lastInfo);
      FoldNext(start, lines, i);
      if StartsWith(line, StreamInf) {
        lastInfo := VariantLabel(line);
      } else if StartsWith(line, Http) {
        if lastInfo != "" {
          links := Put(links, lastInfo, line);
          lastInfo := "";
        }
      }
      assert Scan(links, lastInfo) == Step(before, line);
    }
    assert lines[..|lines|] == lines;
  }

  /** What the links object holds, in terms of the pairs the loop records
      (`Pairing`, whose pairs come from the input by `PairingAttested` and
      `RecordedPair`): the master entry stays first and keeps the master URL
      unless a variant carries its very label; keys are unique; every
      recorded label maps to the link recorded last under it; every entry
      but the master one is a recorded pair. */
  lemma LiveLinksContents(body: string, masterUrl: string)
    ensures var links, pairs := LiveLinks(body, masterUrl), Pairing("", Split(body, '\n'));
      && links == PutAll([(AutoMulti, masterUrl)], pairs)
      && |links| >= 1 && links[0].0 == AutoMulti
      && ((forall k :: 0 <= k < |pairs| ==> pairs[k].0 != AutoMulti) ==> links[0].1 == masterUrl)
      && UniqueKeys(links)
      && (forall k :: 0 <= k < |pairs| && (forall j :: k < j < |pairs| ==> pairs[j].0 != pairs[k].0) ==>
            Get(links, pairs[k].0) == Some(pairs[k].1))
      && (forall x :: x in links ==> x == (AutoMulti, masterUrl) || x in pairs)
  {
    var lines := Split(body, '\n');
    var start := [(AutoMulti, masterUrl)];
    var pairs := Pairing("", lines);
    var links := PutAll(start, pairs);
    assert LiveLinks(body, masterUrl) == links by {
      FoldIsPairing(Scan(start, ""), lines);
    }
    assert |links| >= 1 && links[0].0 == AutoMulti by {
      PutAllKeepsKeys(start, pairs);
    }
    assert UniqueKeys(links) by {
      PutAllUnique(start, pairs);
    }
    assert forall x :: x in links ==> x == (AutoMulti, masterUrl) || x in pairs by {
      PutAllOrigin(start, pairs);
    }
    MasterKept(start, pairs, AutoMulti, masterUrl);
    LastPairWins(start, pairs);
  }

  /** The master entry keeps its URL unless a pair carries its label. */
  lemma MasterKept(start: Entries<string, string>, pairs: seq<(string, string)>, auto: string, masterUrl: string)
    requires start == [(auto, masterUrl)]
    ensures |PutAll(start, pairs)| >= 1
    ensures (forall k :: 0 <= k < |pairs| ==> pairs[k].0 != auto) ==> PutAll(start, pairs)[0].1 == masterUrl
  {
    PutAllKeepsKeys(start, pairs);
    if forall k :: 0 <= k < |pairs| ==> pairs[k].0 != auto {
      var links := PutAll(start, pairs);
      PutAllUnique(start, pairs);
      PutAllUntouched(start, pairs, auto);
      GetUnique(links, 0);
    }
  }

  /** Every label maps to the link recorded last under it. */
  lemma LastPairWins(start: Entries<string, string>, pairs: seq<(string, string)>)
    ensures forall k :: 0 <= k < |pairs| && (forall j :: k < j < |pairs| ==> pairs[j].0 != pairs[k].0) ==>
      Get(PutAll(start, pairs), pairs[k].0) == Some(pairs[k].1)
  {
    forall k | 0 <= k < |pairs| && (forall j :: k < j < |pairs| ==> pairs[j].0 != pairs[k].0)
      ensures Get(PutAll(start, pairs), pairs[k].0) == Some(pairs[k].1)
    {
      PutAllGetLast(start, pairs, k);
    }
  }

  /** The route's answer. */
  datatype LiveReply =
    | MissingName                                           // 400 `Nom de chaîne manquant`
    | Offline                                               // 404 `Live introuvable ...`
    | Links(links: Entries<string, string>, best: string)   // 200 `{ links, best }`

  /** The route, given the `name` query parameter, the token the upstream
      lookup returns for the normalised name and the fetched playlist body
      (`None` when the fetch throws). */
  method GetLive(name: Option<string>, token: Option<Token>, fetched: Option<string>) returns (reply: LiveReply)
    ensures name.None? || name.value == "" <==> reply == MissingName
    ensures name.Some? && name.value != "" && token.None? <==> reply == Offline
    ensures reply.Links? ==> name.Some? && token.Some? && reply.best == LiveMasterUrl(NormalizeLogin(name.value), token.value)
    ensures reply.Links? && fetched.None? ==> reply.links == [(AutoLive, reply.best)]
    ensures reply.Links? && fetched.Some? ==> reply.links == LiveLinks(fetched.value, reply.best)
  {
    if name.None? || name.value == "" {
      return MissingName;
    }
    var clean := NormalizeLogin(name.value);
    if token.None? {
      return Offline;
    }
    var masterUrl := LiveMasterUrl(clean, token.value);
    if fetched.None? {
      return Links([(AutoLive, masterUrl)], masterUrl);
    }
    var links := ParseLive(fetched.value, masterUrl);
    return Links(links, masterUrl);
  }
}
