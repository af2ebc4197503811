/** The Express server's storyboard probe (`storyboardHack`): from the URL
    of a VOD's seek-preview images it derives the storage id of the VOD,
    probes one candidate playlist per quality of `QUALITY_ORDER`, and keeps
    the qualities whose probe answered 200, sorted back into
    `QUALITY_ORDER`. The parsed URL, the probe outcomes and the order in
    which the concurrent probes complete are inputs. */
module ServerStoryboard {
  import opened Wrappers
  import opened JsText
  import opened JsObject

  /** Best to worst. */
  const QualityOrder: seq<string> :=
    ["chunked", "source", "1080p60", "1080p30", "720p60", "720p30", "480p30", "360p30", "160p30", "audio_only"]

  const Storyboards: string := "storyboards"

  lemma QualityOrderDistinct()
    ensures Distinct(QualityOrder)
  {
  }

  /** `paths.findIndex(e => e.includes("storyboards"))`, with `|paths|` for
      `-1`. */
  function FirstMention(paths: seq<string>, i: nat): (k: nat)
    requires i <= |paths|
    ensures i <= k <= |paths|
    ensures k < |paths| ==> Contains(paths[k], Storyboards)
    ensures forall j :: i <= j < k ==> !Contains(paths[j], Storyboards)
    decreases |paths| - i
  {
    if i == |paths| || Contains(paths[i], Storyboards) then i else FirstMention(paths, i + 1)
  }

  /** `paths[storyboardIndex - 1]` as the template string shows it: the
      segment before the first one mentioning `storyboards`, or
      `"undefined"` when that is the very first segment. `None` when no
      segment mentions it. */
  function StorageId(pathname: string): Option<string>
  {
    var paths := Split(pathname, '/');
    var k := FirstMention(paths, 0);
    if k == |paths| then None
    else if k == 0 then Some("undefined")
    else Some(paths[k - 1])
  }

  /** A pathname starts with `/`, so its first segment is empty and never
      the one that mentions `storyboards`: the id is always a real segment,
      the one just before the first mention. */
  lemma StorageIdOfPathname(pathname: string)
    requires StartsWith(pathname, "/")
    ensures var paths := Split(pathname, '/');
      var k := FirstMention(paths, 0);
      k != 0 && (k < |paths| ==> StorageId(pathname) == Some(paths[k - 1]))
  {
    var paths := Split(pathname, '/');
    assert pathname[0] == '/';
    assert paths[0] == [];
    assert !Contains([], Storyboards);
  }

  /** `https://${domain}/${vodSpecialID}/${q}/index-dvr.m3u8`. */
  function Candidate(host: string, id: string, q: string): (url: string)
    ensures url != []
  {
    "https://" + host + "/" + id + "/" + q + "/index-dvr.m3u8"
  }

  /** The entries `(q, candidate)` of the qualities among `qs` whose probe
      succeeds, in the order of `qs`. */
  function Probed(host: string, id: string, probe: string -> bool, qs: seq<string>): Entries<string, string>
  {
    if qs == [] then []
    else
      var q := qs[|qs| - 1];
      Probed(host, id, probe, qs[..|qs| - 1])
      + (if probe(Candidate(host, id, q)) then [(q, Candidate(host, id, q))] else [])
  }

  /** What `storyboardHack` resolves to, for the seek-preview URL `seek`,
      its parse `parsed` (`(host, pathname)`, `None` when `new URL` throws)
      and the outcome `probe(url)` of `checkLink(url)`. */
  function StoryboardSpec(seek: string, parsed: Option<(string, string)>, probe: string -> bool): Option<Entries<string, string>>
  {
    if seek == [] || parsed.None? then None
    else match StorageId(parsed.value.1)
      case None => None
      case Some(id) =>
        var links := Probed(parsed.value.0, id, probe, QualityOrder);
        if links == [] then None else Some(links)
  }

  predicate Distinct(qs: seq<string>)
  {
    forall i, j :: 0 <= i < j < |qs| ==> qs[i] != qs[j]
  }

  /** The indices `0 .. n - 1`, in order. */
  function Indices(n: nat): (r: seq<nat>)
    ensures |r| == n && forall i :: 0 <= i < n ==> r[i] == i
  {
    seq(n, i => i)
  }

  /** The probes complete in the order `completion`: every quality index
      exactly once, in some order. */
  predicate IsCompletionOrder(completion: seq<nat>, n: nat)
  {
    multiset(completion) == multiset(Indices(n))
  }

  /** The probe callbacks: each one that sees status 200 assigns its URL
      to its quality in `unsortedLinks`, in the order the probes complete.
      Whatever that order, afterwards each quality holds its candidate
      exactly when its probe succeeded. */
  method ProbeAll(host: string, id: string, probe: string -> bool, qualities: seq<string>, completion: seq<nat>)
    returns (unsorted: Entries<string, string>)
    requires Distinct(qualities) && IsCompletionOrder(completion, |qualities|)
    ensures forall k :: 0 <= k < |qualities| ==>
      Get(unsorted, qualities[k]) ==
        (if probe(Candidate(host, id, qualities[k])) then Some(Candidate(host, id, qualities[k])) else None)
  {
    unsorted := [];
    for j := 0 to |completion|
      invariant forall k :: 0 <= k < |qualities| ==>
        Get(unsorted, qualities[k]) ==
          (if k in completion[..j] && probe(Candidate(host, id, qualities[k]))
           then Some(Candidate(host, id, qualities[k])) else None)
    {
      var c := completion[j];
      assert c in multiset(Indices(|qualities|)) by {
        assert c in multiset(completion);
      }
      var q := qualities[c];
      var url := Candidate(host, id, q);
      assert completion[..j + 1] == completion[..j] + [c];
      if probe(url) {
        forall k | 0 <= k < |qualities| && k != c
          ensures Get(Put(unsorted, q, url), qualities[k]) == Get(unsorted, qualities[k])
        {
          PutGetOther(unsorted, q, url, qualities[k]);
        }
        unsorted := Put(unsorted, q, url);
      }
    }
    forall k | 0 <= k < |qualities| ensures k in completion {
      assert Indices(|qualities|)[k] == k;
      assert k in multiset(Indices(|qualities|));
    }
    assert completion[..|completion|] == completion;
  }

  /** The loop over `QUALITY_ORDER` that copies every stored quality into
      `sortedLinks`: the successful candidates in quality order. */
  method SortByOrder(unsorted: Entries<string, string>, host: string, id: string, probe: string -> bool, qualities: seq<string>)
    returns (sorted: Entries<string, string>)
    requires Distinct(qualities)
    requires forall k :: 0 <= k < |qualities| ==>
      Get(unsorted, qualities[k]) ==
        (if probe(Candidate(host, id, qualities[k])) then Some(Candidate(host, id, qualities[k])) else None)
    ensures sorted == Probed(host, id, probe, qualities)
  {
    sorted := [];
    for k := 0 to |qualities|
      invariant sorted == Probed(host, id, probe, qualities[..k])
      invariant forall i :: 0 <= i < |sorted| ==> sorted[i].0 in qualities[..k]
    {
      var quality := qualities[k];
      assert qualities[..k + 1][..k] == qualities[..k];
      var stored := Get(unsorted, quality);
      if stored.Some? && stored.value != [] {
        sorted := Put(sorted, quality, stored.value);
      }
    }
    assert qualities[..|qualities|] == qualities;
  }

  /** `storyboardHack`, as the server runs it. The answer does not depend
      on the order in which the probes complete. */
  method StoryboardHack(seek: string, parsed: Option<(string, string)>, probe: string -> bool, completion: seq<nat>)
    returns (result: Option<Entries<string, string>>)
    requires IsCompletionOrder(completion, |QualityOrder|)
    ensures result == StoryboardSpec(seek, parsed, probe)
  {
    if seek == [] || parsed.None? {
      return None;
    }
    var host, pathname := parsed.value.0, parsed.value.1;
    var paths := Split(pathname, '/');
    var index := FirstMention(paths, 0);
    if index == |paths| {
      return None;
    }
    var id := if index == 0 then "undefined" else paths[index - 1];
    QualityOrderDistinct();
    var unsorted := ProbeAll(host, id, probe, QualityOrder, completion);
    var sorted := SortByOrder(unsorted, host, id, probe, QualityOrder);
    if |sorted| > 0 {
      return Some(sorted);
    }
    return None;
  }

  /** Index of the first occurrence of `q` in `qs`, `|qs|` when absent. */
  function PositionIn(qs: seq<string>, q: string): (i: nat)
    ensures i <= |qs|
    ensures i < |qs| ==> qs[i] == q
    ensures forall j :: 0 <= j < i ==> qs[j] != q
  {
    if qs == [] then 0 else if qs[0] == q then 0 else 1 + PositionIn(qs[1..], q)
  }

  /** The probe keeps exactly the successful qualities, each mapped to its
      candidate URL, each once, in the order of `qs`. */
  lemma {:induction false} ProbedContents(host: string, id: string, probe: string -> bool, qs: seq<string>)
    requires Distinct(qs)
    ensures var links := Probed(host, id, probe, qs);
      && (forall x :: x in links ==> x.0 in qs && x.1 == Candidate(host, id, x.0) && probe(x.1))
      && (forall k :: 0 <= k < |qs| && probe(Candidate(host, id, qs[k])) ==> (qs[k], Candidate(host, id, qs[k])) in links)
      && (forall i, j :: 0 <= i < j < |links| ==> PositionIn(qs, links[i].0) < PositionIn(qs, links[j].0))
    decreases |qs|
  {
    if qs != [] {
      var init, q := qs[..|qs| - 1], qs[|qs| - 1];
      assert Distinct(init);
      ProbedContents(host, id, probe, init);
      var head := Probed(host, id, probe, init);
      var links := Probed(host, id, probe, qs);
      assert qs == init + [q];
      forall x | x in head ensures PositionIn(qs, x.0) == PositionIn(init, x.0) < |init| {
        PositionPrefix(init, q, x.0);
      }
      assert PositionIn(qs, q) == |init| by {
        PositionLast(init, q);
      }
      forall i, j | 0 <= i < j < |links| ensures PositionIn(qs, links[i].0) < PositionIn(qs, links[j].0) {
        assert links[i] in head;
        if j < |head| {
          assert links[j] in head;
        }
      }
    }
  }

  lemma PositionPrefix(init: seq<string>, q: string, x: string)
    requires x in init
    ensures PositionIn(init + [q], x) == PositionIn(init, x) < |init|
  {
    PositionOfIndex(init + [q], x, PositionIn(init, x));
  }

  lemma PositionLast(init: seq<string>, q: string)
    requires q !in init
    ensures PositionIn(init + [q], q) == |init|
  {
    PositionOfIndex(init + [q], q, |init|);
  }

  /** The first index holding `q` is where `q` stands, when nothing before
      holds it. */
  lemma {:induction false} PositionOfIndex(qs: seq<string>, q: string, i: nat)
    requires i < |qs| && qs[i] == q
    requires forall j :: 0 <= j < i ==> qs[j] != q
    ensures PositionIn(qs, q) == i
  {
    if i > 0 {
      PositionOfIndex(qs[1..], q, i - 1);
    }
  }

  /** The probe yields `null` exactly when the seek-preview URL is empty or
      does not parse, when no path segment mentions `storyboards`, or when
      no probe succeeds; never an empty object. */
  lemma StoryboardNull(seek: string, parsed: Option<(string, string)>, probe: string -> bool)
    ensures StoryboardSpec(seek, parsed, probe).None? <==>
      seek == [] || parsed.None? || StorageId(parsed.value.1).None?
      || (forall k :: 0 <= k < |QualityOrder| ==>
            !probe(Candidate(parsed.value.0, StorageId(parsed.value.1).value, QualityOrder[k])))
    ensures StoryboardSpec(seek, parsed, probe).Some? ==> StoryboardSpec(seek, parsed, probe).value != []
  {
    if seek != [] && parsed.Some? && StorageId(parsed.value.1).Some? {
      QualityOrderDistinct();
      ProbedEmpty(parsed.value.0, StorageId(parsed.value.1).value, probe, QualityOrder);
    }
  }

  /** No entry comes out exactly when no probe succeeds. */
  lemma ProbedEmpty(host: string, id: string, probe: string -> bool, qs: seq<string>)
    requires Distinct(qs)
    ensures Probed(host, id, probe, qs) == [] <==> forall k :: 0 <= k < |qs| ==> !probe(Candidate(host, id, qs[k]))
  {
    var links := Probed(host, id, probe, qs);
    ProbedContents(host, id, probe, qs);
    if links != [] {
      assert links[0] in links;
      var k :| 0 <= k < |qs| && qs[k] == links[0].0;
      assert probe(Candidate(host, id, qs[k]));
    }
  }

}
