/** HLS master-playlist reading shared by the Express server's live route and
    the worker's `parseM3U8`: the line kinds of section 4.1 of RFC 8216, the
    two regular expressions that read an `#EXT-X-STREAM-INF` line
    (section 4.3.4.2 of RFC 8216), the label built from them, and the
    pending-label state machine that pairs each variant tag with the next
    `http` line. */
module Playlist {
  import opened Wrappers
  import opened JsText
  import opened JsObject

  // ---------------------------------------------------------------------
  // Line kinds
  // ---------------------------------------------------------------------

  /** The kinds a trimmed playlist line can have: blank, a tag or comment
      (it starts with `#`), or a URI. */
  datatype LineKind = Blank | Tag | Uri

  function KindOf(l: string): (k: LineKind)
    ensures k == Blank <==> l == []
    ensures k == Tag <==> StartsWith(l, "#")
  {
    if l == [] then Blank else if l[0] == '#' then Tag else Uri
  }

  // ---------------------------------------------------------------------
  // The two attribute scanners
  // ---------------------------------------------------------------------

  /** `\d`: an ASCII digit. */
  predicate IsDigit(c: char)
  {
    '0' <= c <= '9'
  }

  predicate AllDigits(s: string)
  {
    forall i :: 0 <= i < |s| ==> IsDigit(s[i])
  }

  /** Length of the longest run of digits starting at `i`: what a greedy
      `\d+` consumes. */
  function DigitRun(s: string, i: nat): (n: nat)
    requires i <= |s|
    ensures i + n <= |s|
    ensures forall j :: i <= j < i + n ==> IsDigit(s[j])
    ensures i + n == |s| || !IsDigit(s[i + n])
    decreases |s| - i
  {
    if i < |s| && IsDigit(s[i]) then 1 + DigitRun(s, i + 1) else 0
  }

  /** Length of the longest run without `"` starting at `i`: what a greedy
      `[^"]+` consumes. */
  function QuoteFreeRun(s: string, i: nat): (n: nat)
    requires i <= |s|
    ensures i + n <= |s|
    ensures forall j :: i <= j < i + n ==> s[j] != '"'
    ensures i + n == |s| || s[i + n] == '"'
    decreases |s| - i
  {
    if i < |s| && s[i] != '"' then 1 + QuoteFreeRun(s, i + 1) else 0
  }

  /** `WxH` with both sides non-empty runs of digits. */
  predicate IsResolutionText(v: string)
  {
    exists k :: 0 < k < |v| - 1 && v[k] == 'x' && AllDigits(v[..k]) && AllDigits(v[k + 1..])
  }

  /** The two patterns: `/RESOLUTION=(\d+x\d+)/` and `/VIDEO="([^"]+)"/`. */
  datatype Pattern = Resolution | Video

  const ResolutionKey: string := "RESOLUTION="
  const VideoKey: string := "VIDEO=\""

  /** Two digit runs around an `x` make a resolution. */
  lemma ResolutionSlice(s: string, a: nat, w: nat, h: nat)
    requires 0 < w && 0 < h && a + w + 1 + h <= |s| && s[a + w] == 'x'
    requires forall j :: a <= j < a + w ==> IsDigit(s[j])
    requires forall j :: a + w + 1 <= j < a + w + 1 + h ==> IsDigit(s[j])
    ensures IsResolutionText(s[a..a + w + 1 + h])
  {
    var v := s[a..a + w + 1 + h];
    assert forall j :: 0 <= j < |v| ==> v[j] == s[a + j];
    assert v[w] == 'x';
    assert AllDigits(v[..w]);
    assert AllDigits(v[w + 1..]);
  }

  /** A non-empty run free of `"` holds no `"`. */
  lemma QuoteFreeSlice(s: string, a: nat, n: nat)
    requires 0 < n && a + n <= |s|
    requires forall j :: a <= j < a + n ==> s[j] != '"'
    ensures s[a..a + n] != [] && '"' !in s[a..a + n]
  {
    var v := s[a..a + n];
    assert forall j :: 0 <= j < n ==> v[j] == s[a + j];
  }

  /** The capture group of `p` when a match starts at index `i` of `s`.
      Backtracking cannot help either pattern: a shorter digit run is
      followed by a digit, not by `x`, and a shorter quote-free run by a
      character that is not `"`, so the greedy runs decide. */
  function MatchAt(p: Pattern, s: string, i: nat): (r: Option<string>)
    ensures r.Some? ==> i <= |s|
    ensures p == Resolution && r.Some? ==> IsResolutionText(r.value)
    ensures p == Video && r.Some? ==> r.value != [] && '"' !in r.value
  {
    match p
    case Resolution =>
      var a := i + |ResolutionKey|;
      if a <= |s| && s[i..a] == ResolutionKey then
        var w := DigitRun(s, a);
        if w > 0 && a + w < |s| && s[a + w] == 'x' then
          var h := DigitRun(s, a + w + 1);
          if h > 0 then
            ResolutionSlice(s, a, w, h);
            Some(s[a..a + w + 1 + h])
          else None
        else None
      else None
    case Video =>
      var a := i + |VideoKey|;
      if a <= |s| && s[i..a] == VideoKey then
        var n := QuoteFreeRun(s, a);
        if n > 0 && a + n < |s| then
          QuoteFreeSlice(s, a, n);
          Some(s[a..a + n])
        else None
      else None
  }

  /** The first index from `i` on where `p` matches, or `|s| + 1`. */
  function LeftmostFrom(p: Pattern, s: string, i: nat): (j: nat)
    requires i <= |s| + 1
    ensures i <= j <= |s| + 1
    ensures j <= |s| ==> MatchAt(p, s, j).Some?
    ensures forall k :: i <= k < j ==> MatchAt(p, s, k).None?
    decreases |s| + 1 - i
  {
    if i > |s| || MatchAt(p, s, i).Some? then i else LeftmostFrom(p, s, i + 1)
  }

  /** `line.match(re)` read through its capture group: the group of the
      leftmost match, `None` for `null`. */
  function Find(p: Pattern, s: string): Option<string>
  {
    var j := LeftmostFrom(p, s, 0);
    if j <= |s| then MatchAt(p, s, j) else None
  }

  /** `Find` is the leftmost match: no match at all gives `None`, otherwise
      the capture at the first index where the pattern matches. */
  lemma FindIsLeftmost(p: Pattern, s: string)
    ensures Find(p, s).None? <==> forall k: nat :: MatchAt(p, s, k).None?
    ensures Find(p, s).Some? ==>
      exists k: nat :: MatchAt(p, s, k) == Find(p, s) && forall j :: 0 <= j < k ==> MatchAt(p, s, j).None?
  {
    var j := LeftmostFrom(p, s, 0);
    if j <= |s| {
      assert MatchAt(p, s, j) == Find(p, s);
    }
  }

  // ---------------------------------------------------------------------
  // Variant labels
  // ---------------------------------------------------------------------

  const Unknown: string := "Inconnue"
  const SourceBest: string := "Source (Best)"
  const Chunked: string := "chunked"

  /** `nameMatch ? nameMatch[1] : "Inconnue"`. */
  function VideoName(line: string): (name: string)
    ensures name != []
  {
    match Find(Video, line)
    case Some(v) => v
    case None => Unknown
  }

  /** A pattern containing a character that `s` lacks does not occur in it. */
  lemma Lacks(s: string, p: string, c: char)
    requires c in p && c !in s
    ensures !Contains(s, p)
  {
    ContainsIff(s, p);
  }

  /** Neither fixed label mentions `chunked`. */
  lemma FixedLabelsPlain()
    ensures !Contains(SourceBest, Chunked) && !Contains(Unknown, Chunked)
  {
    assert forall i :: 0 <= i < |SourceBest| ==> SourceBest[i] != 'k';
    assert forall i :: 0 <= i < |Unknown| ==> Unknown[i] != 'k';
    Lacks(SourceBest, Chunked, 'k');
    Lacks(Unknown, Chunked, 'k');
  }

  /** The name followed by ` (WxH)` when the line has a resolution. */
  function Composed(line: string): (full: string)
    ensures StartsWith(full, VideoName(line))
  {
    match Find(Resolution, line)
    case Some(r) => VideoName(line) + " (" + r + ")"
    case None => VideoName(line)
  }

  /** The label of a variant: the `VIDEO` name (or `Inconnue`) followed by
      ` (WxH)` when the line has a resolution, and `Source (Best)` for
      anything that mentions `chunked`. */
  function VariantLabel(line: string): (text: string)
    ensures text != []
    ensures !Contains(text, Chunked)
  {
    FixedLabelsPlain();
    if Contains(Composed(line), Chunked) then SourceBest else Composed(line)
  }

  /** How the label relates to the two captures: a `chunked` name always
      gives `Source (Best)`; otherwise the label starts with the name; a
      line with neither capture is `Inconnue`. */
  lemma LabelFormation(line: string)
    ensures Contains(VideoName(line), Chunked) ==> VariantLabel(line) == SourceBest
    ensures VariantLabel(line) == SourceBest || StartsWith(VariantLabel(line), VideoName(line))
    ensures Find(Video, line).None? && Find(Resolution, line).None? ==> VariantLabel(line) == Unknown
  {
    FixedLabelsPlain();
    if Contains(VideoName(line), Chunked) {
      ContainsStart(Composed(line), VideoName(line), Chunked);
    }
  }

  // ---------------------------------------------------------------------
  // The pending-label state machine
  // ---------------------------------------------------------------------

  const StreamInf: string := "#EXT-X-STREAM-INF"
  const Http: string := "http"

  /** `l.startsWith('http') ? l : baseUrl + l`: plain concatenation onto the
      playlist's directory, no resolution of `..` or `/`. */
  function AbsoluteLink(baseUrl: string, l: string): string
  {
    if StartsWith(l, Http) then l else baseUrl + l
  }

  /** A relative URI line is resolved against everything up to and
      including the last `/` of the playlist URL. */
  lemma AbsoluteLinkOfRelative(targetUrl: string, l: string)
    requires !StartsWith(l, Http)
    ensures var full := AbsoluteLink(DirectoryOf(targetUrl), l);
      StartsWith(targetUrl, full[..|DirectoryOf(targetUrl)|])
      && full[|DirectoryOf(targetUrl)|..] == l
      && '/' !in targetUrl[|DirectoryOf(targetUrl)|..]
  {
    var d := DirectoryOf(targetUrl);
    assert (d + l)[..|d|] == d;
  }

  predicate IsVariantTag(line: string)
  {
    StartsWith(line, StreamInf)
  }

  predicate IsLink(line: string)
  {
    StartsWith(line, Http)
  }

  /** An `http` line is never a variant tag, so the order of the two tests
      in the loop does not matter. */
  lemma LinkIsNoTag(line: string)
    requires IsLink(line)
    ensures !IsVariantTag(line)
  {
    assert line[0] == line[..|Http|][0] == 'h';
  }

  /** A line that neither announces a variant nor is an `http` link. */
  predicate Inert(line: string)
  {
    !IsVariantTag(line) && !IsLink(line)
  }

  /** The loop state: the object built so far and `lastInfo`, the label
      waiting for its link (`""` when none is). */
  datatype Scan = Scan(links: Entries<string, string>, pending: string)

  /** One iteration of the `forEach`: a variant tag replaces the pending
      label; an `http` line is stored under the pending label, if any, and
      clears it; every other line changes nothing. Lines are not trimmed. */
  function Step(st: Scan, line: string): Scan
  {
    if IsVariantTag(line) then Scan(st.links, VariantLabel(line))
    else if IsLink(line) && st.pending != "" then Scan(Put(st.links, st.pending, line), "")
    else st
  }

  function Fold(st: Scan, lines: seq<string>): Scan
    decreases |lines|
  {
    if lines == [] then st else Fold(Step(st, lines[0]), lines[1..])
  }

  lemma {:induction false} FoldAppend(st: Scan, a: seq<string>, b: seq<string>)
    ensures Fold(st, a + b) == Fold(Fold(st, a), b)
    decreases |a|
  {
    if a == [] {
      assert a + b == b;
    } else {
      assert (a + b)[0] == a[0] && (a + b)[1..] == a[1..] + b;
      FoldAppend(Step(st, a[0]), a[1..], b);
    }
  }

  /** The loop's step: one more line is one more `Step`. */
  lemma FoldSnoc(st: Scan, a: seq<string>, x: string)
    ensures Fold(st, a + [x]) == Step(Fold(st, a), x)
  {
    FoldAppend(st, a, [x]);
    assert [x][1..] == [];
  }

  /** The state after `i + 1` lines is one step on from the state after `i`. */
  lemma FoldNext(st: Scan, lines: seq<string>, i: nat)
    requires i < |lines|
    ensures Fold(st, lines[..i + 1]) == Step(Fold(st, lines[..i]), lines[i])
  {
    assert lines[..i + 1] == lines[..i] + [lines[i]];
    FoldSnoc(st, lines[..i], lines[i]);
  }

  /** A line that is neither a variant tag nor a link can be deleted
      without changing the outcome. */
  lemma IgnoredLine(st: Scan, a: seq<string>, x: string, b: seq<string>)
    requires Inert(x)
    ensures Fold(st, a + [x] + b) == Fold(st, a + b)
  {
    FoldAppend(st, a + [x], b);
    FoldSnoc(st, a, x);
    FoldAppend(st, a, b);
  }

  /** The `(label, link)` pairs the loop stores, in the order it stores
      them, starting with `pending` as the waiting label. */
  function Pairing(pending: string, lines: seq<string>): seq<(string, string)>
    decreases |lines|
  {
    if lines == [] then []
    else if IsVariantTag(lines[0]) then Pairing(VariantLabel(lines[0]), lines[1..])
    else if IsLink(lines[0]) && pending != "" then [(pending, lines[0])] + Pairing("", lines[1..])
    else Pairing(pending, lines[1..])
  }

  /** The label still waiting after `lines`. */
  function PendingAfter(pending: string, lines: seq<string>): string
    decreases |lines|
  {
    if lines == [] then pending
    else if IsVariantTag(lines[0]) then PendingAfter(VariantLabel(lines[0]), lines[1..])
    else if IsLink(lines[0]) && pending != "" then PendingAfter("", lines[1..])
    else PendingAfter(pending, lines[1..])
  }

  /** The loop is the pairing followed by plain object assignment: the
      object ends as the pairs assigned in order onto the initial one. */
  lemma {:induction false} FoldIsPairing(st: Scan, lines: seq<string>)
    ensures Fold(st, lines).links == PutAll(st.links, Pairing(st.pending, lines))
    ensures Fold(st, lines).pending == PendingAfter(st.pending, lines)
    decreases |lines|
  {
    if lines != [] {
      var x := lines[0];
      FoldIsPairing(Step(st, x), lines[1..]);
      if !IsVariantTag(x) && IsLink(x) && st.pending != "" {
        var p := (st.pending, x);
        assert ([p] + Pairing("", lines[1..]))[0] == p;
        assert ([p] + Pairing("", lines[1..]))[1..] == Pairing("", lines[1..]);
      }
    }
  }

  lemma {:induction false} PairingAppend(p: string, a: seq<string>, b: seq<string>)
    ensures Pairing(p, a + b) == Pairing(p, a) + Pairing(PendingAfter(p, a), b)
    ensures PendingAfter(p, a + b) == PendingAfter(PendingAfter(p, a), b)
    decreases |a|
  {
    if a == [] {
      assert a + b == b;
    } else {
      assert (a + b)[0] == a[0] && (a + b)[1..] == a[1..] + b;
      if IsVariantTag(a[0]) {
        PairingAppend(VariantLabel(a[0]), a[1..], b);
      } else if IsLink(a[0]) && p != "" {
        PairingAppend("", a[1..], b);
      } else {
        PairingAppend(p, a[1..], b);
      }
    }
  }

  lemma {:induction false} InertLines(p: string, m: seq<string>)
    requires forall i :: 0 <= i < |m| ==> Inert(m[i])
    ensures Pairing(p, m) == [] && PendingAfter(p, m) == p
    decreases |m|
  {
    if m != [] {
      InertLines(p, m[1..]);
    }
  }

  /** A pending label meets its link across lines that change nothing. */
  lemma PendingMeetsLink(lab: string, m: seq<string>, u: string, b: seq<string>)
    requires lab != [] && IsLink(u)
    requires forall i :: 0 <= i < |m| ==> Inert(m[i])
    ensures |Pairing(lab, m + ([u] + b))| > 0 && Pairing(lab, m + ([u] + b))[0] == (lab, u)
  {
    PairingAppend(lab, m, [u] + b);
    InertLines(lab, m);
    LinkIsNoTag(u);
    assert ([u] + b)[0] == u && ([u] + b)[1..] == b;
  }

  /** Nothing is lost: a variant tag followed, after lines that are neither
      tags nor links, by an `http` line records that line under the tag's
      label. */
  lemma RecordedPair(p: string, a: seq<string>, s: string, m: seq<string>, u: string, b: seq<string>)
    requires IsVariantTag(s) && IsLink(u)
    requires forall i :: 0 <= i < |m| ==> Inert(m[i])
    ensures (VariantLabel(s), u) in Pairing(p, a + [s] + m + [u] + b)
  {
    var rest := m + ([u] + b);
    assert a + [s] + m + [u] + b == a + ([s] + rest);
    PairingAppend(p, a, [s] + rest);
    var q := PendingAfter(p, a);
    assert ([s] + rest)[0] == s && ([s] + rest)[1..] == rest;
    assert Pairing(q, [s] + rest) == Pairing(VariantLabel(s), rest);
    PendingMeetsLink(VariantLabel(s), m, u, b);
    var head := Pairing(p, a);
    assert (head + Pairing(q, [s] + rest))[|head|] == (VariantLabel(s), u);
  }

  /** The label of some variant tag among `lines`. */
  predicate LabelOf(lines: seq<string>, name: string)
  {
    exists i :: 0 <= i < |lines| && IsVariantTag(lines[i]) && VariantLabel(lines[i]) == name
  }

  /** Nothing is invented: every stored pair is an `http` line of the input
      under a non-empty label that a variant tag of the input produced (or
      the label already pending at the start). */
  lemma {:induction false} PairingAttested(p: string, lines: seq<string>)
    ensures forall pr :: pr in Pairing(p, lines) ==>
      pr.0 != [] && IsLink(pr.1) && pr.1 in lines && (pr.0 == p || LabelOf(lines, pr.0))
    decreases |lines|
  {
    if lines != [] {
      var x, rest := lines[0], lines[1..];
      var q := if IsVariantTag(x) then VariantLabel(x) else if IsLink(x) && p != "" then "" else p;
      PairingAttested(q, rest);
      forall pr | pr in Pairing(p, lines)
        ensures pr.0 != [] && IsLink(pr.1) && pr.1 in lines && (pr.0 == p || LabelOf(lines, pr.0))
      {
        if pr in Pairing(q, rest) {
          AttestedTail(p, x, rest, q, pr);
        } else {
          assert !IsVariantTag(x) && IsLink(x) && p != "";
          assert Pairing(p, lines) == [(p, x)] + Pairing("", rest);
          assert pr == (p, x);
        }
      }
    }
  }

  /** A pair stored after the first line is attested by the whole input. */
  lemma AttestedTail(p: string, x: string, rest: seq<string>, q: string, pr: (string, string))
    requires q == if IsVariantTag(x) then VariantLabel(x) else if IsLink(x) && p != "" then "" else p
    requires pr.0 != [] && IsLink(pr.1) && pr.1 in rest && (pr.0 == q || LabelOf(rest, pr.0))
    ensures pr.1 in [x] + rest && (pr.0 == p || LabelOf([x] + rest, pr.0))
  {
    var lines := [x] + rest;
    assert lines[1..] == rest;
    if LabelOf(rest, pr.0) {
      var i :| 0 <= i < |rest| && IsVariantTag(rest[i]) && VariantLabel(rest[i]) == pr.0;
      assert lines[i + 1] == rest[i];
    } else if IsVariantTag(x) {
      assert lines[0] == x;
    }
  }
}
