/** The JavaScript string primitives that both the Express server and the
    Cloudflare worker build their playlist handling from: `trim`,
    `split('\n')` / `join('\n')`, `startsWith`, `includes`, the
    `lastIndexOf('/')` directory cut and `toLowerCase`. */
module JsText {

  /** WhiteSpace and LineTerminator code points of ECMAScript, the set that
      `String.prototype.trim` removes: TAB, VT, FF, SP, NBSP, ZWNBSP, the
      Unicode `Zs` separators, LF, CR, LS and PS. */
  predicate IsJsSpace(c: char)
  {
    var n := c as int;
    n == 0x09 || n == 0x0A || n == 0x0B || n == 0x0C || n == 0x0D || n == 0x20
    || n == 0xA0 || n == 0x1680 || (0x2000 <= n <= 0x200A)
    || n == 0x2028 || n == 0x2029 || n == 0x202F || n == 0x205F
    || n == 0x3000 || n == 0xFEFF
  }

  predicate AllSpace(s: string)
  {
    forall i :: 0 <= i < |s| ==> IsJsSpace(s[i])
  }

  /** `s` has no removable white space at either end. */
  predicate IsTrimmed(s: string)
  {
    s == [] || (!IsJsSpace(s[0]) && !IsJsSpace(s[|s| - 1]))
  }

  /** Leading white space removed: `r` is the longest suffix of `s` that
      starts with a non-space, everything cut off is white space. */
  function TrimStart(s: string): (r: string)
    ensures |r| <= |s| && r == s[|s| - |r|..]
    ensures AllSpace(s[..|s| - |r|])
    ensures r == [] || !IsJsSpace(r[0])
  {
    if s != [] && IsJsSpace(s[0]) then
      var r := TrimStart(s[1..]);
      DropFirstSpace(s, r);
      r
    else s
  }

  lemma DropFirstSpace(s: string, r: string)
    requires s != [] && IsJsSpace(s[0]) && |r| <= |s| - 1
    requires r == s[1..][|s| - 1 - |r|..] && AllSpace(s[1..][..|s| - 1 - |r|])
    ensures r == s[|s| - |r|..] && AllSpace(s[..|s| - |r|])
  {
    var cut := s[..|s| - |r|];
    assert cut == [s[0]] + s[1..][..|s| - 1 - |r|];
    forall i | 0 <= i < |cut| ensures IsJsSpace(cut[i]) {
      if i > 0 {
        assert cut[i] == s[1..][..|s| - 1 - |r|][i - 1];
      }
    }
  }

  /** Trailing white space removed: `r` is the longest prefix of `s` that
      ends with a non-space, everything cut off is white space. */
  function TrimEnd(s: string): (r: string)
    ensures |r| <= |s| && r == s[..|r|]
    ensures AllSpace(s[|r|..])
    ensures r == [] || !IsJsSpace(r[|r| - 1])
  {
    if s != [] && IsJsSpace(s[|s| - 1]) then
      var r := TrimEnd(s[..|s| - 1]);
      DropLastSpace(s, r);
      r
    else s
  }

  lemma DropLastSpace(s: string, r: string)
    requires s != [] && IsJsSpace(s[|s| - 1]) && |r| <= |s| - 1
    requires r == s[..|s| - 1][..|r|] && AllSpace(s[..|s| - 1][|r|..])
    ensures r == s[..|r|] && AllSpace(s[|r|..])
  {
    var cut := s[|r|..];
    var kept := s[..|s| - 1][|r|..];
    assert cut == kept + [s[|s| - 1]];
    forall i | 0 <= i < |cut| ensures IsJsSpace(cut[i]) {
      if i < |kept| {
        assert cut[i] == kept[i];
      }
    }
  }

  /** `String.prototype.trim`. */
  function Trim(s: string): string
  {
    TrimEnd(TrimStart(s))
  }

  /** `trim` removes white space only: `s` is the result padded on both sides
      by white space, and the result has none left at its ends. */
  lemma TrimShape(s: string)
    ensures var r := Trim(s);
      exists a, b :: 0 <= a <= b <= |s| && s[a..b] == r && AllSpace(s[..a]) && AllSpace(s[b..])
    ensures IsTrimmed(Trim(s))
  {
    var i, j := TrimBounds(s);
  }

  lemma SuffixSlices<T>(s: seq<T>, a: nat, n: nat)
    requires a + n <= |s|
    ensures s[a..][..n] == s[a..a + n] && s[a..][n..] == s[a + n..]
  {
  }

  /** The bounds of what `trim` keeps. */
  lemma TrimBounds(s: string) returns (i: nat, j: nat)
    ensures i <= j <= |s| && s[i..j] == Trim(s)
    ensures AllSpace(s[..i]) && AllSpace(s[j..])
    ensures s == s[..i] + Trim(s) + s[j..]
    ensures IsTrimmed(Trim(s))
  {
    var t := TrimStart(s);
    var r := TrimEnd(t);
    i := |s| - |t|;
    j := i + |r|;
    Bracket(s, t, r);
    TrimmedEnds(t, r);
  }

  /** `r` cut out of the suffix `t` of `s`, with white space cut off on
      both sides. */
  lemma Bracket(s: string, t: string, r: string)
    requires |t| <= |s| && t == s[|s| - |t|..] && AllSpace(s[..|s| - |t|])
    requires |r| <= |t| && r == t[..|r|] && AllSpace(t[|r|..])
    ensures var i, j := |s| - |t|, |s| - |t| + |r|;
      s[i..j] == r && AllSpace(s[..i]) && AllSpace(s[j..]) && s == s[..i] + r + s[j..]
  {
    var i, j := |s| - |t|, |s| - |t| + |r|;
    SuffixSlices(s, i, |r|);
    SliceThree(s, i, j);
  }

  lemma TrimmedEnds(t: string, r: string)
    requires t == [] || !IsJsSpace(t[0])
    requires |r| <= |t| && r == t[..|r|] && (r == [] || !IsJsSpace(r[|r| - 1]))
    ensures IsTrimmed(r)
  {
    if r != [] {
      assert r[0] == t[0];
    }
  }

  lemma SliceThree<T>(s: seq<T>, i: nat, j: nat)
    requires i <= j <= |s|
    ensures s == s[..i] + s[i..j] + s[j..]
  {
    assert s[..j] == s[..i] + s[i..j];
    assert s == s[..j] + s[j..];
  }

  /** A string already free of white space at its ends is left alone. */
  lemma TrimIdentity(s: string)
    requires IsTrimmed(s)
    ensures Trim(s) == s
  {
  }

  /** Padding with white space on both sides does not change what `trim`
      returns: the result depends only on the text between the padding. */
  lemma {:induction false} TrimPadded(a: string, r: string, b: string)
    requires AllSpace(a) && AllSpace(b) && IsTrimmed(r)
    ensures Trim(a + r + b) == r
  {
    if r == [] {
      TrimStartPadded(a + b, []);
      assert a + r + b == (a + b) + [];
      assert TrimEnd([]) == [];
    } else {
      assert a + r + b == a + (r + b);
      TrimStartPadded(a, r + b);
      TrimEndPadded(r, b);
    }
  }

  /** White space added around a string never survives a trim. */
  lemma TrimAround(a: string, s: string, b: string)
    requires AllSpace(a) && AllSpace(b)
    ensures Trim(a + s + b) == Trim(s)
  {
    TrimShape(s);
    var i, j := TrimBounds(s);
    var pre, post := a + s[..i], s[j..] + b;
    SpaceAppend(a, s[..i]);
    SpaceAppend(s[j..], b);
    Regroup(a, s[..i], Trim(s), s[j..], b);
    TrimPadded(pre, Trim(s), post);
  }

  lemma Regroup<T>(a: seq<T>, x: seq<T>, y: seq<T>, z: seq<T>, b: seq<T>)
    ensures a + (x + y + z) + b == (a + x) + y + (z + b)
  {
  }

  lemma SpaceAppend(a: string, b: string)
    requires AllSpace(a) && AllSpace(b)
    ensures AllSpace(a + b)
  {
    assert forall k :: 0 <= k < |a + b| ==> (a + b)[k] == if k < |a| then a[k] else b[k - |a|];
  }

  lemma {:induction false} TrimStartPadded(a: string, t: string)
    requires AllSpace(a) && (t == [] || !IsJsSpace(t[0]))
    ensures TrimStart(a + t) == t
    decreases |a|
  {
    if a != [] {
      assert (a + t)[1..] == a[1..] + t;
      TrimStartPadded(a[1..], t);
    } else {
      assert a + t == t;
    }
  }

  lemma {:induction false} TrimEndPadded(t: string, b: string)
    requires AllSpace(b) && (t == [] || !IsJsSpace(t[|t| - 1]))
    ensures TrimEnd(t + b) == t
    decreases |b|
  {
    if b != [] {
      assert (t + b)[..|t + b| - 1] == t + b[..|b| - 1];
      TrimEndPadded(t, b[..|b| - 1]);
    } else {
      assert t + b == t;
    }
  }

  /** `trim` is idempotent. */
  lemma TrimIdempotent(s: string)
    ensures Trim(Trim(s)) == Trim(s)
  {
    TrimShape(s);
  }

  /** A line trims to the empty string exactly when it is all white space. */
  lemma TrimEmptyIff(s: string)
    ensures Trim(s) == [] <==> AllSpace(s)
  {
    TrimShape(s);
    if AllSpace(s) {
      TrimPadded(s, [], []);
      assert s + [] + [] == s;
    }
  }

  /** `String.prototype.startsWith`. */
  predicate StartsWith(s: string, p: string)
  {
    |p| <= |s| && s[..|p|] == p
  }

  /** `String.prototype.includes`: `p` occurs in `s` at some position. */
  predicate Contains(s: string, p: string)
    decreases |s|
  {
    StartsWith(s, p) || (s != [] && Contains(s[1..], p))
  }

  /** `p` occurs in `s` starting at index `i`. */
  predicate OccursAt(s: string, p: string, i: int)
  {
    0 <= i <= |s| - |p| && s[i..i + |p|] == p
  }

  /** `includes` means an occurrence at an index. */
  lemma {:induction false} ContainsIff(s: string, p: string)
    ensures Contains(s, p) <==> exists i :: OccursAt(s, p, i)
    decreases |s|
  {
    if StartsWith(s, p) {
      assert OccursAt(s, p, 0);
    }
    if s != [] {
      ContainsIff(s[1..], p);
      if Contains(s[1..], p) {
        var i :| OccursAt(s[1..], p, i);
        assert s[1..][i..i + |p|] == s[i + 1..i + 1 + |p|];
        assert OccursAt(s, p, i + 1);
      }
      if i :| OccursAt(s, p, i) {
        if i > 0 {
          assert s[1..][i - 1..i - 1 + |p|] == s[i..i + |p|];
          assert OccursAt(s[1..], p, i - 1);
        } else {
          assert s[..|p|] == s[i..i + |p|];
        }
      }
    }
  }

  /** Text glued around `p` contains `p`. */
  lemma ContainsInfix(a: string, p: string, b: string)
    ensures Contains(a + p + b, p)
  {
    var s := a + p + b;
    assert s[|a|..|a| + |p|] == p;
    assert OccursAt(s, p, |a|);
    ContainsIff(s, p);
  }

  /** A string contains whatever its prefix contains. */
  lemma ContainsPrefix(a: string, b: string, p: string)
    requires Contains(a, p)
    ensures Contains(a + b, p)
  {
    ContainsIff(a, p);
    var i :| OccursAt(a, p, i);
    assert (a + b)[i..i + |p|] == a[i..i + |p|];
    assert OccursAt(a + b, p, i);
    ContainsIff(a + b, p);
  }

  /** A string contains whatever a prefix of it contains. */
  lemma ContainsStart(s: string, t: string, p: string)
    requires StartsWith(s, t) && Contains(t, p)
    ensures Contains(s, p)
  {
    assert s == t + s[|t|..];
    ContainsPrefix(t, s[|t|..], p);
  }

  /** A string contains whatever its suffix contains. */
  lemma ContainsSuffix(a: string, b: string, p: string)
    requires Contains(b, p)
    ensures Contains(a + b, p)
  {
    ContainsIff(b, p);
    var i :| OccursAt(b, p, i);
    assert (a + b)[|a| + i..|a| + i + |p|] == b[i..i + |p|];
    assert OccursAt(a + b, p, |a| + i);
    ContainsIff(a + b, p);
  }

  /** A single character occurs in `s` exactly when it is one of its elements. */
  lemma ContainsChar(s: string, c: char)
    ensures Contains(s, [c]) <==> c in s
  {
    ContainsIff(s, [c]);
    if c in s {
      var i :| 0 <= i < |s| && s[i] == c;
      assert s[i..i + 1] == [c];
      assert OccursAt(s, [c], i);
    }
    if i :| OccursAt(s, [c], i) {
      assert s[i] == s[i..i + 1][0];
    }
  }

  /** Trimming keeps a subset of the characters. */
  lemma TrimKeeps(s: string, c: char)
    requires c !in s
    ensures c !in Trim(s)
  {
    var i, j := TrimBounds(s);
  }

  /** `s.split(sep)` for a one-character separator: the pieces between
      separators, always at least one (`"".split('\n')` is `[""]`). */
  function Split(s: string, sep: char): (r: seq<string>)
    ensures |r| >= 1
    ensures forall i :: 0 <= i < |r| ==> sep !in r[i]
    ensures Join(r, sep) == s
  {
    if s == [] then [[]]
    else
      var rest := Split(s[1..], sep);
      if s[0] == sep then [[]] + rest
      else
        assert s == [s[0]] + s[1..];
        [[s[0]] + rest[0]] + rest[1..]
  }

  /** `pieces.join(sep)`. */
  function Join(pieces: seq<string>, sep: char): string
  {
    if |pieces| == 0 then []
    else if |pieces| == 1 then pieces[0]
    else pieces[0] + [sep] + Join(pieces[1..], sep)
  }

  /** Splitting the join of separator-free pieces gives the pieces back: the
      count and the text of each line survive a `join('\n')` / `split('\n')`
      round trip. */
  lemma {:induction false} SplitJoin(pieces: seq<string>, sep: char)
    requires |pieces| >= 1
    requires forall i :: 0 <= i < |pieces| ==> sep !in pieces[i]
    ensures Split(Join(pieces, sep), sep) == pieces
    decreases |pieces|, |pieces[0]|
  {
    if |pieces| == 1 {
      SplitNoSep(pieces[0], sep);
    } else if pieces[0] == [] {
      var s := Join(pieces, sep);
      assert s == [sep] + Join(pieces[1..], sep);
      assert s[1..] == Join(pieces[1..], sep);
      SplitJoin(pieces[1..], sep);
      assert pieces == [[]] + pieces[1..];
    } else {
      var p0 := pieces[0];
      var s := Join(pieces, sep);
      var shorter := [p0[1..]] + pieces[1..];
      assert shorter[1..] == pieces[1..];
      assert Join(shorter, sep) == p0[1..] + [sep] + Join(pieces[1..], sep);
      assert s == [p0[0]] + Join(shorter, sep);
      assert s[1..] == Join(shorter, sep);
      assert forall i :: 0 <= i < |shorter| ==> sep !in shorter[i] by {
        forall i | 0 <= i < |shorter| ensures sep !in shorter[i] {
          if i == 0 {
            assert forall c :: c in p0[1..] ==> c in p0;
          } else {
            assert shorter[i] == pieces[i];
          }
        }
      }
      SplitJoin(shorter, sep);
      assert s[0] == p0[0] && p0[0] != sep;
      assert [p0[0]] + p0[1..] == p0;
      assert [p0] + pieces[1..] == pieces;
    }
  }

  lemma {:induction false} SplitNoSep(s: string, sep: char)
    requires sep !in s
    ensures Split(s, sep) == [s]
  {
    if s != [] {
      SplitNoSep(s[1..], sep);
      assert [s[0]] + s[1..] == s;
    }
  }

  /** Applying `f` to every piece keeps the piece count; with separator-free
      results the re-split output has as many lines as the input. */
  lemma JoinedLineCount(pieces: seq<string>, sep: char)
    requires |pieces| >= 1
    requires forall i :: 0 <= i < |pieces| ==> sep !in pieces[i]
    ensures |Split(Join(pieces, sep), sep)| == |pieces|
  {
    SplitJoin(pieces, sep);
  }

  /** `s.lastIndexOf(c) + 1`: the length of the longest prefix of `s` that
      ends with `c`, or 0 when `c` does not occur. */
  function LastIndexAfter(s: string, c: char): (n: nat)
    ensures n <= |s|
    ensures n == 0 ==> c !in s
    ensures n > 0 ==> s[n - 1] == c
    ensures c !in s[n..]
  {
    if s == [] then 0
    else if s[|s| - 1] == c then |s|
    else
      var n := LastIndexAfter(s[..|s| - 1], c);
      assert s[n..] == s[..|s| - 1][n..] + [s[|s| - 1]];
      n
  }

  /** `url.substring(0, url.lastIndexOf('/') + 1)`: the directory part of a
      URL, everything up to and including its last `/` (empty without one). */
  function DirectoryOf(url: string): (d: string)
    ensures StartsWith(url, d)
    ensures d == [] || d[|d| - 1] == '/'
    ensures '/' !in url[|d|..]
  {
    url[..LastIndexAfter(url, '/')]
  }

  /** `toLowerCase` restricted to the ASCII letters. */
  function LowerChar(c: char): (r: char)
    ensures 'A' <= c <= 'Z' ==> r as int == c as int + 32
    ensures !('A' <= c <= 'Z') ==> r == c
  {
    if 'A' <= c <= 'Z' then (c as int + 32) as char else c
  }

  function ToLower(s: string): (r: string)
    ensures |r| == |s|
    ensures forall i :: 0 <= i < |s| ==> r[i] == LowerChar(s[i])
  {
    if s == [] then [] else [LowerChar(s[0])] + ToLower(s[1..])
  }

  predicate NoUpper(s: string)
  {
    forall i :: 0 <= i < |s| ==> !('A' <= s[i] <= 'Z')
  }

  /** Lower-casing leaves no upper-case ASCII letter and is idempotent. */
  lemma ToLowerIdempotent(s: string)
    ensures NoUpper(ToLower(s))
    ensures ToLower(ToLower(s)) == ToLower(s)
  {
  }

  /** Lower-casing is the identity on white space, so it commutes with `trim`. */
  lemma ToLowerSpace(s: string)
    ensures AllSpace(s) <==> AllSpace(ToLower(s))
  {
    var t := ToLower(s);
    assert forall i :: 0 <= i < |s| ==> (IsJsSpace(s[i]) <==> IsJsSpace(t[i]));
  }
}
