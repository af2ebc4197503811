/** The worker's `parseM3U8`: the same pending-label scan as the server's
    live route collects the variants into `unsorted`, then a fixed list of
    quality names ranks them. For each name in turn, every remaining key
    that mentions it (case-blind) moves to `sorted`, which starts with the
    master playlist under `Auto`; whatever no name matched is appended at
    the end, in its original order. */
module WorkerParse {
  import opened Wrappers
  import opened JsText
  import opened JsObject
  import opened Playlist

  const Auto: string := "Auto"

  /** The ranking names, best first. */
  const Order: seq<string> :=
    ["Source", "1080p60", "1080p30", "1080p", "720p60", "720p30", "720p", "480p", "360p", "160p", "audio_only"]

  /** `u.toLowerCase().includes(k.toLowerCase())`. */
  predicate Mentions(key: string, name: string)
  {
    Contains(ToLower(key), ToLower(name))
  }

  /** The first rank at or after `i` whose name the key mentions, `|order|`
      when none does. */
  function TierFrom(order: seq<string>, key: string, i: nat): (r: nat)
    requires i <= |order|
    ensures i <= r <= |order|
    ensures r < |order| ==> Mentions(key, order[r])
    ensures forall j :: i <= j < r ==> !Mentions(key, order[j])
    decreases |order| - i
  {
    if i == |order| then |order|
    else if Mentions(key, order[i]) then i
    else TierFrom(order, key, i + 1)
  }

  /** The rank at which the key leaves `unsorted`: the first name it
      mentions, or `|order|` for a key that stays until `Object.assign`. */
  function TierOf(order: seq<string>, key: string): (r: nat)
    ensures r <= |order|
    ensures r < |order| ==> Mentions(key, order[r])
    ensures forall j :: 0 <= j < r ==> !Mentions(key, order[j])
  {
    TierFrom(order, key, 0)
  }

  function RankOf(order: seq<string>): string -> nat
  {
    key => TierOf(order, key)
  }

  // ---------------------------------------------------------------------
  // Ranking by any rank function; `TierOf` is the one the worker uses

  /** The entries of rank exactly `t`, in their order. */
  function AtTier(u: Entries<string, string>, rank: string -> nat, t: nat): Entries<string, string>
    decreases |u|
  {
    if u == [] then []
    else AtTier(u[..|u| - 1], rank, t) + (if rank(u[|u| - 1].0) == t then [u[|u| - 1]] else [])
  }

  /** The entries of rank `t` or worse, in their order: what `unsorted`
      holds when the name at rank `t` comes up. */
  function FromTier(u: Entries<string, string>, rank: string -> nat, t: nat): Entries<string, string>
    decreases |u|
  {
    if u == [] then []
    else FromTier(u[..|u| - 1], rank, t) + (if rank(u[|u| - 1].0) >= t then [u[|u| - 1]] else [])
  }

  /** A filter picks entries of the rank it names, from the entries given. */
  lemma {:induction false} AtTierIn(u: Entries<string, string>, rank: string -> nat, t: nat)
    ensures forall x :: x in AtTier(u, rank, t) ==> x in u && rank(x.0) == t
    decreases |u|
  {
    if u != [] {
      var init := u[..|u| - 1];
      AtTierIn(init, rank, t);
      assert forall x :: x in init ==> x in u;
    }
  }

  lemma {:induction false} FromTierIn(u: Entries<string, string>, rank: string -> nat, t: nat)
    ensures forall x :: x in FromTier(u, rank, t) ==> x in u && rank(x.0) >= t
    decreases |u|
  {
    if u != [] {
      var init := u[..|u| - 1];
      FromTierIn(init, rank, t);
      assert forall x :: x in init ==> x in u;
    }
  }

  /** Ranks `0 .. n-1`, one after the other. */
  function Tiers(u: Entries<string, string>, rank: string -> nat, n: nat): Entries<string, string>
  {
    if n == 0 then [] else Tiers(u, rank, n - 1) + AtTier(u, rank, n - 1)
  }

  /** The order `sorted` receives the variants in. */
  function Ranked(order: seq<string>, u: Entries<string, string>): Entries<string, string>
  {
    RankedBy(u, RankOf(order), |order|)
  }

  /** Ranks `0 .. n-1`, then everything of rank `n` or worse. */
  function RankedBy(u: Entries<string, string>, rank: string -> nat, n: nat): Entries<string, string>
  {
    Tiers(u, rank, n) + FromTier(u, rank, n)
  }

  /** The variants the first phase collects. */
  function Unsorted(content: string): Entries<string, string>
  {
    Fold(Scan([], ""), Split(content, '\n')).links
  }

  /** What `parseM3U8(content, masterUrl)` returns. */
  function WorkerLinks(content: string, masterUrl: string): Entries<string, string>
  {
    PutAll([(Auto, masterUrl)], Ranked(Order, Unsorted(content)))
  }

  // ---------------------------------------------------------------------
  // The function as written

  method ParseM3U8(content: string, masterUrl: string) returns (sorted: Entries<string, string>)
    ensures sorted == WorkerLinks(content, masterUrl)
  {
    var unsorted := CollectVariants(content);
    UnsortedUnique(content);
    sorted := SortByOrder([(Auto, masterUrl)], unsorted, Order);
  }

  /** The ranking: the outer loop over `order`, then `Object.assign`
      appends what no name matched. */
  method SortByOrder(start: Entries<string, string>, unsorted0: Entries<string, string>, order: seq<string>)
    returns (sorted: Entries<string, string>)
    requires UniqueKeys(unsorted0)
    ensures sorted == PutAll(start, Ranked(order, unsorted0))
  {
    RankOfAgrees(order);
    var unsorted;
    sorted, unsorted := MoveAllTiers(start, unsorted0, order, RankOf(order));
    PutAllAppend(start, Tiers(unsorted0, RankOf(order), |order|), unsorted);
    sorted := PutAll(sorted, unsorted);
  }

  /** `rank` tells, for a key not yet moved, whether the name at rank `t`
      moves it: the rank of the first name a key mentions does. */
  ghost predicate RankAgrees(order: seq<string>, rank: string -> nat)
  {
    forall key, t {:trigger Mentions(key, order[t])} ::
      0 <= t < |order| && rank(key) >= t ==> (Mentions(key, order[t]) <==> rank(key) == t)
  }

  lemma RankOfAgrees(order: seq<string>)
    ensures RankAgrees(order, RankOf(order))
  {
    forall key, t | 0 <= t < |order| && RankOf(order)(key) >= t
      ensures Mentions(key, order[t]) <==> RankOf(order)(key) == t
    {
      assert RankOf(order)(key) == TierOf(order, key);
    }
  }

  /** The outer `forEach`: for each name of `order`, the keys mentioning it
      move from `unsorted` to `sorted`. */
  method MoveAllTiers(start: Entries<string, string>, unsorted0: Entries<string, string>, order: seq<string>,
                      ghost rank: string -> nat)
    returns (sorted: Entries<string, string>, unsorted: Entries<string, string>)
    requires UniqueKeys(unsorted0) && RankAgrees(order, rank)
    ensures sorted == PutAll(start, Tiers(unsorted0, rank, |order|))
    ensures unsorted == FromTier(unsorted0, rank, |order|)
  {
    FromTierZero(unsorted0, rank);
    assert Tiers(unsorted0, rank, 0) == [];
    assert PutAll(start, []) == start;
    sorted, unsorted := start, unsorted0;
    for t := 0 to |order|
      invariant sorted == PutAll(start, Tiers(unsorted0, rank, t))
      invariant unsorted == FromTier(unsorted0, rank, t)
    {
      sorted, unsorted := TierRound(start, unsorted0, order, rank, sorted, unsorted, t);
    }
  }

  /** One turn of the outer `forEach`: the keys of tier `t` move over. */
  method TierRound(start: Entries<string, string>, unsorted0: Entries<string, string>, order: seq<string>,
                   ghost rank: string -> nat, sorted0: Entries<string, string>, rest0: Entries<string, string>, t: nat)
    returns (sorted: Entries<string, string>, unsorted: Entries<string, string>)
    requires UniqueKeys(unsorted0) && RankAgrees(order, rank) && t < |order|
    requires sorted0 == PutAll(start, Tiers(unsorted0, rank, t))
    requires rest0 == FromTier(unsorted0, rank, t)
    ensures sorted == PutAll(start, Tiers(unsorted0, rank, t + 1))
    ensures unsorted == FromTier(unsorted0, rank, t + 1)
  {
    FromTierUnique(unsorted0, rank, t);
    FromTierRanks(unsorted0, rank, t);
    sorted, unsorted := MoveTier(sorted0, rest0, order, t, rank);
    RankRound(start, unsorted0, rank, t);
  }

  /** The `forEach` over the lines: `lastInfo` holds the pending label. */
  method CollectVariants(content: string) returns (unsorted: Entries<string, string>)
    ensures unsorted == Unsorted(content)
  {
    var lines := Split(content, '\n');
    ghost var start := Scan([], "");
    unsorted := [];
    var lastInfo := "";
    for i := 0 to |lines|
      invariant Scan(unsorted, lastInfo) == Fold(start, lines[..i])
    {
      var line := lines[i];
      ghost var before := Scan(unsorted, lastInfo);
      FoldNext(start, lines, i);
      if StartsWith(line, StreamInf) {
        lastInfo := VariantLabel(line);
      } else if StartsWith(line, Http) {
        if lastInfo != "" {
          unsorted := Put(unsorted, lastInfo, line);
          lastInfo := "";
        }
      }
      assert Scan(unsorted, lastInfo) == Step(before, line);
    }
    assert lines[..|lines|] == lines;
  }

  /** One pass of the inner `forEach` over a snapshot of `Object.keys(unsorted)`
      for the ranking name `name`: the keys that mention it are exactly those
      of rank `t`, and they move to `sorted`, in order, and leave `unsorted`. */
  method MoveTier(sorted0: Entries<string, string>, unsorted0: Entries<string, string>,
                  order: seq<string>, t: nat, ghost rank: string -> nat)
    returns (sorted: Entries<string, string>, unsorted: Entries<string, string>)
    requires t < |order| && RankAgrees(order, rank)
    requires UniqueKeys(unsorted0)
    requires forall i :: 0 <= i < |unsorted0| ==> rank(unsorted0[i].0) >= t
    ensures sorted == PutAll(sorted0, AtTier(unsorted0, rank, t))
    ensures unsorted == FromTier(unsorted0, rank, t + 1)
  {
    var keys := Keys(unsorted0);
    sorted, unsorted := sorted0, unsorted0;
    for j := 0 to |keys|
      invariant sorted == PutAll(sorted0, AtTier(unsorted0[..j], rank, t))
      invariant unsorted == FromTier(unsorted0[..j], rank, t + 1) + unsorted0[j..]
    {
      var u := keys[j];
      if Mentions(u, order[t]) {
        MoveStepTaken(unsorted0, rank, t, j);
        MoveTaken(sorted0, AtTier(unsorted0[..j], rank, t), FromTier(unsorted0[..j], rank, t + 1),
                  unsorted0[j], unsorted0[j + 1..]);
        var v := Get(unsorted, u);
        sorted := Put(sorted, u, v.value);
        unsorted := Delete(unsorted, u);
      } else {
        MoveStepKept(unsorted0, rank, t, j);
      }
    }
    assert unsorted0[..|keys|] == unsorted0;
  }

  /** A key of rank `t` in the snapshot joins the picked entries and leaves
      the kept ones, which never held its key. */
  lemma MoveStepTaken(u: Entries<string, string>, rank: string -> nat, t: nat, j: nat)
    requires UniqueKeys(u) && j < |u|
    requires rank(u[j].0) == t
    ensures AtTier(u[..j + 1], rank, t) == AtTier(u[..j], rank, t) + [u[j]]
    ensures FromTier(u[..j + 1], rank, t + 1) == FromTier(u[..j], rank, t + 1)
    ensures u[j..] == [u[j]] + u[j + 1..]
    ensures !HasKey(FromTier(u[..j], rank, t + 1), u[j].0)
  {
    assert u[..j + 1] == u[..j] + [u[j]];
    AtTierSnoc(u[..j], u[j], rank, t);
    FromTierSnoc(u[..j], u[j], rank, t + 1);
    KeptLacksKey(u, j, rank, t + 1);
  }

  /** A key of a worse rank stays where it is. */
  lemma MoveStepKept(u: Entries<string, string>, rank: string -> nat, t: nat, j: nat)
    requires j < |u|
    requires rank(u[j].0) > t
    ensures AtTier(u[..j + 1], rank, t) == AtTier(u[..j], rank, t)
    ensures FromTier(u[..j + 1], rank, t + 1) + u[j + 1..] == FromTier(u[..j], rank, t + 1) + u[j..]
  {
    assert u[..j + 1] == u[..j] + [u[j]];
    AtTierSnoc(u[..j], u[j], rank, t);
    FromTierSnoc(u[..j], u[j], rank, t + 1);
    var kept := FromTier(u[..j], rank, t + 1);
    assert (kept + [u[j]]) + u[j + 1..] == kept + u[j..];
  }

  /** Moving the entry `x` that stands after `kept` in `unsorted`. */
  lemma MoveTaken(sorted0: Entries<string, string>, done: Entries<string, string>,
                  kept: Entries<string, string>, x: (string, string), rest: Entries<string, string>)
    requires !HasKey(kept, x.0)
    ensures Get(kept + ([x] + rest), x.0) == Some(x.1)
    ensures Put(PutAll(sorted0, done), x.0, x.1) == PutAll(sorted0, done + [x])
    ensures Delete(kept + ([x] + rest), x.0) == kept + rest
  {
    KeyIndexPrefix(kept, [x] + rest, x.0);
    PutAllAppend(sorted0, done, [x]);
    PutAllOne(PutAll(sorted0, done), x.0, x.1);
    assert kept + ([x] + rest) == kept + [x] + rest;
    DeleteMiddle(kept, x, rest);
  }

  // ---------------------------------------------------------------------
  // Facts the method needs

  lemma FromTierRanks(u: Entries<string, string>, rank: string -> nat, t: nat)
    ensures forall i :: 0 <= i < |FromTier(u, rank, t)| ==> rank(FromTier(u, rank, t)[i].0) >= t
  {
    var f := FromTier(u, rank, t);
    FromTierIn(u, rank, t);
    assert forall i :: 0 <= i < |f| ==> f[i] in f;
  }

  /** One round of the outer `forEach`, on the specification side. */
  lemma RankRound(start: Entries<string, string>, u: Entries<string, string>, rank: string -> nat, t: nat)
    ensures PutAll(PutAll(start, Tiers(u, rank, t)), AtTier(FromTier(u, rank, t), rank, t))
            == PutAll(start, Tiers(u, rank, t + 1))
    ensures FromTier(FromTier(u, rank, t), rank, t + 1) == FromTier(u, rank, t + 1)
  {
    AtTierOfFrom(u, rank, t, t);
    FromTierTwice(u, rank, t);
    PutAllAppend(start, Tiers(u, rank, t), AtTier(u, rank, t));
    assert Tiers(u, rank, t + 1) == Tiers(u, rank, t) + AtTier(u, rank, t);
  }

  /** Keys put one at a time into an empty object are unique. */
  lemma UnsortedUnique(content: string)
    ensures UniqueKeys(Unsorted(content))
  {
    var lines := Split(content, '\n');
    FoldIsPairing(Scan([], ""), lines);
    PutAllUnique([], Pairing("", lines));
  }

  /** The filters, one entry further. */
  lemma AtTierSnoc(a: Entries<string, string>, x: (string, string), rank: string -> nat, t: nat)
    ensures AtTier(a + [x], rank, t) == AtTier(a, rank, t) + (if rank(x.0) == t then [x] else [])
  {
    assert (a + [x])[..|a|] == a;
  }

  lemma FromTierSnoc(a: Entries<string, string>, x: (string, string), rank: string -> nat, t: nat)
    ensures FromTier(a + [x], rank, t) == FromTier(a, rank, t) + (if rank(x.0) >= t then [x] else [])
  {
    assert (a + [x])[..|a|] == a;
  }

  /** The entries kept before position `j` never hold the key at `j`. */
  lemma KeptLacksKey(u: Entries<string, string>, j: nat, rank: string -> nat, t: nat)
    requires UniqueKeys(u) && j < |u|
    ensures !HasKey(FromTier(u[..j], rank, t), u[j].0)
  {
    var kept := FromTier(u[..j], rank, t);
    FromTierIn(u[..j], rank, t);
    forall i | 0 <= i < |kept| ensures kept[i].0 != u[j].0 {
      assert kept[i] in u[..j];
      var k :| 0 <= k < j && u[..j][k] == kept[i];
      assert u[k] == kept[i];
    }
  }

  lemma {:induction false} FromTierZero(u: Entries<string, string>, rank: string -> nat)
    ensures FromTier(u, rank, 0) == u
    decreases |u|
  {
    if u != [] {
      var init, last := u[..|u| - 1], u[|u| - 1];
      FromTierZero(init, rank);
      assert u == init + [last];
      FromTierSnoc(init, last, rank, 0);
    }
  }

  /** Filtering keeps keys unique. */
  lemma {:induction false} FromTierUnique(u: Entries<string, string>, rank: string -> nat, t: nat)
    requires UniqueKeys(u)
    ensures UniqueKeys(FromTier(u, rank, t))
    decreases |u|
  {
    if u != [] {
      var init, last := u[..|u| - 1], u[|u| - 1];
      FromTierUnique(init, rank, t);
      FromTierIn(init, rank, t);
      var f := FromTier(init, rank, t);
      forall i | 0 <= i < |f| ensures f[i].0 != last.0 {
        assert f[i] in init;
        var k :| 0 <= k < |init| && init[k] == f[i];
        assert u[k] == f[i];
      }
    }
  }

  lemma {:induction false} AtTierUnique(u: Entries<string, string>, rank: string -> nat, t: nat)
    requires UniqueKeys(u)
    ensures UniqueKeys(AtTier(u, rank, t))
    decreases |u|
  {
    if u != [] {
      var init, last := u[..|u| - 1], u[|u| - 1];
      AtTierUnique(init, rank, t);
      AtTierIn(init, rank, t);
      var f := AtTier(init, rank, t);
      forall i | 0 <= i < |f| ensures f[i].0 != last.0 {
        assert f[i] in init;
        var k :| 0 <= k < |init| && init[k] == f[i];
        assert u[k] == f[i];
      }
    }
  }

  /** Picking rank `t` out of the entries of rank `s` or worse. */
  lemma {:induction false} AtTierOfFrom(u: Entries<string, string>, rank: string -> nat, s: nat, t: nat)
    ensures AtTier(FromTier(u, rank, s), rank, t) == if s <= t then AtTier(u, rank, t) else []
    decreases |u|
  {
    if u != [] {
      var init, last := u[..|u| - 1], u[|u| - 1];
      AtTierOfFrom(init, rank, s, t);
      assert u == init + [last];
      var f := FromTier(init, rank, s);
      FromTierSnoc(init, last, rank, s);
      AtTierSnoc(init, last, rank, t);
      AtTierSnoc(f, last, rank, t);
      if rank(last.0) >= s {
        assert FromTier(u, rank, s) == f + [last];
        assert AtTier(FromTier(u, rank, s), rank, t) == AtTier(f, rank, t) + (if rank(last.0) == t then [last] else []);
      } else {
        assert FromTier(u, rank, s) == f;
      }
    }
  }

  lemma {:induction false} FromTierTwice(u: Entries<string, string>, rank: string -> nat, t: nat)
    ensures FromTier(FromTier(u, rank, t), rank, t + 1) == FromTier(u, rank, t + 1)
    decreases |u|
  {
    if u != [] {
      var init, last := u[..|u| - 1], u[|u| - 1];
      FromTierTwice(init, rank, t);
      assert u == init + [last];
      var f := FromTier(init, rank, t);
      FromTierSnoc(init, last, rank, t);
      FromTierSnoc(init, last, rank, t + 1);
      FromTierSnoc(f, last, rank, t + 1);
      if rank(last.0) >= t {
        assert FromTier(u, rank, t) == f + [last];
      } else {
        assert FromTier(u, rank, t) == f;
      }
    }
  }

  // ---------------------------------------------------------------------
  // What the ranking is

  /** Rank `t` and the ranks after it make up the ranks from `t` on. */
  lemma {:induction false} SplitTier(u: Entries<string, string>, rank: string -> nat, t: nat)
    ensures multiset(AtTier(u, rank, t)) + multiset(FromTier(u, rank, t + 1)) == multiset(FromTier(u, rank, t))
    decreases |u|
  {
    if u != [] {
      var init, last := u[..|u| - 1], u[|u| - 1];
      SplitTier(init, rank, t);
      assert u == init + [last];
      AtTierSnoc(init, last, rank, t);
      FromTierSnoc(init, last, rank, t);
      FromTierSnoc(init, last, rank, t + 1);
    }
  }

  /** The first `n` ranks and the rest hold the entries between them. */
  lemma {:induction false} TiersAndRest(u: Entries<string, string>, rank: string -> nat, n: nat)
    ensures multiset(Tiers(u, rank, n)) + multiset(FromTier(u, rank, n)) == multiset(u)
  {
    if n == 0 {
      FromTierZero(u, rank);
    } else {
      TiersAndRest(u, rank, n - 1);
      TiersStep(u, rank, n);
    }
  }

  /** Moving one more rank to the front keeps the same entries. */
  lemma TiersStep(u: Entries<string, string>, rank: string -> nat, n: nat)
    requires n > 0
    requires multiset(Tiers(u, rank, n - 1)) + multiset(FromTier(u, rank, n - 1)) == multiset(u)
    ensures multiset(Tiers(u, rank, n)) + multiset(FromTier(u, rank, n)) == multiset(u)
  {
    var a, b, c := Tiers(u, rank, n - 1), AtTier(u, rank, n - 1), FromTier(u, rank, n);
    assert multiset(Tiers(u, rank, n)) == multiset(a) + multiset(b) by {
      assert Tiers(u, rank, n) == a + b;
    }
    assert multiset(b) + multiset(c) == multiset(FromTier(u, rank, n - 1)) by {
      SplitTier(u, rank, n - 1);
    }
    UnionRegroup(multiset(a), multiset(b), multiset(c), multiset(FromTier(u, rank, n - 1)), multiset(u));
  }

  lemma UnionRegroup<T>(a: multiset<T>, b: multiset<T>, c: multiset<T>, d: multiset<T>, all: multiset<T>)
    requires b + c == d && a + d == all
    ensures (a + b) + c == all
  {
    assert (a + b) + c == a + (b + c);
  }

  /** The ranking is a permutation: no variant is lost or duplicated. */
  lemma RankedPermutation(order: seq<string>, u: Entries<string, string>)
    ensures multiset(Ranked(order, u)) == multiset(u)
  {
    var rank := RankOf(order);
    TiersAndRest(u, rank, |order|);
    assert multiset(Ranked(order, u)) == multiset(Tiers(u, rank, |order|)) + multiset(FromTier(u, rank, |order|));
  }

  predicate RankSorted(s: Entries<string, string>, rank: string -> nat)
  {
    forall i, j :: 0 <= i < j < |s| ==> rank(s[i].0) <= rank(s[j].0)
  }

  /** Two rank-sorted runs, all of the first ranked below `n` and all of the
      second at `n` or worse, make a rank-sorted whole. */
  lemma SortedJoin(a: Entries<string, string>, b: Entries<string, string>, rank: string -> nat, n: nat)
    requires RankSorted(a, rank) && RankSorted(b, rank)
    requires forall i :: 0 <= i < |a| ==> rank(a[i].0) < n
    requires forall x :: x in b ==> rank(x.0) >= n
    ensures RankSorted(a + b, rank)
  {
    forall i, j | 0 <= i < j < |a + b| ensures rank((a + b)[i].0) <= rank((a + b)[j].0) {
      if j >= |a| {
        assert (a + b)[j] == b[j - |a|] && b[j - |a|] in b;
        if i >= |a| {
          assert (a + b)[i] == b[i - |a|];
        }
      }
    }
  }

  lemma {:induction false} TiersSorted(u: Entries<string, string>, rank: string -> nat, n: nat)
    ensures RankSorted(Tiers(u, rank, n), rank)
    ensures forall i :: 0 <= i < |Tiers(u, rank, n)| ==> rank(Tiers(u, rank, n)[i].0) < n
  {
    if n > 0 {
      var a, b := Tiers(u, rank, n - 1), AtTier(u, rank, n - 1);
      assert RankSorted(a, rank) && forall i :: 0 <= i < |a| ==> rank(a[i].0) < n - 1 by {
        TiersSorted(u, rank, n - 1);
      }
      assert forall x :: x in b ==> rank(x.0) == n - 1 by {
        AtTierIn(u, rank, n - 1);
      }
      SortedJoin(a, b, rank, n - 1);
      assert Tiers(u, rank, n) == a + b;
      BelowJoin(a, b, rank, n);
    }
  }

  lemma BelowJoin(a: Entries<string, string>, b: Entries<string, string>, rank: string -> nat, n: nat)
    requires n > 0
    requires forall i :: 0 <= i < |a| ==> rank(a[i].0) < n - 1
    requires forall x :: x in b ==> rank(x.0) == n - 1
    ensures forall i :: 0 <= i < |a + b| ==> rank((a + b)[i].0) < n
  {
    forall i | 0 <= i < |a + b| ensures rank((a + b)[i].0) < n {
      if i >= |a| {
        assert (a + b)[i] == b[i - |a|] && b[i - |a|] in b;
      }
    }
  }

  /** Better ranks come first: the ranks along the result never decrease. */
  lemma RankedOrdered(order: seq<string>, u: Entries<string, string>)
    ensures RankSorted(Ranked(order, u), RankOf(order))
  {
    var rank := RankOf(order);
    TiersSorted(u, rank, |order|);
    var b := FromTier(u, rank, |order|);
    FromTierIn(u, rank, |order|);
    forall j | 0 <= j < |b| ensures rank(b[j].0) == |order| {
      assert b[j] in b;
    }
    SortedJoin(Tiers(u, rank, |order|), b, rank, |order|);
  }

  lemma {:induction false} AtTierAppend(a: Entries<string, string>, b: Entries<string, string>, rank: string -> nat, t: nat)
    ensures AtTier(a + b, rank, t) == AtTier(a, rank, t) + AtTier(b, rank, t)
    decreases |b|
  {
    if b != [] {
      var init, last := b[..|b| - 1], b[|b| - 1];
      AtTierAppend(a, init, rank, t);
      assert b == init + [last];
      assert a + b == (a + init) + [last];
      AtTierSnoc(a + init, last, rank, t);
      AtTierSnoc(init, last, rank, t);
      if rank(last.0) == t {
        assert AtTier(b, rank, t) == AtTier(init, rank, t) + [last];
      } else {
        assert AtTier(b, rank, t) == AtTier(init, rank, t);
      }
    } else {
      assert a + b == a;
    }
  }

  lemma {:induction false} AtTierTwice(u: Entries<string, string>, rank: string -> nat, s: nat, t: nat)
    ensures AtTier(AtTier(u, rank, s), rank, t) == if s == t then AtTier(u, rank, t) else []
    decreases |u|
  {
    if u != [] {
      var init, last := u[..|u| - 1], u[|u| - 1];
      AtTierTwice(init, rank, s, t);
      assert u == init + [last];
      var f := AtTier(init, rank, s);
      AtTierSnoc(init, last, rank, s);
      AtTierSnoc(init, last, rank, t);
      AtTierSnoc(f, last, rank, t);
      if rank(last.0) == s {
        assert AtTier(u, rank, s) == f + [last];
      } else {
        assert AtTier(u, rank, s) == f;
      }
    }
  }

  lemma {:induction false} AtTierOfTiers(u: Entries<string, string>, rank: string -> nat, n: nat, t: nat)
    ensures AtTier(Tiers(u, rank, n), rank, t) == if t < n then AtTier(u, rank, t) else []
  {
    if n > 0 {
      var a, b := Tiers(u, rank, n - 1), AtTier(u, rank, n - 1);
      var x := AtTier(u, rank, t);
      assert Tiers(u, rank, n) == a + b;
      assert AtTier(a + b, rank, t) == AtTier(a, rank, t) + AtTier(b, rank, t) by {
        AtTierAppend(a, b, rank, t);
      }
      assert AtTier(a, rank, t) == if t < n - 1 then x else [] by {
        AtTierOfTiers(u, rank, n - 1, t);
      }
      assert AtTier(b, rank, t) == if t == n - 1 then x else [] by {
        AtTierTwice(u, rank, n - 1, t);
      }
      PickTier(x, AtTier(a, rank, t), AtTier(b, rank, t), n, t);
    }
  }

  lemma PickTier(x: Entries<string, string>, p: Entries<string, string>, q: Entries<string, string>, n: nat, t: nat)
    requires n > 0
    requires p == (if t < n - 1 then x else []) && q == (if t == n - 1 then x else [])
    ensures p + q == if t < n then x else []
  {
    if t < n - 1 {
      assert p + q == x + [];
    } else if t == n - 1 {
      assert p + q == [] + x;
    } else {
      assert p + q == [] + [];
    }
  }

  /** The ranking is stable: within every rank, including the unmatched
      keys appended last, the variants keep the order they were found in. */
  lemma RankedStable(order: seq<string>, u: Entries<string, string>, t: nat)
    requires t <= |order|
    ensures AtTier(Ranked(order, u), RankOf(order), t) == AtTier(u, RankOf(order), t)
  {
    var rank, n := RankOf(order), |order|;
    var a, b, x := Tiers(u, rank, n), FromTier(u, rank, n), AtTier(u, rank, t);
    assert AtTier(Ranked(order, u), rank, t) == AtTier(a, rank, t) + AtTier(b, rank, t) by {
      AtTierAppend(a, b, rank, t);
    }
    assert AtTier(a, rank, t) == if t < n then x else [] by {
      AtTierOfTiers(u, rank, n, t);
    }
    assert AtTier(b, rank, t) == if n <= t then x else [] by {
      AtTierOfFrom(u, rank, n, t);
    }
    if t < n {
      assert AtTier(a, rank, t) + AtTier(b, rank, t) == x + [];
    } else {
      assert AtTier(a, rank, t) + AtTier(b, rank, t) == [] + x;
    }
  }

  // ---------------------------------------------------------------------
  // The object returned

  /** Runs of distinct ranks share no key, since a key has one rank. */
  lemma UniqueJoin(a: Entries<string, string>, b: Entries<string, string>, rank: string -> nat, n: nat)
    requires UniqueKeys(a) && UniqueKeys(b)
    requires forall i :: 0 <= i < |a| ==> rank(a[i].0) < n
    requires forall x :: x in b ==> rank(x.0) >= n
    ensures UniqueKeys(a + b)
  {
    forall i, j | 0 <= i < j < |a + b| ensures (a + b)[i].0 != (a + b)[j].0 {
      if j >= |a| {
        assert (a + b)[j] == b[j - |a|] && b[j - |a|] in b;
        if i >= |a| {
          assert (a + b)[i] == b[i - |a|];
        }
      }
    }
  }

  lemma {:induction false} TiersUnique(u: Entries<string, string>, rank: string -> nat, n: nat)
    requires UniqueKeys(u)
    ensures UniqueKeys(Tiers(u, rank, n))
  {
    if n > 0 {
      TiersUnique(u, rank, n - 1);
      TierJoinUnique(u, rank, n - 1);
    }
  }

  /** One more rank joins the ranks before it without repeating a key. */
  lemma TierJoinUnique(u: Entries<string, string>, rank: string -> nat, m: nat)
    requires UniqueKeys(u) && UniqueKeys(Tiers(u, rank, m))
    ensures UniqueKeys(Tiers(u, rank, m + 1))
  {
    var a, b := Tiers(u, rank, m), AtTier(u, rank, m);
    assert forall i :: 0 <= i < |a| ==> rank(a[i].0) < m by {
      TiersSorted(u, rank, m);
    }
    assert UniqueKeys(b) && forall x :: x in b ==> rank(x.0) >= m by {
      AtTierUnique(u, rank, m);
      AtTierIn(u, rank, m);
    }
    UniqueJoin(a, b, rank, m);
  }

  lemma RankedUnique(order: seq<string>, u: Entries<string, string>)
    requires UniqueKeys(u)
    ensures UniqueKeys(Ranked(order, u))
  {
    var rank := RankOf(order);
    TiersUnique(u, rank, |order|);
    TiersSorted(u, rank, |order|);
    FromTierUnique(u, rank, |order|);
    FromTierIn(u, rank, |order|);
    UniqueJoin(Tiers(u, rank, |order|), FromTier(u, rank, |order|), rank, |order|);
  }

  /** An entry of a uniquely keyed object is what its key looks up. */
  lemma EntryIsLookup(e: Entries<string, string>, x: (string, string))
    requires UniqueKeys(e) && x in e
    ensures Get(e, x.0) == Some(x.1)
  {
    var i :| 0 <= i < |e| && e[i] == x;
    GetUnique(e, i);
  }

  /** The master entry followed by the ranked variants, for any ranking
      list: the master key comes first, keys are unique, every other key
      looks up what the variants hold, and the master key keeps its link
      unless a variant carries it. */
  lemma MasterThenRanked(order: seq<string>, u: Entries<string, string>, auto: string, masterUrl: string, k: string)
    requires UniqueKeys(u)
    ensures var links := PutAll([(auto, masterUrl)], Ranked(order, u));
      && |links| >= 1 && links[0].0 == auto
      && UniqueKeys(links)
      && (k != auto ==> Get(links, k) == Get(u, k))
      && (k == auto ==> Get(links, k) == if HasKey(u, auto) then Get(u, auto) else Some(masterUrl))
  {
    var start := [(auto, masterUrl)];
    var r := Ranked(order, u);
    assert UniqueKeys(r) && multiset(r) == multiset(u) by {
      RankedUnique(order, u);
      RankedPermutation(order, u);
    }
    var links := PutAll(start, r);
    assert |links| >= 1 && links[0].0 == auto && UniqueKeys(links) by {
      PutAllKeepsKeys(start, r);
      PutAllUnique(start, r);
    }
    PermutedLookup(start, r, u, k);
  }

  /** Putting a permutation of `u`'s entries over `start` looks up like
      `u` where `u` has the key, and like `start` elsewhere. */
  lemma PermutedLookup(start: Entries<string, string>, r: Entries<string, string>, u: Entries<string, string>, k: string)
    requires UniqueKeys(u) && UniqueKeys(r) && multiset(r) == multiset(u)
    ensures Get(PutAll(start, r), k) == if HasKey(u, k) then Get(u, k) else Get(start, k)
  {
    if HasKey(u, k) {
      var x := u[KeyIndex(u, k)];
      assert x in multiset(r);
      var i :| 0 <= i < |r| && r[i] == x;
      PutAllGetLast(start, r, i);
      EntryIsLookup(u, x);
    } else {
      forall i | 0 <= i < |r| ensures r[i].0 != k {
        assert r[i] in multiset(u);
        assert r[i] in u;
        EntryKeyed(u, r[i]);
      }
      PutAllUntouched(start, r, k);
    }
  }


  /** With no variant carrying the master key, the master entry is simply
      followed by the ranked variants. */
  lemma MasterThenRankedShape(order: seq<string>, u: Entries<string, string>, auto: string, masterUrl: string)
    requires UniqueKeys(u) && !HasKey(u, auto)
    ensures PutAll([(auto, masterUrl)], Ranked(order, u)) == [(auto, masterUrl)] + Ranked(order, u)
  {
    var r := Ranked(order, u);
    RankedUnique(order, u);
    RankedPermutation(order, u);
    forall i | 0 <= i < |r| ensures !HasKey([(auto, masterUrl)], r[i].0) {
      assert r[i] in multiset(u);
      assert r[i] in u;
      EntryKeyed(u, r[i]);
    }
    PutAllFresh([(auto, masterUrl)], r);
  }

  /** The object `parseM3U8` returns: `Auto` comes first, keys are unique,
      and every variant key looks up exactly the link the scan recorded for
      it; `Auto` holds the master playlist unless a variant is itself
      labelled `Auto`, which then overwrites it in place. */
  lemma WorkerLinksContents(content: string, masterUrl: string, k: string)
    ensures var links, u := WorkerLinks(content, masterUrl), Unsorted(content);
      && u == PutAll([], Pairing("", Split(content, '\n')))
      && |links| >= 1 && links[0].0 == Auto
      && UniqueKeys(links)
      && (k != Auto ==> Get(links, k) == Get(u, k))
      && (k == Auto ==> Get(links, k) == if HasKey(u, Auto) then Get(u, Auto) else Some(masterUrl))
  {
    FoldIsPairing(Scan([], ""), Split(content, '\n'));
    UnsortedUnique(content);
    MasterThenRanked(Order, Unsorted(content), Auto, masterUrl, k);
  }

  /** When no variant is labelled `Auto`, the result is the master entry
      followed by the ranked variants. */
  lemma WorkerLinksShape(content: string, masterUrl: string)
    requires !HasKey(Unsorted(content), Auto)
    ensures WorkerLinks(content, masterUrl) == [(Auto, masterUrl)] + Ranked(Order, Unsorted(content))
  {
    UnsortedUnique(content);
    MasterThenRankedShape(Order, Unsorted(content), Auto, masterUrl);
  }
}
