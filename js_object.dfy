/** A JavaScript plain object with string keys, as the playlist parsers use
    one (`links`, `unsorted`, `sorted`, `unsortedLinks`): an ordered list of
    entries whose keys are unique. Assigning to an existing key replaces its
    value where it stands; assigning to a new key appends it; `delete`
    removes it. Insertion order is the order `Object.keys`, `Object.values`,
    `Object.assign` and `JSON.stringify` see. */
module JsObject {
  import opened Wrappers

  type Entries<K, V> = seq<(K, V)>

  /** `Object.keys(obj)`. */
  function Keys<K, V>(e: Entries<K, V>): (ks: seq<K>)
    ensures |ks| == |e|
    ensures forall i :: 0 <= i < |e| ==> ks[i] == e[i].0
  {
    if e == [] then [] else [e[0].0] + Keys(e[1..])
  }

  predicate UniqueKeys<K(==), V>(e: Entries<K, V>)
  {
    forall i, j :: 0 <= i < j < |e| ==> e[i].0 != e[j].0
  }

  /** Where `k` stands among the entries: the first index holding it, or
      `|e|` when it is absent. */
  function KeyIndex<K(==), V>(e: Entries<K, V>, k: K): (i: nat)
    ensures i <= |e|
    ensures i < |e| ==> e[i].0 == k
    ensures forall j :: 0 <= j < i ==> e[j].0 != k
  {
    if e == [] then 0
    else if e[0].0 == k then 0
    else KeyIndex(e[1..], k) + 1
  }

  /** `k in obj`. */
  predicate HasKey<K(==), V>(e: Entries<K, V>, k: K)
  {
    KeyIndex(e, k) < |e|
  }

  lemma HasKeyIff<K, V>(e: Entries<K, V>, k: K)
    ensures HasKey(e, k) <==> k in Keys(e)
  {
    if k in Keys(e) {
      var j :| 0 <= j < |e| && Keys(e)[j] == k;
      assert e[j].0 == k;
    }
  }

  /** The key of any entry is present. */
  lemma EntryKeyed<K, V>(e: Entries<K, V>, x: (K, V))
    requires x in e
    ensures HasKey(e, x.0)
  {
    var i :| 0 <= i < |e| && e[i] == x;
    assert Keys(e)[i] == x.0;
    HasKeyIff(e, x.0);
  }

  /** `obj[k]`: the value stored under `k`, `None` for `undefined`. */
  function Get<K(==), V>(e: Entries<K, V>, k: K): (r: Option<V>)
    ensures r.None? <==> !HasKey(e, k)
    ensures r.Some? ==> (k, r.value) in e
  {
    var i := KeyIndex(e, k);
    if i < |e| then Some(e[i].1) else None
  }

  /** Two entry lists with the same keys in the same places find every key
      in the same place. */
  lemma {:induction false} KeyIndexSame<K, V>(e: Entries<K, V>, r: Entries<K, V>, k: K)
    requires |e| == |r|
    requires forall j :: 0 <= j < |e| ==> e[j].0 == r[j].0
    ensures KeyIndex(r, k) == KeyIndex(e, k)
  {
    if e != [] && e[0].0 != k {
      KeyIndexSame(e[1..], r[1..], k);
    }
  }

  /** A key absent from a prefix is found where the rest puts it. */
  lemma {:induction false} KeyIndexPrefix<K, V>(a: Entries<K, V>, b: Entries<K, V>, k: K)
    requires !HasKey(a, k)
    ensures KeyIndex(a + b, k) == |a| + KeyIndex(b, k)
  {
    if a == [] {
      assert a + b == b;
    } else {
      assert (a + b)[1..] == a[1..] + b;
      KeyIndexPrefix(a[1..], b, k);
    }
  }

  /** A key present in a prefix is found there. */
  lemma {:induction false} KeyIndexInPrefix<K, V>(a: Entries<K, V>, b: Entries<K, V>, k: K)
    requires HasKey(a, k)
    ensures KeyIndex(a + b, k) == KeyIndex(a, k)
  {
    if a[0].0 != k {
      assert (a + b)[1..] == a[1..] + b;
      KeyIndexInPrefix(a[1..], b, k);
    }
  }

  /** `obj[k] = v`: an existing key keeps its place and takes the new value,
      a new key goes last. */
  function Put<K(==), V>(e: Entries<K, V>, k: K, v: V): (r: Entries<K, V>)
    ensures HasKey(e, k) ==> |r| == |e| && Keys(r) == Keys(e)
    ensures !HasKey(e, k) ==> r == e + [(k, v)]
    ensures Get(r, k) == Some(v)
  {
    var i := KeyIndex(e, k);
    if i < |e| then
      var r := e[i := (k, v)];
      assert KeyIndex(r, k) == i by {
        KeyIndexSame(e, r, k);
      }
      r
    else
      var r := e + [(k, v)];
      assert KeyIndex(r, k) == |e| by {
        KeyIndexPrefix(e, [(k, v)], k);
      }
      r
  }

  /** Assignment to `k` changes no other key's value. */
  lemma PutGetOther<K, V>(e: Entries<K, V>, k: K, v: V, k': K)
    requires k' != k
    ensures Get(Put(e, k, v), k') == Get(e, k')
  {
    var r := Put(e, k, v);
    if HasKey(e, k) {
      KeyIndexSame(e, r, k');
    } else if HasKey(e, k') {
      KeyIndexInPrefix(e, [(k, v)], k');
    } else {
      KeyIndexPrefix(e, [(k, v)], k');
    }
  }

  /** Assignment never duplicates a key. */
  lemma PutUnique<K, V>(e: Entries<K, V>, k: K, v: V)
    requires UniqueKeys(e)
    ensures UniqueKeys(Put(e, k, v))
  {
  }

  /** `delete obj[k]`: the entry holding `k` goes, the others keep their
      order and values. */
  function Delete<K(==), V>(e: Entries<K, V>, k: K): (r: Entries<K, V>)
    ensures !HasKey(e, k) ==> r == e
    ensures HasKey(e, k) ==> |r| == |e| - 1
  {
    var i := KeyIndex(e, k);
    if i < |e| then e[..i] + e[i + 1..] else e
  }

  /** Deleting a key leaves no entry for it behind. */
  lemma DeleteGone<K, V>(e: Entries<K, V>, k: K)
    requires UniqueKeys(e)
    ensures !HasKey(Delete(e, k), k)
  {
    var i := KeyIndex(e, k);
    if i < |e| {
      var a, b := e[..i], e[i + 1..];
      assert Delete(e, k) == a + b;
      forall j | 0 <= j < |b| ensures b[j].0 != k {
        assert b[j] == e[i + 1 + j];
      }
      KeyIndexPrefix(a, b, k);
    }
  }

  /** Deleting a key changes no other key's value. */
  lemma DeleteGetOther<K, V>(e: Entries<K, V>, k: K, k': K)
    requires k' != k
    ensures Get(Delete(e, k), k') == Get(e, k')
  {
    var i := KeyIndex(e, k);
    if i < |e| {
      var a, b := e[..i], e[i + 1..];
      assert e == a + ([e[i]] + b) by {
        CutAround(e, i, i + 1);
      }
      assert Delete(e, k) == a + b;
      SkipGetOther(a, e[i], b, k');
    }
  }

  /** Removing an entry whose key is not `k'` leaves `k'`'s value alone. */
  lemma SkipGetOther<K, V>(a: Entries<K, V>, x: (K, V), b: Entries<K, V>, k': K)
    requires x.0 != k'
    ensures Get(a + b, k') == Get(a + ([x] + b), k')
  {
    if HasKey(a, k') {
      GetInPrefix(a, b, k');
      GetInPrefix(a, [x] + b, k');
    } else {
      GetPastPrefix(a, b, k');
      GetPastPrefix(a, [x] + b, k');
      GetPastPrefix([x], b, k');
    }
  }

  lemma GetInPrefix<K, V>(a: Entries<K, V>, b: Entries<K, V>, k: K)
    requires HasKey(a, k)
    ensures Get(a + b, k) == Get(a, k)
  {
    KeyIndexInPrefix(a, b, k);
  }

  lemma GetPastPrefix<K, V>(a: Entries<K, V>, b: Entries<K, V>, k: K)
    requires !HasKey(a, k)
    ensures Get(a + b, k) == Get(b, k)
  {
    KeyIndexPrefix(a, b, k);
    var i := KeyIndex(b, k);
    if i < |b| {
      assert (a + b)[|a| + i] == b[i];
    }
  }

  lemma CutAround<T>(s: seq<T>, i: nat, j: nat)
    requires i <= j <= |s|
    ensures s == s[..i] + (s[i..j] + s[j..])
  {
    assert s == s[..i] + s[i..];
    assert s[i..] == s[i..j] + s[j..];
  }

  /** Assigning the entries of `xs` one after another, as a loop of
      `obj[k] = v` or `Object.assign(obj, xs)` does. */
  function PutAll<K(==), V>(e: Entries<K, V>, xs: Entries<K, V>): Entries<K, V>
    decreases |xs|
  {
    if xs == [] then e else PutAll(Put(e, xs[0].0, xs[0].1), xs[1..])
  }

  lemma {:induction false} PutAllAppend<K, V>(e: Entries<K, V>, xs: Entries<K, V>, ys: Entries<K, V>)
    ensures PutAll(e, xs + ys) == PutAll(PutAll(e, xs), ys)
    decreases |xs|
  {
    if xs == [] {
      assert xs + ys == ys;
    } else {
      assert (xs + ys)[0] == xs[0] && (xs + ys)[1..] == xs[1..] + ys;
      PutAllAppend(Put(e, xs[0].0, xs[0].1), xs[1..], ys);
    }
  }

  lemma PutAllOne<K, V>(e: Entries<K, V>, k: K, v: V)
    ensures PutAll(e, [(k, v)]) == Put(e, k, v)
  {
    assert [(k, v)][1..] == [];
  }

  /** Assigning entries whose keys are new and distinct appends them. */
  lemma {:induction false} PutAllFresh<K, V>(e: Entries<K, V>, xs: Entries<K, V>)
    requires UniqueKeys(xs)
    requires forall i :: 0 <= i < |xs| ==> !HasKey(e, xs[i].0)
    ensures PutAll(e, xs) == e + xs
    decreases |xs|
  {
    if xs == [] {
      assert e + xs == e;
    } else {
      FreshStep(e, xs);
      PutAllFresh(e + [xs[0]], xs[1..]);
      FreshJoin(e, xs);
    }
  }

  lemma FreshJoin<K, V>(e: Entries<K, V>, xs: Entries<K, V>)
    requires xs != [] && Put(e, xs[0].0, xs[0].1) == e + [xs[0]]
    requires PutAll(e + [xs[0]], xs[1..]) == e + [xs[0]] + xs[1..]
    ensures PutAll(e, xs) == e + xs
  {
    assert PutAll(e, xs) == PutAll(e + [xs[0]], xs[1..]);
    assert e + [xs[0]] + xs[1..] == e + xs by {
      assert xs == [xs[0]] + xs[1..];
      SeqAssoc(e, [xs[0]], xs[1..]);
    }
  }

  lemma SeqAssoc<T>(a: seq<T>, b: seq<T>, c: seq<T>)
    ensures a + b + c == a + (b + c)
  {
  }

  /** The first fresh assignment appends, and leaves the other keys fresh. */
  lemma FreshStep<K, V>(e: Entries<K, V>, xs: Entries<K, V>)
    requires xs != [] && UniqueKeys(xs)
    requires forall i :: 0 <= i < |xs| ==> !HasKey(e, xs[i].0)
    ensures Put(e, xs[0].0, xs[0].1) == e + [xs[0]]
    ensures UniqueKeys(xs[1..])
    ensures forall i :: 0 <= i < |xs[1..]| ==> !HasKey(e + [xs[0]], xs[1..][i].0)
  {
    assert !HasKey(e, xs[0].0);
    forall i | 0 <= i < |xs[1..]| ensures !HasKey(e + [xs[0]], xs[1..][i].0) {
      assert xs[1..][i] == xs[i + 1];
      KeyIndexPrefix(e, [xs[0]], xs[i + 1].0);
    }
  }

  /** A key occurs at most once, so the entry at index `i` is what `Get`
      finds for its key. */
  lemma GetUnique<K, V>(e: Entries<K, V>, i: nat)
    requires UniqueKeys(e) && i < |e|
    ensures KeyIndex(e, e[i].0) == i
    ensures Get(e, e[i].0) == Some(e[i].1)
  {
  }

  /** Deleting the key of the first entry that holds it removes exactly that
      entry and keeps the others in order. */
  lemma DeleteMiddle<K, V>(a: Entries<K, V>, x: (K, V), b: Entries<K, V>)
    requires !HasKey(a, x.0)
    ensures Delete(a + [x] + b, x.0) == a + b
  {
    var e := a + [x] + b;
    assert KeyIndex(e, x.0) == |a| by {
      KeyIndexPrefix(a, [x] + b, x.0);
      assert e == a + ([x] + b);
    }
    assert e[..|a|] == a && e[|a| + 1..] == b;
  }

  /** Assigning keys other than `k` leaves `k`'s value alone. */
  lemma {:induction false} PutAllUntouched<K, V>(e: Entries<K, V>, xs: Entries<K, V>, k: K)
    requires forall i :: 0 <= i < |xs| ==> xs[i].0 != k
    ensures Get(PutAll(e, xs), k) == Get(e, k)
    decreases |xs|
  {
    if xs != [] {
      PutGetOther(e, xs[0].0, xs[0].1, k);
      PutAllUntouched(Put(e, xs[0].0, xs[0].1), xs[1..], k);
    }
  }

  /** After a run of assignments a key holds the value of its last
      assignment. */
  lemma PutAllGetLast<K, V>(e: Entries<K, V>, xs: Entries<K, V>, i: nat)
    requires i < |xs|
    requires forall j :: i < j < |xs| ==> xs[j].0 != xs[i].0
    ensures Get(PutAll(e, xs), xs[i].0) == Some(xs[i].1)
  {
    var before, after := xs[..i], xs[i + 1..];
    assert xs == before + [xs[i]] + after;
    PutAllAppend(e, before + [xs[i]], after);
    PutAllAppend(e, before, [xs[i]]);
    PutAllOne(PutAll(e, before), xs[i].0, xs[i].1);
    forall j | 0 <= j < |after| ensures after[j].0 != xs[i].0 {
      assert after[j] == xs[i + 1 + j];
    }
    PutAllUntouched(PutAll(e, before + [xs[i]]), after, xs[i].0);
  }

  /** Assignment never moves or removes a key that is already there. */
  lemma {:induction false} PutAllKeepsKeys<K, V>(e: Entries<K, V>, xs: Entries<K, V>)
    ensures |PutAll(e, xs)| >= |e|
    ensures forall i :: 0 <= i < |e| ==> PutAll(e, xs)[i].0 == e[i].0
    decreases |xs|
  {
    if xs != [] {
      var e' := Put(e, xs[0].0, xs[0].1);
      assert forall i :: 0 <= i < |e| ==> e'[i].0 == e[i].0 by {
        if HasKey(e, xs[0].0) {
          forall i | 0 <= i < |e| ensures e'[i].0 == e[i].0 {
            assert Keys(e')[i] == Keys(e)[i];
          }
        }
      }
      PutAllKeepsKeys(e', xs[1..]);
    }
  }

  /** A run of assignments never duplicates a key. */
  lemma {:induction false} PutAllUnique<K, V>(e: Entries<K, V>, xs: Entries<K, V>)
    requires UniqueKeys(e)
    ensures UniqueKeys(PutAll(e, xs))
    decreases |xs|
  {
    if xs != [] {
      PutUnique(e, xs[0].0, xs[0].1);
      PutAllUnique(Put(e, xs[0].0, xs[0].1), xs[1..]);
    }
  }

  /** Assignment invents nothing: every entry afterwards was there before
      or is the one assigned. */
  lemma PutOrigin<K, V>(e: Entries<K, V>, k: K, v: V)
    ensures forall x :: x in Put(e, k, v) ==> x in e || x == (k, v)
  {
    var i := KeyIndex(e, k);
    if i < |e| {
      forall x | x in Put(e, k, v) ensures x in e || x == (k, v) {
        var j :| 0 <= j < |e| && e[i := (k, v)][j] == x;
        if j != i {
          assert e[j] == x;
        }
      }
    }
  }

  /** A run of assignments invents nothing. */
  lemma {:induction false} PutAllOrigin<K, V>(e: Entries<K, V>, xs: Entries<K, V>)
    ensures forall x :: x in PutAll(e, xs) ==> x in e || x in xs
    decreases |xs|
  {
    if xs != [] {
      PutOrigin(e, xs[0].0, xs[0].1);
      PutAllOrigin(Put(e, xs[0].0, xs[0].1), xs[1..]);
      forall x | x in xs[1..] ensures x in xs {
        var j :| 0 <= j < |xs[1..]| && xs[1..][j] == x;
        assert xs[j + 1] == x;
      }
    }
  }
}
