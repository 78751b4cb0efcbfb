/**
 * `sorted(properties, key=lambda p: p["@id"])`: Python's string order and its
 * stable sort, over property nodes keyed by their "@id".
 */
module Ordering {
  import opened Wrappers
  import opened Schema

  /** Python's `<` on str: code point by code point, a proper prefix first. */
  predicate StrLess(a: string, b: string)
    decreases |a|
  {
    if a == [] then b != []
    else if b == [] then false
    else a[0] < b[0] || (a[0] == b[0] && StrLess(a[1..], b[1..]))
  }

  lemma {:induction false} StrLessIrreflexive(a: string)
    ensures !StrLess(a, a)
    decreases |a|
  {
    if a != [] {
      StrLessIrreflexive(a[1..]);
    }
  }

  lemma {:induction false} StrLessTransitive(a: string, b: string, c: string)
    requires StrLess(a, b) && StrLess(b, c)
    ensures StrLess(a, c)
    decreases |a|
  {
    if a != [] && a[0] == b[0] && b[0] == c[0] {
      StrLessTransitive(a[1..], b[1..], c[1..]);
    }
  }

  /** Every node has an "@id", so the sort key can be computed for each. */
  predicate HasIds(ps: seq<Doc>) {
    forall p <- ps :: p.id.Some?
  }

  /** Ascending "@id" order: no later node has a smaller id than an earlier one. */
  predicate SortedById(ps: seq<Doc>)
    requires HasIds(ps)
  {
    forall i, j :: 0 <= i < j < |ps| ==> !StrLess(ps[j].id.value, ps[i].id.value)
  }

  /** Places `p` after every node whose id is not greater than its own. */
  function Insert(p: Doc, s: seq<Doc>): (r: seq<Doc>)
    requires p.id.Some? && HasIds(s)
    ensures multiset(r) == multiset(s) + multiset{p}
    ensures |r| == |s| + 1 && HasIds(r)
  {
    if s == [] then [p]
    else if StrLess(p.id.value, s[0].id.value) then [p] + s
    else
      assert s == [s[0]] + s[1..];
      var r := [s[0]] + Insert(p, s[1..]);
      assert forall q <- r :: q in multiset(r);
      r
  }

  /**
   * The stable sort by "@id": insertion of each node, in input order, behind
   * every node already placed whose id is not greater.
   */
  function SortById(ps: seq<Doc>): (r: seq<Doc>)
    requires HasIds(ps)
    ensures multiset(r) == multiset(ps)
    ensures |r| == |ps| && HasIds(r)
    decreases |ps|
  {
    if ps == [] then []
    else
      var last := |ps| - 1;
      assert ps == ps[..last] + [ps[last]];
      Insert(ps[last], SortById(ps[..last]))
  }

  lemma {:induction false} InsertSorted(p: Doc, s: seq<Doc>)
    requires p.id.Some? && HasIds(s) && SortedById(s)
    ensures SortedById(Insert(p, s))
    decreases |s|
  {
    if s != [] {
      if StrLess(p.id.value, s[0].id.value) {
        InsertFrontSorted(p, s);
      } else {
        assert Insert(p, s) == [s[0]] + Insert(p, s[1..]);
        InsertSorted(p, s[1..]);
        FirstIsLowerBound(s);
        InsertNoneBelow(p, s[1..], s[0].id.value);
        ConsSorted(s[0], Insert(p, s[1..]));
      }
    }
  }

  /** A node smaller than the first of a sorted list can go in front. */
  lemma InsertFrontSorted(p: Doc, s: seq<Doc>)
    requires p.id.Some? && HasIds(s) && SortedById(s)
    requires s != [] && StrLess(p.id.value, s[0].id.value)
    ensures HasIds([p] + s) && SortedById([p] + s)
  {
    var r := [p] + s;
    forall j | 0 < j < |r|
      ensures !StrLess(r[j].id.value, p.id.value)
    {
      assert r[j] == s[j - 1];
      if StrLess(s[j - 1].id.value, p.id.value) {
        StrLessTransitive(s[j - 1].id.value, p.id.value, s[0].id.value);
        if j - 1 == 0 {
          StrLessIrreflexive(s[0].id.value);
        }
      }
    }
  }

  /** No node of `s` has an id smaller than `b`. */
  predicate NoneBelow(s: seq<Doc>, b: string)
    requires HasIds(s)
  {
    forall i :: 0 <= i < |s| ==> !StrLess(s[i].id.value, b)
  }

  /** Insertion keeps a lower bound that the inserted node also respects. */
  lemma {:induction false} InsertNoneBelow(p: Doc, s: seq<Doc>, b: string)
    requires p.id.Some? && HasIds(s) && NoneBelow(s, b) && !StrLess(p.id.value, b)
    ensures NoneBelow(Insert(p, s), b)
    decreases |s|
  {
    if s != [] && !StrLess(p.id.value, s[0].id.value) {
      var t := Insert(p, s[1..]);
      assert Insert(p, s) == [s[0]] + t;
      InsertNoneBelow(p, s[1..], b);
      forall i | 0 <= i < |[s[0]] + t|
        ensures !StrLess(([s[0]] + t)[i].id.value, b)
      {
        if i > 0 {
          assert ([s[0]] + t)[i] == t[i - 1];
        }
      }
    }
  }

  /** A node no greater than every node of a sorted list can go in front of it. */
  lemma ConsSorted(x: Doc, t: seq<Doc>)
    requires x.id.Some? && HasIds(t) && SortedById(t) && NoneBelow(t, x.id.value)
    ensures HasIds([x] + t) && SortedById([x] + t)
  {
    var r := [x] + t;
    forall i, j | 0 <= i < j < |r|
      ensures !StrLess(r[j].id.value, r[i].id.value)
    {
      assert r[j] == t[j - 1];
      if i > 0 {
        assert r[i] == t[i - 1];
      }
    }
  }

  /** The first node of a sorted list is a lower bound of the rest. */
  lemma FirstIsLowerBound(s: seq<Doc>)
    requires HasIds(s) && SortedById(s) && s != []
    ensures HasIds(s[1..]) && NoneBelow(s[1..], s[0].id.value)
  {
    forall i | 0 <= i < |s[1..]|
      ensures !StrLess(s[1..][i].id.value, s[0].id.value)
    {
      assert s[1..][i] == s[i + 1];
    }
  }

  /** SortById yields the ascending "@id" order. */
  lemma {:induction false} SortByIdSorted(ps: seq<Doc>)
    requires HasIds(ps)
    ensures SortedById(SortById(ps))
    decreases |ps|
  {
    if ps != [] {
      var last := |ps| - 1;
      SortByIdSorted(ps[..last]);
      InsertSorted(ps[last], SortById(ps[..last]));
    }
  }

  /** The nodes of `ps` whose "@id" is `k`, in their order in `ps`. */
  function WithId(ps: seq<Doc>, k: string): seq<Doc> {
    if ps == [] then []
    else (if ps[0].id == Some(k) then [ps[0]] else []) + WithId(ps[1..], k)
  }

  lemma {:induction false} WithIdAppend(a: seq<Doc>, b: seq<Doc>, k: string)
    ensures WithId(a + b, k) == WithId(a, k) + WithId(b, k)
    decreases |a|
  {
    if a != [] {
      assert (a + b)[0] == a[0];
      assert (a + b)[1..] == a[1..] + b;
      WithIdAppend(a[1..], b, k);
    } else {
      assert a + b == b;
    }
  }

  lemma {:induction false} InsertStable(p: Doc, s: seq<Doc>, k: string)
    requires p.id.Some? && HasIds(s) && SortedById(s)
    ensures WithId(Insert(p, s), k) == WithId(s, k) + (if p.id == Some(k) then [p] else [])
    decreases |s|
  {
    if s == [] {
    } else if StrLess(p.id.value, s[0].id.value) {
      assert Insert(p, s) == [p] + s;
      assert ([p] + s)[0] == p && ([p] + s)[1..] == s;
      if p.id == Some(k) {
        NoneGreaterWithId(p.id.value, s, k);
      }
    } else {
      assert s == [s[0]] + s[1..];
      assert Insert(p, s) == [s[0]] + Insert(p, s[1..]);
      InsertStable(p, s[1..], k);
      WithIdConsAppend(s[0], Insert(p, s[1..]), s[1..], if p.id == Some(k) then [p] else [], k);
    }
  }

  /** Prepending a node to both sides keeps an equation between filtered sequences. */
  lemma WithIdConsAppend(x: Doc, t: seq<Doc>, rest: seq<Doc>, tail: seq<Doc>, k: string)
    requires WithId(t, k) == WithId(rest, k) + tail
    ensures WithId([x] + t, k) == WithId([x] + rest, k) + tail
  {
    assert ([x] + t)[0] == x && ([x] + t)[1..] == t;
    assert ([x] + rest)[0] == x && ([x] + rest)[1..] == rest;
    var head := if x.id == Some(k) then [x] else [];
    assert head + (WithId(rest, k) + tail) == head + WithId(rest, k) + tail;
  }

  /** In a sorted list whose first id exceeds `key`, no node has the id `key`. */
  lemma NoneGreaterWithId(key: string, s: seq<Doc>, k: string)
    requires HasIds(s) && SortedById(s) && s != [] && StrLess(key, s[0].id.value) && key == k
    ensures WithId(s, k) == []
  {
    forall i | 0 <= i < |s|
      ensures s[i].id != Some(k)
    {
      if i == 0 {
        StrLessIrreflexive(k);
      }
    }
    WithIdEmpty(s, k);
  }

  lemma {:induction false} WithIdEmpty(s: seq<Doc>, k: string)
    requires forall i | 0 <= i < |s| :: s[i].id != Some(k)
    ensures WithId(s, k) == []
    decreases |s|
  {
    if s != [] {
      WithIdEmpty(s[1..], k);
    }
  }

  /**
   * The sort is stable: the nodes sharing one "@id" keep their relative
   * schema order.
   */
  lemma {:induction false} SortByIdStable(ps: seq<Doc>, k: string)
    requires HasIds(ps)
    ensures WithId(SortById(ps), k) == WithId(ps, k)
    decreases |ps|
  {
    if ps != [] {
      var last := |ps| - 1;
      var init, p := ps[..last], ps[last];
      assert ps == init + [p];
      WithIdAppend(init, [p], k);
      var sortedInit := SortById(init);
      assert SortById(ps) == Insert(p, sortedInit);
      SortByIdStable(init, k);
      SortByIdSorted(init);
      InsertStable(p, sortedInit, k);
      assert WithId([p], k) == if p.id == Some(k) then [p] else [];
    }
  }
}
