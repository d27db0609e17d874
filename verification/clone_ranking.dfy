/** Ranking the duplicate groups: `Clones.score` and `Index.clones`, which
    keeps the groups with more than one member and sorts them by score,
    highest first, with Python's stable `sorted(..., reverse=True)`. */
module CloneRanking {
  import opened Seqs
  import opened SyntaxTree
  import opened CloneSource
  import opened CloneIndex

  /** A group's score: the node count of its first clone, the number of
      clones, and the length of the first clone's source text. */
  datatype Score = Score(nodes: nat, clones: nat, size: nat)

  /** Python's tuple comparison `a <= b`: lexicographic. */
  predicate ScoreLe(a: Score, b: Score) {
    || a.nodes < b.nodes
    || (a.nodes == b.nodes && (a.clones < b.clones || (a.clones == b.clones && a.size <= b.size)))
  }

  /** The comparison is a total order. */
  lemma ScoreLeTotalOrder(a: Score, b: Score, c: Score)
    ensures ScoreLe(a, a)
    ensures ScoreLe(a, b) || ScoreLe(b, a)
    ensures ScoreLe(a, b) && ScoreLe(b, a) ==> a == b
    ensures ScoreLe(a, b) && ScoreLe(b, c) ==> ScoreLe(a, c)
  {
  }

  /** `Clones.score`: computed from the first clone of the group only,
      with the source taken without indent. */
  function GroupScore(g: Clones): (s: Score)
    ensures s.clones == |g|
    ensures s.nodes == |LinedBelow(g[0].node)|
    ensures s.size == |Source(g[0], "").2|
  {
    Score(PositionOf(g[0].node).node_count, |g|, |Source(g[0], "").2|)
  }

  /** Only the first clone and the group's size matter. */
  lemma ScoreUsesFirstCloneOnly(g: Clones, h: Clones)
    requires g[0] == h[0] && |g| == |h|
    ensures GroupScore(g) == GroupScore(h)
  {
  }

  // ---------------------------------------------------------------------
  // Stable sort, highest score first

  /** Sorted from the highest key down. */
  predicate SortedDesc<T>(s: seq<T>, key: T -> Score) {
    forall i, j :: 0 <= i < j < |s| ==> ScoreLe(key(s[j]), key(s[i]))
  }

  /** The elements with key `v`, in order. */
  function WithKey<T>(s: seq<T>, key: T -> Score, v: Score): seq<T> {
    if |s| == 0 then []
    else (if key(s[0]) == v then [s[0]] else []) + WithKey(s[1..], key, v)
  }

  /** Puts `x` in front of the first element whose key is not above its
      own: `x` comes earlier in the input than every element of `s`, so it
      goes before the ones with the same key. */
  function InsertDesc<T>(x: T, s: seq<T>, key: T -> Score): (r: seq<T>)
    ensures multiset(r) == multiset(s) + multiset{x}
  {
    if |s| == 0 then [x]
    else if ScoreLe(key(s[0]), key(x)) then [x] + s
    else
      assert s == [s[0]] + s[1..];
      [s[0]] + InsertDesc(x, s[1..], key)
  }

  /** `sorted(s, key=key, reverse=True)`. */
  function SortDesc<T>(s: seq<T>, key: T -> Score): (r: seq<T>)
    ensures multiset(r) == multiset(s)
  {
    if |s| == 0 then []
    else
      assert s == [s[0]] + s[1..];
      InsertDesc(s[0], SortDesc(s[1..], key), key)
  }

  lemma {:induction false} InsertDescSorted<T>(x: T, s: seq<T>, key: T -> Score)
    requires SortedDesc(s, key)
    ensures SortedDesc(InsertDesc(x, s, key), key)
  {
    if |s| > 0 && !ScoreLe(key(s[0]), key(x)) {
      var rest := InsertDesc(x, s[1..], key);
      InsertDescSorted(x, s[1..], key);
      forall y | y in rest
        ensures ScoreLe(key(y), key(s[0]))
      {
        assert y in multiset(rest);
        if y != x {
          assert y in multiset(s[1..]);
          var j :| 0 <= j < |s[1..]| && s[1..][j] == y;
          assert s[j + 1] == y;
        }
      }
      var r := [s[0]] + rest;
      forall i, j | 0 <= i < j < |r|
        ensures ScoreLe(key(r[j]), key(r[i]))
      {
        if i == 0 {
          assert r[j] in rest;
        } else {
          assert r[i] == rest[i - 1] && r[j] == rest[j - 1];
        }
      }
    } else if |s| > 0 {
      var r := [x] + s;
      forall i, j | 0 <= i < j < |r|
        ensures ScoreLe(key(r[j]), key(r[i]))
      {
        if i == 0 {
          ScoreLeTotalOrder(key(r[j]), key(s[0]), key(x));
        }
      }
    }
  }

  lemma {:induction false} InsertDescWithKey<T>(x: T, s: seq<T>, key: T -> Score, v: Score)
    ensures WithKey(InsertDesc(x, s, key), key, v)
      == (if key(x) == v then [x] else []) + WithKey(s, key, v)
  {
    if |s| == 0 {
    } else if ScoreLe(key(s[0]), key(x)) {
      assert ([x] + s)[1..] == s;
    } else {
      ScoreLeTotalOrder(key(x), key(x), key(x));
      assert key(s[0]) != key(x);
      var rest := InsertDesc(x, s[1..], key);
      InsertDescWithKey(x, s[1..], key, v);
      assert ([s[0]] + rest)[1..] == rest;
    }
  }

  /** The sort returns its input in order of descending score, and keeps
      the input order among elements with equal scores. */
  lemma {:induction false} SortDescSpec<T>(s: seq<T>, key: T -> Score)
    ensures SortedDesc(SortDesc(s, key), key)
    ensures forall v :: WithKey(SortDesc(s, key), key, v) == WithKey(s, key, v)
  {
    if |s| > 0 {
      SortDescSpec(s[1..], key);
      InsertDescSorted(s[0], SortDesc(s[1..], key), key);
      forall v
        ensures WithKey(SortDesc(s, key), key, v) == WithKey(s, key, v)
      {
        InsertDescWithKey(s[0], SortDesc(s[1..], key), key, v);
      }
    }
  }

  // ---------------------------------------------------------------------
  // `Index.clones`

  /** A digest with its group of clones, as `nodes.items()` yields them. */
  type Group = (string, Clones)

  /** The groups with more than one clone, in key order. */
  function Candidates(keys: seq<string>, groups: map<string, Clones>): (r: seq<Group>)
    ensures forall g :: g in r <==> g.0 in keys && g.0 in groups && g.1 == groups[g.0] && |g.1| > 1
  {
    if |keys| == 0 then []
    else
      var k := keys[0];
      assert forall x :: x in keys <==> x == k || x in keys[1..] by {
        assert keys == [k] + keys[1..];
      }
      (if k in groups && |groups[k]| > 1 then [(k, groups[k])] else []) + Candidates(keys[1..], groups)
  }

  /** The key of a group in the sort: its score. */
  function GroupKey(g: Group): Score {
    GroupScore(g.1)
  }

  /** `Index.clones()`. */
  function ClonesOf(ix: Index): (r: seq<Group>)
    ensures multiset(r) == multiset(Candidates(ix.keys, ix.groups))
    ensures SortedDesc(r, GroupKey)
  {
    SortDescSpec(Candidates(ix.keys, ix.groups), GroupKey);
    SortDesc(Candidates(ix.keys, ix.groups), GroupKey)
  }

  /** `clones()` returns exactly the groups with more than one member,
      highest score first; groups with equal scores stay in the order the
      index first saw their digests. */
  lemma ClonesOfSpec(ix: Index)
    ensures forall g :: g in ClonesOf(ix) <==> g.0 in ix.keys && g.0 in ix.groups && g.1 == ix.groups[g.0] && |g.1| > 1
    ensures SortedDesc(ClonesOf(ix), GroupKey)
    ensures forall v :: WithKey(ClonesOf(ix), GroupKey, v) == WithKey(Candidates(ix.keys, ix.groups), GroupKey, v)
  {
    var c := Candidates(ix.keys, ix.groups);
    SortDescSpec(c, GroupKey);
    forall g
      ensures g in ClonesOf(ix) <==> g in c
    {
      assert g in ClonesOf(ix) <==> g in multiset(ClonesOf(ix));
      assert g in c <==> g in multiset(c);
    }
  }
}
