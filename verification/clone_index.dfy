/** The clone index: every eligible node of the file, grouped by digest in
    a `defaultdict(Clones)`, built by walking the tree. */
module CloneIndex {
  import opened Wrappers
  import opened Seqs
  import opened SyntaxTree
  import opened Digests
  import opened CloneSource

  /** A group of clones. Groups are created by their first member, so none
      is empty. */
  type Clones = s: seq<Clone> | |s| > 0 witness [Clone(Node("", [], Some(1)), SourceFile("", []))]

  /** The index: the ignored class names, the digests in the order the
      `defaultdict` first saw them, and the group of each digest. */
  datatype Index = Index(blacklist: set<string>, keys: seq<string>, groups: map<string, Clones>)

  /** A node is recorded when it has a line number and its class is not
      ignored. */
  predicate Eligible(n: Node, blacklist: set<string>) {
    n.line.Some? && n.kind !in blacklist
  }

  /** `Index(exclude)`: nothing recorded yet. */
  function Empty(blacklist: set<string>): Index {
    Index(blacklist, [], map[])
  }

  /** One call of `Index.visit`, without the descent (the walk provides
      that): an eligible node is appended, as a clone, to the group of its
      digest, which the digest cache computes. */
  function VisitNode(ix: Index, memo: Memo, n: Node, file: SourceFile): (r: (Index, Memo))
    requires MemoSound(memo)
    ensures MemoSound(r.1)
    ensures !Eligible(n, ix.blacklist) ==> r.0 == ix
    ensures Eligible(n, ix.blacklist) && Digest(n) in ix.groups ==>
      r.0 == ix.(groups := ix.groups[Digest(n) := ix.groups[Digest(n)] + [Clone(n, file)]])
    ensures Eligible(n, ix.blacklist) && Digest(n) !in ix.groups ==>
      r.0 == ix.(keys := ix.keys + [Digest(n)], groups := ix.groups[Digest(n) := [Clone(n, file)]])
  {
    if !Eligible(n, ix.blacklist) then (ix, memo)
    else
      var (d, memo1) := DigestM(n, memo);
      var c := Clone(n, file);
      if d in ix.groups then
        (ix.(groups := ix.groups[d := ix.groups[d] + [c]]), memo1)
      else
        (ix.(keys := ix.keys + [d], groups := ix.groups[d := [c]]), memo1)
  }

  // ---------------------------------------------------------------------
  // What the index should hold, stated per digest

  /** The digests of the eligible nodes, in walk order. */
  function EligibleDigests(blacklist: set<string>, ns: seq<Node>): seq<string> {
    if |ns| == 0 then []
    else
      var m := ns[|ns| - 1];
      EligibleDigests(blacklist, ns[..|ns| - 1]) + (if Eligible(m, blacklist) then [Digest(m)] else [])
  }

  /** The eligible nodes with digest `d`, as clones, in walk order. */
  function Matching(blacklist: set<string>, ns: seq<Node>, file: SourceFile, d: string): seq<Clone> {
    if |ns| == 0 then []
    else
      var m := ns[|ns| - 1];
      var p := Matching(blacklist, ns[..|ns| - 1], file, d);
      if Eligible(m, blacklist) && Digest(m) == d then p + [Clone(m, file)] else p
  }

  lemma {:induction false} MatchingSound(blacklist: set<string>, ns: seq<Node>, file: SourceFile, d: string, c: Clone)
    requires c in Matching(blacklist, ns, file, d)
    ensures c.file == file && c.node in ns && Eligible(c.node, blacklist) && Digest(c.node) == d
  {
    var front := ns[..|ns| - 1];
    if c in Matching(blacklist, front, file, d) {
      MatchingSound(blacklist, front, file, d, c);
    }
  }

  lemma {:induction false} MatchingComplete(blacklist: set<string>, ns: seq<Node>, file: SourceFile, m: Node)
    requires m in ns && Eligible(m, blacklist)
    ensures Clone(m, file) in Matching(blacklist, ns, file, Digest(m))
  {
    var front := ns[..|ns| - 1];
    if m != ns[|ns| - 1] {
      assert ns == front + [ns[|ns| - 1]];
      MatchingComplete(blacklist, front, file, m);
    }
  }

  lemma {:induction false} MatchingNonEmpty(blacklist: set<string>, ns: seq<Node>, file: SourceFile, d: string)
    ensures Matching(blacklist, ns, file, d) != [] <==> d in EligibleDigests(blacklist, ns)
  {
    if |ns| > 0 {
      MatchingNonEmpty(blacklist, ns[..|ns| - 1], file, d);
    }
  }

  /** The index holds what walking `ns` should produce. */
  ghost predicate Indexes(ix: Index, blacklist: set<string>, ns: seq<Node>, file: SourceFile) {
    && ix.blacklist == blacklist
    && ix.keys == FirstSeen(EligibleDigests(blacklist, ns))
    && (forall d :: d in ix.groups <==> d in ix.keys)
    && (forall d :: d in ix.groups ==> ix.groups[d] == Matching(blacklist, ns, file, d))
  }

  lemma WalkSnoc(blacklist: set<string>, ns: seq<Node>, file: SourceFile, d: string)
    requires |ns| > 0
    ensures var front := ns[..|ns| - 1];
      var m := ns[|ns| - 1];
      && EligibleDigests(blacklist, ns)
         == EligibleDigests(blacklist, front) + (if Eligible(m, blacklist) then [Digest(m)] else [])
      && Matching(blacklist, ns, file, d)
         == Matching(blacklist, front, file, d)
            + (if Eligible(m, blacklist) && Digest(m) == d then [Clone(m, file)] else [])
  {
  }

  /** One more node keeps the index in step with the walk. */
  lemma IndexStep(ix: Index, memo: Memo, blacklist: set<string>, ns: seq<Node>, file: SourceFile)
    requires |ns| > 0 && MemoSound(memo)
    requires Indexes(ix, blacklist, ns[..|ns| - 1], file)
    ensures Indexes(VisitNode(ix, memo, ns[|ns| - 1], file).0, blacklist, ns, file)
  {
    var m := ns[|ns| - 1];
    var r := VisitNode(ix, memo, m, file).0;
    if !Eligible(m, blacklist) {
      IndexStepSkip(ix, blacklist, ns, file);
    } else if Digest(m) in ix.groups {
      IndexStepAppend(ix, blacklist, ns, file);
      assert r == ix.(groups := ix.groups[Digest(m) := ix.groups[Digest(m)] + [Clone(m, file)]]);
    } else {
      IndexStepNew(ix, blacklist, ns, file);
      assert r == ix.(keys := ix.keys + [Digest(m)], groups := ix.groups[Digest(m) := [Clone(m, file)]]);
    }
  }

  lemma IndexStepSkip(ix: Index, blacklist: set<string>, ns: seq<Node>, file: SourceFile)
    requires |ns| > 0 && !Eligible(ns[|ns| - 1], blacklist)
    requires Indexes(ix, blacklist, ns[..|ns| - 1], file)
    ensures Indexes(ix, blacklist, ns, file)
  {
    WalkSnoc(blacklist, ns, file, "");
    assert EligibleDigests(blacklist, ns) == EligibleDigests(blacklist, ns[..|ns| - 1]);
    forall d | d in ix.groups
      ensures ix.groups[d] == Matching(blacklist, ns, file, d)
    {
      WalkSnoc(blacklist, ns, file, d);
    }
  }

  lemma IndexStepAppend(ix: Index, blacklist: set<string>, ns: seq<Node>, file: SourceFile)
    requires |ns| > 0 && Eligible(ns[|ns| - 1], blacklist) && Digest(ns[|ns| - 1]) in ix.groups
    requires Indexes(ix, blacklist, ns[..|ns| - 1], file)
    ensures var m := ns[|ns| - 1];
      Indexes(ix.(groups := ix.groups[Digest(m) := ix.groups[Digest(m)] + [Clone(m, file)]]), blacklist, ns, file)
  {
    var m := ns[|ns| - 1];
    var dm := Digest(m);
    var r := ix.(groups := ix.groups[dm := ix.groups[dm] + [Clone(m, file)]]);
    assert r.keys == FirstSeen(EligibleDigests(blacklist, ns)) by {
      var es := EligibleDigests(blacklist, ns[..|ns| - 1]);
      WalkSnoc(blacklist, ns, file, dm);
      FirstSeenSnoc(es, dm);
    }
    AppendGroups(ix, blacklist, ns, file);
  }

  lemma AppendGroups(ix: Index, blacklist: set<string>, ns: seq<Node>, file: SourceFile)
    requires |ns| > 0 && Eligible(ns[|ns| - 1], blacklist) && Digest(ns[|ns| - 1]) in ix.groups
    requires forall d :: d in ix.groups ==> ix.groups[d] == Matching(blacklist, ns[..|ns| - 1], file, d)
    ensures var m := ns[|ns| - 1];
      var groups := ix.groups[Digest(m) := ix.groups[Digest(m)] + [Clone(m, file)]];
      forall d :: d in groups ==> groups[d] == Matching(blacklist, ns, file, d)
  {
    var m := ns[|ns| - 1];
    var groups := ix.groups[Digest(m) := ix.groups[Digest(m)] + [Clone(m, file)]];
    forall d | d in groups
      ensures groups[d] == Matching(blacklist, ns, file, d)
    {
      WalkSnoc(blacklist, ns, file, d);
    }
  }

  lemma IndexStepNew(ix: Index, blacklist: set<string>, ns: seq<Node>, file: SourceFile)
    requires |ns| > 0 && Eligible(ns[|ns| - 1], blacklist) && Digest(ns[|ns| - 1]) !in ix.groups
    requires Indexes(ix, blacklist, ns[..|ns| - 1], file)
    ensures var m := ns[|ns| - 1];
      Indexes(ix.(keys := ix.keys + [Digest(m)], groups := ix.groups[Digest(m) := [Clone(m, file)]]), blacklist, ns, file)
  {
    var front := ns[..|ns| - 1];
    var m := ns[|ns| - 1];
    var dm := Digest(m);
    var r := ix.(keys := ix.keys + [dm], groups := ix.groups[dm := [Clone(m, file)]]);
    assert r.keys == FirstSeen(EligibleDigests(blacklist, ns)) by {
      var es := EligibleDigests(blacklist, front);
      WalkSnoc(blacklist, ns, file, dm);
      FirstSeenSnoc(es, dm);
    }
    assert forall d :: d in r.groups ==> r.groups[d] == Matching(blacklist, ns, file, d) by {
      forall d | d in r.groups
        ensures r.groups[d] == Matching(blacklist, ns, file, d)
      {
        WalkSnoc(blacklist, ns, file, d);
        if d == dm {
          MatchingNonEmpty(blacklist, front, file, dm);
        }
      }
    }
  }

  /** Walking `ns` with the index's `visit`, from an empty index and an
      empty cache. The index holds, for each digest of an eligible node, the
      eligible nodes with that digest in walk order, and its keys are those
      digests in order of first appearance. */
  function IndexNodes(blacklist: set<string>, ns: seq<Node>, file: SourceFile): (r: (Index, Memo))
    ensures MemoSound(r.1)
    ensures r.0.blacklist == blacklist
    ensures r.0.keys == FirstSeen(EligibleDigests(blacklist, ns))
    ensures forall d :: d in r.0.groups <==> d in r.0.keys
    ensures forall d :: d in r.0.groups ==> r.0.groups[d] == Matching(blacklist, ns, file, d)
  {
    if |ns| == 0 then (Empty(blacklist), map[])
    else
      var (ix, memo) := IndexNodes(blacklist, ns[..|ns| - 1], file);
      IndexStep(ix, memo, blacklist, ns, file);
      VisitNode(ix, memo, ns[|ns| - 1], file)
  }

  /** `Index(exclude).add(file)`: the walk starts at the children of the
      module node, which is itself never recorded. */
  function Build(blacklist: set<string>, tree: Node, file: SourceFile): (ix: Index)
    ensures ix.blacklist == blacklist
    ensures ix.keys == FirstSeen(EligibleDigests(blacklist, VisitFields(tree.fields, false)))
    ensures forall d :: d in ix.groups <==> d in ix.keys
    ensures forall d :: d in ix.groups ==> ix.groups[d] == Matching(blacklist, VisitFields(tree.fields, false), file, d)
  {
    IndexNodes(blacklist, VisitFields(tree.fields, false), file).0
  }

  /** A node of the file is recorded, under its digest, exactly when it
      has a line number and its class is not ignored; nodes below an
      unrecorded node are visited all the same. */
  lemma BuildRecordsEligible(blacklist: set<string>, tree: Node, file: SourceFile, m: Node)
    requires m in VisitFields(tree.fields, false)
    ensures var ix := Build(blacklist, tree, file);
      Eligible(m, blacklist) <==> Digest(m) in ix.groups && exists c :: c in ix.groups[Digest(m)] && c.node == m
    ensures forall c :: c in Children(m.fields) ==> c in VisitFields(tree.fields, false)
  {
    var ns := VisitFields(tree.fields, false);
    var ix := Build(blacklist, tree, file);
    if Eligible(m, blacklist) {
      assert Digest(m) in ix.groups by {
        MatchingComplete(blacklist, ns, file, m);
        MatchingNonEmpty(blacklist, ns, file, Digest(m));
      }
      assert Clone(m, file) in ix.groups[Digest(m)] by {
        MatchingComplete(blacklist, ns, file, m);
      }
    } else if Digest(m) in ix.groups {
      forall c | c in ix.groups[Digest(m)]
        ensures c.node != m
      {
        MatchingSound(blacklist, ns, file, Digest(m), c);
      }
    }
    forall c | c in Children(m.fields)
      ensures c in ns
    {
      VisitFieldsClosed(tree.fields, false, m, c);
    }
  }

  /** Keys are listed once each, and every group holds only eligible nodes
      of the file whose digest is the group's key. */
  lemma BuildGroupsWellFormed(blacklist: set<string>, tree: Node, file: SourceFile)
    ensures var ix := Build(blacklist, tree, file);
      && Distinct(ix.keys)
      && forall d, c :: d in ix.groups && c in ix.groups[d] ==>
           c.file == file && Eligible(c.node, blacklist) && Digest(c.node) == d
  {
    var ns := VisitFields(tree.fields, false);
    var ix := Build(blacklist, tree, file);
    forall d, c | d in ix.groups && c in ix.groups[d]
      ensures c.file == file && Eligible(c.node, blacklist) && Digest(c.node) == d
    {
      MatchingSound(blacklist, ns, file, d, c);
    }
  }
}
