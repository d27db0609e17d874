/** `digest`: the canonical text of a subtree, in the style of
    `ast.dump(node, annotate_fields=False)`. Two subtrees are clones of each
    other when their digests are equal. */
module Digests {
  import opened Wrappers
  import opened PyStr
  import opened SyntaxTree

  /** A node digests to its class name and its fields' digests, in field
      order, comma-separated in parentheses. */
  function Digest(n: Node): (r: string)
    ensures StartsWith(r, n.kind + "(") && EndsWith(r, ")")
    decreases n
  {
    n.kind + "(" + Join(FieldDigests(n.fields), ", ") + ")"
  }

  /** A list digests to its items' digests, comma-separated in brackets; a
      primitive to its `repr`. */
  function FieldDigest(f: Field): string
    decreases f
  {
    match f
    case FNode(n) => Digest(n)
    case FList(items) => "[" + Join(FieldDigests(items), ", ") + "]"
    case FPrim(r) => r
  }

  /** The digests of a sequence of fields or list items, in order. */
  function FieldDigests(fs: seq<Field>): (r: seq<string>)
    ensures |r| == |fs|
    ensures forall i :: 0 <= i < |fs| ==> r[i] == FieldDigest(fs[i])
    decreases fs
  {
    if |fs| == 0 then [] else [FieldDigest(fs[0])] + FieldDigests(fs[1..])
  }

  // ---------------------------------------------------------------------
  // Line numbers do not take part

  /** The node with every line number below it removed: its shape. */
  function StripLines(n: Node): (r: Node)
    ensures r.kind == n.kind && r.line.None? && |r.fields| == |n.fields|
    decreases n
  {
    Node(n.kind, StripFields(n.fields), None)
  }

  function StripField(f: Field): Field
    decreases f
  {
    match f
    case FNode(n) => FNode(StripLines(n))
    case FList(items) => FList(StripFields(items))
    case FPrim(r) => FPrim(r)
  }

  function StripFields(fs: seq<Field>): (r: seq<Field>)
    ensures |r| == |fs|
    decreases fs
  {
    if |fs| == 0 then [] else [StripField(fs[0])] + StripFields(fs[1..])
  }

  /** The digest of a node is the digest of its shape. */
  lemma {:induction false} DigestIgnoresLines(n: Node)
    ensures Digest(StripLines(n)) == Digest(n)
    decreases n, 1
  {
    FieldDigestsIgnoreLines(n.fields);
  }

  lemma {:induction false} FieldDigestIgnoresLines(f: Field)
    ensures FieldDigest(StripField(f)) == FieldDigest(f)
    decreases f, 1
  {
    match f
    case FNode(n) => DigestIgnoresLines(n);
    case FList(items) => FieldDigestsIgnoreLines(items);
    case FPrim(_) =>
  }

  lemma {:induction false} FieldDigestsIgnoreLines(fs: seq<Field>)
    ensures FieldDigests(StripFields(fs)) == FieldDigests(fs)
    decreases fs, 0
  {
    if |fs| > 0 {
      FieldDigestIgnoresLines(fs[0]);
      FieldDigestsIgnoreLines(fs[1..]);
    }
  }

  /** Structurally identical subtrees, wherever they sit in the file, have
      the same digest and so land in the same group. */
  lemma SameShapeSameDigest(a: Node, b: Node)
    requires StripLines(a) == StripLines(b)
    ensures Digest(a) == Digest(b)
  {
    DigestIgnoresLines(a);
    DigestIgnoresLines(b);
  }

  /** The converse does not hold of this model: a primitive's `repr` is free
      text and a class's field list is not fixed, so a single field whose
      text contains the separator digests like two fields. */
  lemma DifferentShapesShareDigest()
    ensures var a := Node("K", [FPrim("1, 2")], None);
            var b := Node("K", [FPrim("1"), FPrim("2")], None);
            StripLines(a) != StripLines(b) && Digest(a) == Digest(b)
  {
    var a := Node("K", [FPrim("1, 2")], None);
    var b := Node("K", [FPrim("1"), FPrim("2")], None);
    assert |StripLines(a).fields| != |StripLines(b).fields|;
    assert FieldDigests(b.fields) == ["1", "2"];
    assert Join(["1", "2"], ", ") == Join(["1"], ", ") + ", " + "2";
  }

  // ---------------------------------------------------------------------
  // The cache

  /** The cached digests, `_cached` of each node that has one. Nodes are
      identified by value here; since a digest depends only on the value,
      this changes no result. */
  type Memo = map<Node, string>

  /** Every cached digest is the node's digest. */
  ghost predicate MemoSound(memo: Memo) {
    forall k :: k in memo ==> memo[k] == Digest(k)
  }

  /** Nothing cached is lost or changed. */
  predicate Extends(memo: Memo, memo': Memo) {
    forall k :: k in memo ==> k in memo' && memo'[k] == memo[k]
  }

  /** `digest` with its cache: a node found in the cache returns the cached
      text and leaves the cache alone; otherwise the text is computed from
      the fields (which may fill the cache further) and stored for the node.
      Lists and primitives are not cached. The result is always the
      uncached digest. */
  function DigestM(n: Node, memo: Memo): (r: (string, Memo))
    requires MemoSound(memo)
    ensures r.0 == Digest(n)
    ensures MemoSound(r.1) && Extends(memo, r.1) && n in r.1
    ensures n in memo ==> r == (memo[n], memo)
    decreases n
  {
    if n in memo then (memo[n], memo)
    else
      var (ds, memo1) := FieldDigestsM(n.fields, memo);
      var d := n.kind + "(" + Join(ds, ", ") + ")";
      (d, memo1[n := d])
  }

  function FieldDigestM(f: Field, memo: Memo): (r: (string, Memo))
    requires MemoSound(memo)
    ensures r.0 == FieldDigest(f)
    ensures MemoSound(r.1) && Extends(memo, r.1)
    decreases f
  {
    match f
    case FNode(n) => DigestM(n, memo)
    case FList(items) =>
      var (ds, memo1) := FieldDigestsM(items, memo);
      ("[" + Join(ds, ", ") + "]", memo1)
    case FPrim(r) => (r, memo)
  }

  function FieldDigestsM(fs: seq<Field>, memo: Memo): (r: (seq<string>, Memo))
    requires MemoSound(memo)
    ensures r.0 == FieldDigests(fs)
    ensures MemoSound(r.1) && Extends(memo, r.1)
    decreases fs
  {
    if |fs| == 0 then ([], memo)
    else
      var (d, memo1) := FieldDigestM(fs[0], memo);
      var (ds, memo2) := FieldDigestsM(fs[1..], memo1);
      ([d] + ds, memo2)
  }
}
