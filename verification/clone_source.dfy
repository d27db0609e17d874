/** A clone (one occurrence of a duplicated subtree), its position in the
    file (line span and node count) and the source text it covers. */
module CloneSource {
  import opened Wrappers
  import opened PyStr
  import opened SyntaxTree

  /** The indexed file: its name and its lines as `readlines` returns them
      (each but possibly the last ending in a line break). */
  datatype SourceFile = SourceFile(name: string, lines: seq<string>)

  /** Only nodes with a line number are ever recorded as clones. */
  datatype Clone = Clone(node: LinedNode, file: SourceFile)

  /** The line span of a clone and the number of nodes counted below it. */
  datatype Position = Position(begin: LineNo, end: LineNo, node_count: nat)

  function Min(a: int, b: int): int { if a <= b then a else b }
  function Max(a: int, b: int): int { if a >= b then a else b }

  /** The nodes the position finder visits below `n`: the walk from the
      children of `n` that never passes through a node without a line. */
  function LinedBelow(n: Node): seq<Node> {
    VisitFields(n.fields, true)
  }

  /** One call of the position finder's `visit`: a node with a line widens
      the span and is counted; any other node is ignored. */
  function Widen(p: Position, m: Node): Position {
    match m.line
    case None => p
    case Some(l) => Position(Min(p.begin, l), Max(p.end, l), p.node_count + 1)
  }

  /** The visits, in walk order. */
  function WidenAll(p: Position, ms: seq<Node>): Position {
    if |ms| == 0 then p else Widen(WidenAll(p, ms[..|ms| - 1]), ms[|ms| - 1])
  }

  lemma {:induction false} WidenAllBounds(p: Position, ms: seq<Node>)
    requires forall m :: m in ms ==> m.line.Some?
    ensures var q := WidenAll(p, ms);
      && q.node_count == p.node_count + |ms|
      && q.begin <= p.begin && p.end <= q.end
      && (forall m :: m in ms ==> q.begin <= m.line.value <= q.end)
      && (q.begin == p.begin || exists m :: m in ms && m.line == Some(q.begin))
      && (q.end == p.end || exists m :: m in ms && m.line == Some(q.end))
  {
    if |ms| > 0 {
      var front := ms[..|ms| - 1];
      assert forall m :: m in front ==> m in ms;
      WidenAllBounds(p, front);
      assert ms == front + [ms[|ms| - 1]];
    }
  }

  /** `Position.init` for a clone's node: the span starts as the node's own
      line, every node visited below widens it, and only those nodes are
      counted, so the node itself is not. */
  function PositionOf(n: LinedNode): (p: Position)
    ensures p.begin <= n.line.value <= p.end
    ensures p.node_count == |LinedBelow(n)|
    ensures forall m :: m in LinedBelow(n) ==> m.line.Some? && p.begin <= m.line.value <= p.end
    ensures p.begin == n.line.value || exists m :: m in LinedBelow(n) && m.line == Some(p.begin)
    ensures p.end == n.line.value || exists m :: m in LinedBelow(n) && m.line == Some(p.end)
  {
    var ms := LinedBelow(n);
    assert forall m :: m in ms ==> m.line.Some? by {
      forall m | m in ms ensures m.line.Some? {
        VisitFieldsLined(n.fields, m);
      }
    }
    var start := Position(n.line.value, n.line.value, 0);
    WidenAllBounds(start, ms);
    WidenAll(start, ms)
  }

  /** A node whose children carry no line numbers spans only its own line
      and counts nothing. */
  lemma LeafPosition(n: LinedNode)
    requires forall c :: c in Children(n.fields) ==> c.line.None?
    ensures PositionOf(n) == Position(n.line.value, n.line.value, 0)
  {
    var ms := LinedBelow(n);
    VisitFieldsAsChildren(n.fields, true);
    NoLinedChildren(Children(n.fields));
    assert ms == [];
  }

  lemma {:induction false} NoLinedChildren(ns: seq<Node>)
    requires forall c :: c in ns ==> c.line.None?
    ensures VisitAll(ns, true) == []
  {
    if |ns| > 0 {
      assert ns[0] in ns;
      assert forall c :: c in ns[1..] ==> c in ns;
      NoLinedChildren(ns[1..]);
    }
  }

  // ---------------------------------------------------------------------
  // The source text

  /** Python's `s[i:j]` for `0 <= i <= j`: indices past the end are
      clamped, so the slice may be shorter than `j - i` or empty. */
  function Slice<T>(s: seq<T>, i: int, j: int): (r: seq<T>)
    requires 0 <= i <= j
    ensures j <= |s| ==> r == s[i..j]
    ensures i <= |s| <= j ==> r == s[i..]
    ensures |s| <= i ==> r == []
  {
    s[Min(i, |s|)..Min(j, |s|)]
  }

  /** The lines `begin` to `end` of the file (1-based, both included, clamped
      to the file), each stripped at the right and prefixed by `indent`. */
  function SourceLines(c: Clone, indent: string): (r: seq<string>)
    ensures var p := PositionOf(c.node);
      var lines := c.file.lines;
      && |r| == Max(0, Min(p.end, |lines|) - p.begin + 1)
      && forall k :: 0 <= k < |r| ==> r[k] == indent + RStrip(lines[p.begin - 1 + k])
  {
    var p := PositionOf(c.node);
    var lines := Slice(c.file.lines, p.begin - 1, p.end);
    seq(|lines|, k requires 0 <= k < |lines| => indent + RStrip(lines[k]))
  }

  /** `Clone.source(indent)`: the span and the text of its lines joined with
      line breaks. */
  function Source(c: Clone, indent: string): (r: (LineNo, LineNo, string))
    ensures r.0 == PositionOf(c.node).begin && r.1 == PositionOf(c.node).end
    ensures r.0 <= c.node.line.value <= r.1
    ensures r.2 == Join(SourceLines(c, indent), "\n")
  {
    var p := PositionOf(c.node);
    (p.begin, p.end, Join(SourceLines(c, indent), "\n"))
  }
}
