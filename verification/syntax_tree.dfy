/** The parsed syntax tree the duplicate detector works on, and the
    depth-first, pre-order walk of `ast.NodeVisitor.generic_visit`.

    A node has a class name, its fields in declaration order, and a line
    number when the node type carries one (statements and expressions do,
    contexts and operators do not). A field holds a node, a list, or a
    primitive value, which is kept as the text `repr` gives for it. */
module SyntaxTree {
  import opened Wrappers

  /** Line numbers of the parser are 1-based. */
  type LineNo = n: int | n >= 1 witness 1

  datatype Node = Node(kind: string, fields: seq<Field>, line: Option<LineNo>)

  datatype Field = FNode(node: Node) | FList(items: seq<Field>) | FPrim(repr: string)

  /** A node that carries a line number: only those become clones. */
  type LinedNode = n: Node | n.line.Some? witness Node("", [], Some(1))

  // ---------------------------------------------------------------------
  // The walk. `generic_visit` visits every node held directly in a field
  // and every node held directly in a list field; list items that are not
  // nodes are not descended into. With `linedOnly` the walk stops at nodes
  // without a line number, as the position finder's `visit` does; without
  // it every node is listed, as the index's `visit` does.

  /** The nodes `visit(n)` reaches, `n` first. The position finder's walk
      reaches nothing from a node without a line number. */
  function Visit(n: Node, linedOnly: bool): (r: seq<Node>)
    ensures |r| > 0 <==> !linedOnly || n.line.Some?
    ensures |r| > 0 ==> r[0] == n
    decreases n
  {
    if linedOnly && n.line.None? then [] else [n] + VisitFields(n.fields, linedOnly)
  }

  /** The nodes `generic_visit` reaches from a node with these fields. */
  function VisitFields(fs: seq<Field>, linedOnly: bool): seq<Node>
    decreases fs
  {
    if |fs| == 0 then [] else VisitField(fs[0], linedOnly) + VisitFields(fs[1..], linedOnly)
  }

  function VisitField(f: Field, linedOnly: bool): seq<Node>
    decreases f
  {
    match f
    case FNode(n) => Visit(n, linedOnly)
    case FList(items) => VisitItems(items, linedOnly)
    case FPrim(_) => []
  }

  function VisitItems(items: seq<Field>, linedOnly: bool): seq<Node>
    decreases items
  {
    if |items| == 0 then []
    else
      (if items[0].FNode? then VisitField(items[0], linedOnly) else [])
      + VisitItems(items[1..], linedOnly)
  }

  // ---------------------------------------------------------------------
  // Direct children, as a reference for the walk

  /** The nodes held directly in the fields, in field order. */
  function Children(fs: seq<Field>): seq<Node>
    decreases fs
  {
    if |fs| == 0 then [] else FieldChildren(fs[0]) + Children(fs[1..])
  }

  function FieldChildren(f: Field): seq<Node> {
    match f
    case FNode(n) => [n]
    case FList(items) => ItemNodes(items)
    case FPrim(_) => []
  }

  /** The items of a list that are nodes, in order. */
  function ItemNodes(items: seq<Field>): (r: seq<Node>)
    ensures forall n :: n in r <==> FNode(n) in items
  {
    if |items| == 0 then []
    else (if items[0].FNode? then [items[0].node] else []) + ItemNodes(items[1..])
  }

  /** The walks of a sequence of nodes, one after the other. */
  function VisitAll(ns: seq<Node>, linedOnly: bool): seq<Node> {
    if |ns| == 0 then [] else Visit(ns[0], linedOnly) + VisitAll(ns[1..], linedOnly)
  }

  lemma {:induction false} VisitAllConcat(a: seq<Node>, b: seq<Node>, linedOnly: bool)
    ensures VisitAll(a + b, linedOnly) == VisitAll(a, linedOnly) + VisitAll(b, linedOnly)
  {
    if |a| > 0 {
      assert (a + b)[1..] == a[1..] + b;
      VisitAllConcat(a[1..], b, linedOnly);
    } else {
      assert a + b == b;
    }
  }

  lemma {:induction false} VisitItemsAsChildren(items: seq<Field>, linedOnly: bool)
    ensures VisitItems(items, linedOnly) == VisitAll(ItemNodes(items), linedOnly)
  {
    if |items| > 0 {
      var head := if items[0].FNode? then [items[0].node] else [];
      VisitItemsAsChildren(items[1..], linedOnly);
      VisitAllConcat(head, ItemNodes(items[1..]), linedOnly);
    }
  }

  /** `generic_visit` visits the direct children in field order, each with
      its whole walk. */
  lemma {:induction false} VisitFieldsAsChildren(fs: seq<Field>, linedOnly: bool)
    ensures VisitFields(fs, linedOnly) == VisitAll(Children(fs), linedOnly)
  {
    if |fs| > 0 {
      VisitFieldsAsChildren(fs[1..], linedOnly);
      VisitAllConcat(FieldChildren(fs[0]), Children(fs[1..]), linedOnly);
      match fs[0]
      case FNode(n) =>
      case FList(items) => VisitItemsAsChildren(items, linedOnly);
      case FPrim(_) =>
    }
  }

  lemma {:induction false} VisitAllContains(ns: seq<Node>, linedOnly: bool, i: nat)
    requires i < |ns|
    ensures forall m :: m in Visit(ns[i], linedOnly) ==> m in VisitAll(ns, linedOnly)
  {
    if i > 0 {
      VisitAllContains(ns[1..], linedOnly, i - 1);
    }
  }

  // ---------------------------------------------------------------------
  // What the walk reaches

  /** Every node the walk lists had its children visited: a child of a
      listed node is listed too, unless the walk is `linedOnly` and the
      child has no line number. The index therefore descends below every
      node, whether or not that node is recorded. */
  lemma {:induction false} VisitClosed(n: Node, linedOnly: bool, m: Node, c: Node)
    requires m in Visit(n, linedOnly)
    requires c in Children(m.fields)
    requires !linedOnly || c.line.Some?
    ensures c in Visit(n, linedOnly)
    decreases n, 1
  {
    if m == n {
      VisitFieldsAsChildren(n.fields, linedOnly);
      var i :| 0 <= i < |Children(n.fields)| && Children(n.fields)[i] == c;
      VisitAllContains(Children(n.fields), linedOnly, i);
    } else {
      VisitFieldsClosed(n.fields, linedOnly, m, c);
    }
  }

  lemma {:induction false} VisitFieldsClosed(fs: seq<Field>, linedOnly: bool, m: Node, c: Node)
    requires m in VisitFields(fs, linedOnly)
    requires c in Children(m.fields)
    requires !linedOnly || c.line.Some?
    ensures c in VisitFields(fs, linedOnly)
    decreases fs, 0
  {
    if m in VisitField(fs[0], linedOnly) {
      VisitFieldClosed(fs[0], linedOnly, m, c);
    } else {
      VisitFieldsClosed(fs[1..], linedOnly, m, c);
    }
  }

  lemma {:induction false} VisitFieldClosed(f: Field, linedOnly: bool, m: Node, c: Node)
    requires m in VisitField(f, linedOnly)
    requires c in Children(m.fields)
    requires !linedOnly || c.line.Some?
    ensures c in VisitField(f, linedOnly)
    decreases f, 0
  {
    match f
    case FNode(n) => VisitClosed(n, linedOnly, m, c);
    case FList(items) => VisitItemsClosed(items, linedOnly, m, c);
  }

  lemma {:induction false} VisitItemsClosed(items: seq<Field>, linedOnly: bool, m: Node, c: Node)
    requires m in VisitItems(items, linedOnly)
    requires c in Children(m.fields)
    requires !linedOnly || c.line.Some?
    ensures c in VisitItems(items, linedOnly)
    decreases items, 0
  {
    if items[0].FNode? && m in VisitField(items[0], linedOnly) {
      VisitFieldClosed(items[0], linedOnly, m, c);
    } else {
      VisitItemsClosed(items[1..], linedOnly, m, c);
    }
  }

  /** The `linedOnly` walk lists only nodes with a line number. */
  lemma {:induction false} VisitLined(n: Node, m: Node)
    requires m in Visit(n, true)
    ensures m.line.Some?
    decreases n, 1
  {
    if m != n {
      VisitFieldsLined(n.fields, m);
    }
  }

  lemma {:induction false} VisitFieldsLined(fs: seq<Field>, m: Node)
    requires m in VisitFields(fs, true)
    ensures m.line.Some?
    decreases fs, 0
  {
    if m in VisitField(fs[0], true) {
      VisitFieldLined(fs[0], m);
    } else {
      VisitFieldsLined(fs[1..], m);
    }
  }

  lemma {:induction false} VisitFieldLined(f: Field, m: Node)
    requires m in VisitField(f, true)
    ensures m.line.Some?
    decreases f, 0
  {
    match f
    case FNode(n) => VisitLined(n, m);
    case FList(items) => VisitItemsLined(items, m);
  }

  lemma {:induction false} VisitItemsLined(items: seq<Field>, m: Node)
    requires m in VisitItems(items, true)
    ensures m.line.Some?
    decreases items, 0
  {
    if items[0].FNode? && m in VisitField(items[0], true) {
      VisitFieldLined(items[0], m);
    } else {
      VisitItemsLined(items[1..], m);
    }
  }
}
