/**
 * The document tree (src/hr/fer/zemris/custom/scripting/nodes): a node is its kind, holding
 * the subclass's final fields, plus the children every Node keeps.
 */
module Nodes {
  import opened Base
  import opened Values
  import Tokens

  datatype NodeKind =
    | DocumentKind
    | TextKind(text: string)
    | EchoKind(tokens: seq<Tokens.Token>)
      /** `variable` is the name of the TokenVariable; None stands for a null field. */
    | ForLoopKind(variable: Option<string>, start: Option<Tokens.Token>,
                  end: Option<Tokens.Token>, step: Option<Tokens.Token>)

  datatype Node = Node(kind: NodeKind, children: seq<Node>)

  function NumberOfChildren(n: Node): (r: nat)
    ensures r == |n.children|
  {
    |n.children|
  }

  /** Appends `child` to the children; the node's own fields stay as they are. */
  function AddChildNode(n: Node, child: Node): (r: Node)
    ensures r.kind == n.kind && NumberOfChildren(r) == NumberOfChildren(n) + 1
    ensures GetChild(r, NumberOfChildren(n)) == Ok(Some(child))
    ensures forall i :: 0 <= i < NumberOfChildren(n) ==> GetChild(r, i) == GetChild(n, i)
  {
    n.(children := n.children + [child])
  }

  /**
   * The child at `index`: null (None) for a node that never had a child, whatever the index;
   * otherwise an index outside the children throws.
   */
  function GetChild(n: Node, index: int): (r: Result<Option<Node>>)
    ensures n.children == [] ==> r == Ok(None)
    ensures n.children != [] && !(0 <= index < |n.children|) ==> r == Err(IndexOutOfBoundsException)
    ensures 0 <= index < |n.children| ==> r == Ok(Some(n.children[index]))
  {
    if n.children == [] then Ok(None)
    else if index < 0 || index >= NumberOfChildren(n) then Err(IndexOutOfBoundsException)
    else Ok(Some(n.children[index]))
  }

  /**
   * asText: the text a document or for-loop node gives is its own tag text around the
   * concatenated text of its children; a for-loop with a null variable, start or end throws.
   */
  function AsText(fp: FloatOps, n: Node): Result<string>
    decreases n, 1
  {
    match n.kind
    case DocumentKind => ChildrenText(fp, n.children)
    case TextKind(text) => Ok(text)
    case EchoKind(tokens) => Ok("{$= " + TokensText(fp, tokens) + "$}")
    case ForLoopKind(variable, start, end, step) =>
      if variable.None? || start.None? || end.None? then Err(NullPointerException)
      else
        var head := "{$ FOR " + variable.value + " " + Tokens.AsText(fp, start.value) + " "
          + Tokens.AsText(fp, end.value)
          + (if step.Some? then " " + Tokens.AsText(fp, step.value) else "") + " $}";
        var body :- ChildrenText(fp, n.children);
        Ok(head + body + "{$END$}")
  }

  /** The children's texts, in order, with nothing between them. */
  function ChildrenText(fp: FloatOps, children: seq<Node>): Result<string>
    decreases children, 0
  {
    if children == [] then Ok("")
    else
      var first :- AsText(fp, children[0]);
      var rest :- ChildrenText(fp, children[1..]);
      Ok(first + rest)
  }

  /** Every token's text followed by one space. */
  function TokensText(fp: FloatOps, tokens: seq<Tokens.Token>): string {
    if tokens == [] then "" else Tokens.AsText(fp, tokens[0]) + " " + TokensText(fp, tokens[1..])
  }

  /** Appending a child appends its text: the text of the children is built up child by child. */
  lemma {:induction false} ChildrenTextSnoc(fp: FloatOps, children: seq<Node>, child: Node)
    ensures ChildrenText(fp, children + [child]) ==
      (var before :- ChildrenText(fp, children); var last :- AsText(fp, child); Ok(before + last))
  {
    if children == [] {
      assert children + [child] == [child];
      assert [child][1..] == [];
      var last := AsText(fp, child);
      if last.Ok? {
        assert last.value + "" == "" + last.value == last.value;
      }
    } else {
      assert (children + [child])[0] == children[0];
      assert (children + [child])[1..] == children[1..] + [child];
      ChildrenTextSnoc(fp, children[1..], child);
      var first := AsText(fp, children[0]);
      var rest := ChildrenText(fp, children[1..]);
      var last := AsText(fp, child);
      if first.Ok? && rest.Ok? && last.Ok? {
        assert first.value + (rest.value + last.value) == (first.value + rest.value) + last.value;
      }
    }
  }

  /** A document's text after addChildNode is its earlier text followed by the new child's. */
  lemma DocumentTextAfterAdd(fp: FloatOps, doc: Node, child: Node)
    requires doc.kind == DocumentKind
    ensures AsText(fp, AddChildNode(doc, child)) ==
      (var before :- AsText(fp, doc); var last :- AsText(fp, child); Ok(before + last))
  {
    ChildrenTextSnoc(fp, doc.children, child);
  }
}

/** Node.java's in-place side: the lazily made children collection of one node object. */
module NodeObjects {
  import opened Base
  import opened Nodes

  /**
   * A node as the parser's objects hold it: the kind's fields are final, and the children
   * collection does not exist (None) until the first child is added.
   */
  class NodeObject {
    const kind: NodeKind
    var children: Option<seq<Node>>

    /** The collection, once made, is never empty: it is made only to receive a child. */
    ghost predicate Valid()
      reads this
    {
      children.Some? ==> children.value != []
    }

    /** The node as a value: a node without a collection has no children. */
    function Value(): (r: Node)
      reads this
      ensures r.kind == kind && (children.None? ==> r.children == [])
    {
      Node(kind, if children.None? then [] else children.value)
    }

    constructor (kind: NodeKind)
      ensures Valid() && this.kind == kind && children.None? && Value() == Node(kind, [])
    {
      this.kind := kind;
      children := None;
    }

    /** addChildNode: the collection is made on first use, then the child goes at its end. */
    method AddChildNode(child: Node)
      modifies this
      ensures Valid() && children.Some?
      ensures Value() == Nodes.AddChildNode(old(Value()), child)
    {
      if children.None? {
        children := Some([]);
      }
      children := Some(children.value + [child]);
    }

    method NumberOfChildren() returns (n: nat)
      ensures n == Nodes.NumberOfChildren(Value())
      ensures children.None? ==> n == 0
    {
      if children.None? {
        return 0;
      }
      return |children.value|;
    }

    /** getChild: null while no collection exists, whatever the index. */
    method GetChild(index: int) returns (r: Result<Option<Node>>)
      requires Valid()
      ensures children.None? ==> r == Ok(None)
      ensures r == Nodes.GetChild(Value(), index)
    {
      if children.None? {
        return Ok(None);
      }
      if index < 0 || index >= |children.value| {
        return Err(IndexOutOfBoundsException);
      }
      return Ok(Some(children.value[index]));
    }
  }
}
