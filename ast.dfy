/** The builder's abstract syntax tree (ddex-builder `ast.rs`): elements with
    an optional namespace URI, insertion-ordered attributes and an ordered list
    of child nodes, and the builder operations that extend an element. */
module Ast {
  import opened Util
  import IndexMap

  /** Where a structured comment was anchored in the original document. */
  datatype CommentPosition = Before | FirstChild | LastChild | After | Inline

  /** A structured comment: its text and its anchor. */
  datatype Comment = Comment(content: string, position: CommentPosition)

  datatype Node =
    | ElementNode(elem: Element)
    | TextNode(text: string)
    | CommentNode(comment: Comment)
    | SimpleCommentNode(simple: string)

  datatype Element = Element(
    name: string,
    namespace: Option<string>,
    attributes: IndexMap.Entries<string, string>,
    children: seq<Node>)

  /** The tree handed to the writer: root, prefix-to-URI declarations in
      declaration order, and the optional `xsi:schemaLocation` value. */
  datatype Ast = Ast(
    root: Element,
    namespaces: IndexMap.Entries<string, string>,
    schemaLocation: Option<string>)

  /** `Element::new`: a bare element with the given local name. */
  function New(name: string): (e: Element)
    ensures e.name == name && e.namespace.None?
    ensures e.attributes == [] && e.children == []
  {
    Element(name, None, [], [])
  }

  /** `Element::with_namespace`: sets the namespace URI and nothing else. */
  function WithNamespace(e: Element, ns: string): (r: Element)
    ensures r.namespace == Some(ns)
    ensures r.name == e.name && r.attributes == e.attributes && r.children == e.children
  {
    e.(namespace := Some(ns))
  }

  /** `Element::with_attr`: a new key is appended after the existing ones; an
      existing key keeps its place and takes the new value. */
  function WithAttr(e: Element, key: string, value: string): (r: Element)
    requires IndexMap.DistinctKeys(e.attributes)
    ensures IndexMap.DistinctKeys(r.attributes)
    ensures key !in IndexMap.Keys(e.attributes) ==> r.attributes == e.attributes + [(key, value)]
    ensures key in IndexMap.Keys(e.attributes) ==>
      |r.attributes| == |e.attributes| && IndexMap.Keys(r.attributes) == IndexMap.Keys(e.attributes)
    ensures IndexMap.Get(r.attributes, key) == Some(value)
    ensures forall k :: k != key ==> IndexMap.Get(r.attributes, k) == IndexMap.Get(e.attributes, k)
    ensures r.name == e.name && r.namespace == e.namespace && r.children == e.children
  {
    IndexMap.InsertFacts(e.attributes, key, value);
    e.(attributes := IndexMap.Insert(e.attributes, key, value))
  }

  /** Appends one child node; every builder operation below is this with a
      different kind of node. */
  function Push(e: Element, n: Node): (r: Element)
    ensures |r.children| == |e.children| + 1
    ensures r.children[..|e.children|] == e.children && r.children[|e.children|] == n
    ensures r.name == e.name && r.namespace == e.namespace && r.attributes == e.attributes
  {
    e.(children := e.children + [n])
  }

  /** `Element::with_text` (and `add_text`): appends a text node. */
  function WithText(e: Element, text: string): (r: Element)
    ensures r == Push(e, TextNode(text))
  {
    e.(children := e.children + [TextNode(text)])
  }

  /** `Element::add_child` (and `with_child`): appends an element node. */
  function AddChild(e: Element, child: Element): (r: Element)
    ensures r == Push(e, ElementNode(child))
  {
    e.(children := e.children + [ElementNode(child)])
  }

  /** `Element::add_comment`: appends a structured comment node. */
  function AddComment(e: Element, c: Comment): (r: Element)
    ensures r == Push(e, CommentNode(c))
  {
    e.(children := e.children + [CommentNode(c)])
  }

  /** `Element::add_simple_comment`: appends a legacy comment node. */
  function AddSimpleComment(e: Element, text: string): (r: Element)
    ensures r == Push(e, SimpleCommentNode(text))
  {
    e.(children := e.children + [SimpleCommentNode(text)])
  }

  /** `Element::with_comment`: appends a structured comment built from its parts. */
  function WithComment(e: Element, content: string, position: CommentPosition): (r: Element)
    ensures r == Push(e, CommentNode(Comment(content, position)))
  {
    AddComment(e, Comment(content, position))
  }

  /** One call of a builder operation that appends a child node. */
  datatype BuildStep =
    | AddChildStep(child: Element)
    | AddTextStep(text: string)
    | AddCommentStep(c: Comment)
    | AddSimpleCommentStep(simple: string)

  function NodeOf(s: BuildStep): Node {
    match s
    case AddChildStep(c) => ElementNode(c)
    case AddTextStep(t) => TextNode(t)
    case AddCommentStep(c) => CommentNode(c)
    case AddSimpleCommentStep(t) => SimpleCommentNode(t)
  }

  function Apply(e: Element, s: BuildStep): Element {
    match s
    case AddChildStep(c) => AddChild(e, c)
    case AddTextStep(t) => WithText(e, t)
    case AddCommentStep(c) => AddComment(e, c)
    case AddSimpleCommentStep(t) => AddSimpleComment(e, t)
  }

  /** Applies builder calls in order. */
  function ApplyAll(e: Element, steps: seq<BuildStep>): Element
  {
    if steps == [] then e else Apply(ApplyAll(e, steps[..|steps| - 1]), steps[|steps| - 1])
  }

  /** Every builder call appends the node it carries. */
  lemma ApplyIsPush(e: Element, s: BuildStep)
    ensures Apply(e, s) == Push(e, NodeOf(s))
  {
  }

  /** The nodes a sequence of builder calls carries, in call order. */
  function NodesOf(steps: seq<BuildStep>): seq<Node> {
    if steps == [] then [] else NodesOf(steps[..|steps| - 1]) + [NodeOf(steps[|steps| - 1])]
  }

  /** The `i`-th carried node is the node of the `i`-th call. */
  lemma {:induction false} NodesOfIndex(steps: seq<BuildStep>, i: nat)
    requires i < |steps|
    ensures |NodesOf(steps)| == |steps|
    ensures NodesOf(steps)[i] == NodeOf(steps[i])
  {
    var init := steps[..|steps| - 1];
    if i < |init| {
      NodesOfIndex(init, i);
    } else if init != [] {
      NodesOfIndex(init, 0);
    }
  }

  /** Children appear in the order the builder calls were made, after the
      children already present, and nothing else about the element changes. */
  lemma {:induction false} ApplyAllAppendsInOrder(e: Element, steps: seq<BuildStep>)
    ensures ApplyAll(e, steps).children == e.children + NodesOf(steps)
    ensures ApplyAll(e, steps).name == e.name
    ensures ApplyAll(e, steps).namespace == e.namespace
    ensures ApplyAll(e, steps).attributes == e.attributes
  {
    if steps != [] {
      var init := steps[..|steps| - 1];
      ApplyAllAppendsInOrder(e, init);
      ApplyIsPush(ApplyAll(e, init), steps[|steps| - 1]);
      AppendAssoc3(e.children, NodesOf(init), [NodeOf(steps[|steps| - 1])]);
    }
  }
}
