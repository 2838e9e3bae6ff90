/** The bidirectional-text block (`DirectionNode`), the DOM element it renders
    to, its collapse rule, and the plugin that converts selected blocks to a
    direction. */
module TextDirection {
  import opened Optional
  import opened DocTree
  import opened Selection

  datatype Dir = Rtl | Ltr

  /** The string form of a direction, used as class name and dataset value. */
  function DirName(d: Dir): string {
    match d
    case Rtl => "rtl"
    case Ltr => "ltr"
  }

  function Opposite(d: Dir): Dir {
    match d
    case Rtl => Ltr
    case Ltr => Rtl
  }

  // ---------------------------------------------------------------------
  // The rendered element
  // ---------------------------------------------------------------------

  /** A DOM element. `localName` is the name given to `createElement` (an HTML
      element's `tagName` is its upper-case form). The `class` attribute is
      held as the class list `classes` and every `data-*` attribute in
      `dataset`, so `attributes` holds every other attribute. */
  datatype Element = Element(
    localName: string,
    classes: set<string>,
    attributes: map<string, string>,
    dataset: map<string, string>)

  /** `document.createElement(localName)`: no classes, attributes or data. */
  function CreateElement(localName: string): (e: Element)
    ensures e.localName == localName
    ensures e.classes == {} && e.attributes == map[] && e.dataset == map[]
  {
    Element(localName, {}, map[], map[])
  }

  /** ASCII whitespace as the DOM's token lists understand it. */
  predicate IsAsciiWhitespace(ch: char) {
    ch == ' ' || ch == '\t' || ch == '\n' || ch == '\U{000C}' || ch == '\r'
  }

  /** A token `classList.add` and `classList.remove` accept: any other
      argument makes them throw. */
  predicate IsClassToken(cls: string) {
    |cls| > 0 && forall i | 0 <= i < |cls| :: !IsAsciiWhitespace(cls[i])
  }

  /** An attribute name with no ASCII upper-case letter, which
      `removeAttribute` on an HTML element therefore uses as given. */
  predicate IsLowerCaseName(attr: string) {
    forall i | 0 <= i < |attr| :: !('A' <= attr[i] <= 'Z')
  }

  /** `addCls`: `cls` joins the class list; every other class keeps its status. */
  function AddCls(e: Element, cls: string): (r: Element)
    requires IsClassToken(cls)
    ensures cls in r.classes
    ensures forall c | c != cls :: c in r.classes <==> c in e.classes
    ensures r.localName == e.localName && r.attributes == e.attributes && r.dataset == e.dataset
  {
    e.(classes := e.classes + {cls})
  }

  /** `removeCls`: `cls` leaves the class list; every other class keeps its status. */
  function RemoveCls(e: Element, cls: string): (r: Element)
    requires IsClassToken(cls)
    ensures cls !in r.classes
    ensures forall c | c != cls :: c in r.classes <==> c in e.classes
    ensures r.localName == e.localName && r.attributes == e.attributes && r.dataset == e.dataset
  {
    e.(classes := e.classes - {cls})
  }

  /** An attribute kept in `attributes`: neither `class` nor a `data-*` name. */
  predicate IsPlainAttributeName(attr: string) {
    attr != "class" && !(|attr| >= 5 && attr[..5] == "data-")
  }

  /** `removeAttr`: attribute `attr` is gone; the others are untouched. */
  function RemoveAttr(e: Element, attr: string): (r: Element)
    requires IsLowerCaseName(attr) && IsPlainAttributeName(attr)
    ensures attr !in r.attributes
    ensures forall a | a in e.attributes && a != attr :: a in r.attributes && r.attributes[a] == e.attributes[a]
    ensures r.attributes.Keys <= e.attributes.Keys
    ensures r.localName == e.localName && r.classes == e.classes && r.dataset == e.dataset
  {
    e.(attributes := e.attributes - {attr})
  }

  // ---------------------------------------------------------------------
  // The node
  // ---------------------------------------------------------------------

  /** A direction block. The field is declared `Dir | undefined` in
      TypeScript, hence `Option<Dir>`; the constructor never leaves it absent. */
  datatype DirectionNode = DirectionNode(direction: Option<Dir>, key: NodeKey)

  /** `new DirectionNode(dir?, key?)`: the direction falls back to left-to-right
      and the key, when not given, is the fresh one the host would generate. */
  function NewDirectionNode(dir: Option<Dir>, key: Option<NodeKey>, freshKey: NodeKey): (n: DirectionNode)
    ensures n.direction.Some?
    ensures dir.Some? ==> n.direction == dir
    ensures dir.None? ==> n.direction == Some(Ltr)
    ensures key.Some? ==> n.key == key.value
    ensures key.None? ==> n.key == freshKey
  {
    DirectionNode(Some(dir.GetOr(Ltr)), key.GetOr(freshKey))
  }

  /** The node kind's type tag. */
  function GetType(): (t: string)
    ensures t == "direction"
  {
    "direction"
  }

  /** `DirectionNode.clone`: rebuilt through the constructor with the same
      direction and the same key. */
  function Clone(n: DirectionNode): (c: DirectionNode)
    ensures c.key == n.key
    ensures c.direction == Some(n.direction.GetOr(Ltr))
    ensures n.direction.Some? ==> c == n
  {
    NewDirectionNode(n.direction, Some(n.key), n.key)
  }

  /** `$createDirectionNode(dir?)`: a node with a fresh key. */
  function CreateDirectionNode(dir: Option<Dir>, freshKey: NodeKey): (n: DirectionNode)
    ensures n.direction == Some(dir.GetOr(Ltr))
    ensures n.key == freshKey
  {
    NewDirectionNode(dir, None, freshKey)
  }

  /** The string stored by `dataset.direction = v`; an undefined value is
      converted to the string "undefined". */
  function DatasetValue(dir: Option<Dir>): string {
    match dir
    case Some(d) => DirName(d)
    case None => "undefined"
  }

  /** `createDOM`: a `p` element whose class list holds the direction alone,
      without a `dir` attribute, and whose `data-direction` is the direction. */
  function CreateDOM(n: DirectionNode): (e: Element)
    ensures e.localName == "p"
    ensures e.classes == {DirName(n.direction.GetOr(Ltr))}
    ensures "dir" !in e.attributes
    ensures e.dataset == map["direction" := DatasetValue(n.direction)]
  {
    var element := CreateElement("p");
    var element :=
      if n.direction == Some(Rtl) then RemoveAttr(RemoveCls(AddCls(element, "rtl"), "ltr"), "dir")
      else RemoveAttr(RemoveCls(AddCls(element, "ltr"), "rtl"), "dir");
    element.(dataset := element.dataset["direction" := DatasetValue(n.direction)])
  }

  /** A node built by the constructor renders its direction: one class, the
      opposite class absent, and the dataset naming the direction. */
  lemma CreateDOMOfConstructedNode(dir: Option<Dir>, key: Option<NodeKey>, freshKey: NodeKey)
    ensures var d := dir.GetOr(Ltr);
            var e := CreateDOM(NewDirectionNode(dir, key, freshKey));
            && e.classes == {DirName(d)}
            && DirName(Opposite(d)) !in e.classes
            && "dir" !in e.attributes
            && e.dataset["direction"] == DirName(d)
  {
  }

  // ---------------------------------------------------------------------
  // Re-render decision
  // ---------------------------------------------------------------------

  /** A value that `updateDOM` may receive: an element, or a node (which has
      no `dataset` property). */
  datatype HostValue = ElementValue(element: Element) | NodeValue(node: DirectionNode)

  /** `v.dataset?.direction`, with `None` for undefined. */
  function DatasetDirection(v: HostValue): Option<string> {
    match v
    case ElementValue(e) => if "direction" in e.dataset then Some(e.dataset["direction"]) else None
    case NodeValue(_) => None
  }

  /** `updateDOM(prevNode, dom)` as written: re-render when the two
      `dataset.direction` values differ, an absent dataset reading as undefined. */
  function UpdateDOM(prevNode: HostValue, dom: Element): (r: bool)
    ensures r <==> DatasetDirection(prevNode) != DatasetDirection(ElementValue(dom))
  {
    DatasetDirection(prevNode) != DatasetDirection(ElementValue(dom))
  }

  /** Given two rendered elements, `updateDOM` asks for a re-render exactly
      when the rendered nodes' directions differ. */
  lemma UpdateDOMOnRenders(a: DirectionNode, b: DirectionNode)
    ensures UpdateDOM(ElementValue(CreateDOM(a)), CreateDOM(b)) <==> a.direction != b.direction
  {
  }

  /** Whether the renders of two nodes differ in their `data-direction`,
      as `updateDOM` judges two rendered elements. */
  predicate RendersDiffer(prev: DirectionNode, current: DirectionNode) {
    UpdateDOM(ElementValue(CreateDOM(prev)), CreateDOM(current))
  }

  /** The re-render test as the host actually invokes it: the first argument
      is the previous NODE and the second the element rendered for it. The
      answer does not depend on the current node at all. */
  function ReconcileAsWritten(prev: DirectionNode, current: DirectionNode): (r: bool)
    ensures r
  {
    UpdateDOM(NodeValue(prev), CreateDOM(prev))
  }

  /** Counterexample: an unchanged node is still re-rendered. */
  lemma ReconcileAsWrittenRerendersUnchanged()
    ensures var n := NewDirectionNode(None, None, "1");
            ReconcileAsWritten(n, n) && !RendersDiffer(n, n)
  {
  }

  /** The evidently intended re-render test: compare the directions of the
      previous and current node. */
  function NeedsRerender(prev: DirectionNode, current: DirectionNode): (r: bool)
    ensures r <==> RendersDiffer(prev, current)
    ensures r <==> CreateDOM(prev) != CreateDOM(current)
  {
    prev.direction != current.direction
  }

  // ---------------------------------------------------------------------
  // Collapse at start
  // ---------------------------------------------------------------------

  /** The block kinds that meet in the collapse rule. */
  datatype BlockKind = Paragraph | DirectionBlock(direction: Option<Dir>) | OtherBlock(typeName: string)

  /** Facts the collapse relies on: the block is attached to a parent that
      lists it, and (the document being a tree) that parent is not also one
      of its children. */
  predicate CanCollapse(doc: Doc<BlockKind>, key: NodeKey, paragraph: NodeKey) {
    && WellLinked(doc)
    && key in doc
    && doc[key].kind.DirectionBlock?
    && doc[key].parent.Some?
    && doc[key].parent.value !in doc[key].children
    && paragraph !in doc
  }

  /** The document after direction block `key` collapsed into the new
      paragraph `paragraph`: it holds the block's children in order,
      stands where the block stood, and the block is gone. */
  function Collapsed(doc: Doc<BlockKind>, key: NodeKey, paragraph: NodeKey): (d: Doc<BlockKind>)
    requires CanCollapse(doc, key, paragraph)
    ensures d.Keys == doc.Keys - {key} + {paragraph}
  {
    var n := doc[key];
    var q := n.parent.value;
    map k | k in doc.Keys - {key} + {paragraph} ::
      if k == paragraph then Node(Paragraph, n.parent, n.children)
      else if k == q then doc[q].(children := ReplaceAt(doc[q].children, IndexOf(doc[q].children, key), paragraph))
      else if k in n.children then doc[k].(parent := Some(paragraph))
      else doc[k]
  }

  /** What `MoveChildren` needs of its input: distinct block and paragraph,
      an empty detached paragraph, and children that are distinct, stored,
      attached to the block, and neither the block nor the paragraph. */
  predicate CanMoveChildren(doc: Doc<BlockKind>, key: NodeKey, paragraph: NodeKey) {
    && key in doc && paragraph in doc && key != paragraph
    && doc[paragraph].children == [] && doc[paragraph].parent.None?
    && NoDup(doc[key].children)
    && (forall c | c in doc[key].children :: c in doc && doc[c].parent == Some(key))
    && key !in doc[key].children && paragraph !in doc[key].children
  }

  /** The state after the first `i` children of `key` have moved to `paragraph`. */
  ghost predicate MovedUpTo(doc: Doc<BlockKind>, d: Doc<BlockKind>, key: NodeKey, paragraph: NodeKey, i: nat)
    requires CanMoveChildren(doc, key, paragraph)
  {
    var children := doc[key].children;
    && i <= |children|
    && d.Keys == doc.Keys
    && d[paragraph] == doc[paragraph].(children := children[..i])
    && d[key] == doc[key].(children := children[i..])
    && (forall j | 0 <= j < i :: d[children[j]] == doc[children[j]].(parent := Some(paragraph)))
    && (forall j | i <= j < |children| :: d[children[j]] == doc[children[j]])
    && (forall k | k in doc && k != key && k != paragraph && k !in children :: d[k] == doc[k])
  }

  /** One more child moved: if `d'` is `d` with the next child taken off the
      front of the block's children and put at the end of the paragraph's,
      then the first `i + 1` children have moved. */
  lemma {:induction false} MoveOneChild(doc: Doc<BlockKind>, d: Doc<BlockKind>, d': Doc<BlockKind>, key: NodeKey, paragraph: NodeKey, i: nat)
    requires CanMoveChildren(doc, key, paragraph)
    requires i < |doc[key].children| && MovedUpTo(doc, d, key, paragraph, i)
    requires d'.Keys == d.Keys
    requires d'[key] == d[key].(children := doc[key].children[i + 1..])
    requires d'[paragraph] == d[paragraph].(children := d[paragraph].children + [doc[key].children[i]])
    requires d'[doc[key].children[i]] == d[doc[key].children[i]].(parent := Some(paragraph))
    requires forall k | k in d && k != key && k != paragraph && k != doc[key].children[i] :: d'[k] == d[k]
    ensures MovedUpTo(doc, d', key, paragraph, i + 1)
  {
    var children := doc[key].children;
    var c := children[i];
    assert c in children;
    assert children[..i] + [c] == children[..i + 1];
    forall j | 0 <= j < i + 1
      ensures d'[children[j]] == doc[children[j]].(parent := Some(paragraph))
    {
      if j < i { assert children[j] != c; }
    }
    forall j | i + 1 <= j < |children|
      ensures d'[children[j]] == doc[children[j]]
    {
      assert children[j] != c;
    }
    forall k | k in doc && k != key && k != paragraph && k !in children
      ensures d'[k] == doc[k]
    {
      assert k != c;
    }
  }

  /** The `children.forEach((child) => paragraph.append(child))` loop: each
      child, in order, leaves block `key` and becomes the paragraph's last child. */
  method MoveChildren(doc: Doc<BlockKind>, key: NodeKey, paragraph: NodeKey) returns (d: Doc<BlockKind>)
    requires CanMoveChildren(doc, key, paragraph)
    ensures d.Keys == doc.Keys
    ensures d[paragraph] == doc[paragraph].(children := doc[key].children)
    ensures d[key] == doc[key].(children := [])
    ensures forall c | c in doc[key].children :: d[c] == doc[c].(parent := Some(paragraph))
    ensures forall k | k in doc && k != key && k != paragraph && k !in doc[key].children :: d[k] == doc[k]
  {
    var children := doc[key].children;
    d := doc;
    var i := 0;
    while i < |children|
      invariant i <= |children|
      invariant MovedUpTo(doc, d, key, paragraph, i)
    {
      var c := children[i];
      assert d[c] == doc[c] && d[key].children == [c] + children[i + 1..];
      AppendFirstChild(d, paragraph, c, children[i + 1..]);
      var next := Append(d, paragraph, c);
      MoveOneChild(doc, d, next, key, paragraph, i);
      d := next;
      i := i + 1;
    }
    assert children[..i] == children;
    forall c | c in children
      ensures d[c] == doc[c].(parent := Some(paragraph))
    {
      var j :| 0 <= j < |children| && children[j] == c;
    }
  }

  /** `collapseAtStart`: move each child, in order, into a new paragraph,
      then put the paragraph in the block's place; the event is handled. */
  method CollapseAtStart(doc: Doc<BlockKind>, key: NodeKey, paragraph: NodeKey) returns (d: Doc<BlockKind>, handled: bool)
    requires CanCollapse(doc, key, paragraph)
    ensures handled
    ensures key !in d && paragraph in d
    ensures d[paragraph].kind == Paragraph
    ensures d[paragraph].children == doc[key].children
    ensures d[paragraph].parent == doc[key].parent
    ensures forall c | c in doc[key].children :: c in d && d[c].parent == Some(paragraph)
    ensures d == Collapsed(doc, key, paragraph)
  {
    var withParagraph := doc[paragraph := Node(Paragraph, None, [])];
    var moved := MoveChildren(withParagraph, key, paragraph);
    var q := doc[key].parent.value;
    assert q in doc && key in doc[q].children;
    d := Replace(moved, key, paragraph);
    handled := true;
    ghost var expected := Collapsed(doc, key, paragraph);
    assert forall k | k in d :: d[k] == expected[k];
  }

  /** After collapsing, every listed child names its lister as parent. */
  lemma CollapsedChildLinks(doc: Doc<BlockKind>, key: NodeKey, paragraph: NodeKey)
    requires CanCollapse(doc, key, paragraph)
    ensures var d := Collapsed(doc, key, paragraph);
            forall p, i | p in d && 0 <= i < |d[p].children| ::
              d[p].children[i] in d && d[d[p].children[i]].parent == Some(p)
  {
    var d := Collapsed(doc, key, paragraph);
    var n := doc[key];
    var q := n.parent.value;
    var at := IndexOf(doc[q].children, key);
    forall p, i | p in d && 0 <= i < |d[p].children|
      ensures d[p].children[i] in d && d[d[p].children[i]].parent == Some(p)
    {
      var c := d[p].children[i];
      if p == paragraph {
        assert c in n.children;
      } else if p == q && i == at {
        assert c == paragraph;
      } else {
        assert c == doc[p].children[i];
        assert doc[c].parent == Some(p);
      }
    }
  }

  /** After collapsing, every node with a parent is listed by that parent. */
  lemma CollapsedParentLinks(doc: Doc<BlockKind>, key: NodeKey, paragraph: NodeKey)
    requires CanCollapse(doc, key, paragraph)
    ensures var d := Collapsed(doc, key, paragraph);
            forall c | c in d && d[c].parent.Some? ::
              d[c].parent.value != c && d[c].parent.value in d && c in d[d[c].parent.value].children
  {
    var d := Collapsed(doc, key, paragraph);
    var n := doc[key];
    var q := n.parent.value;
    var at := IndexOf(doc[q].children, key);
    forall c | c in d && d[c].parent.Some?
      ensures d[c].parent.value != c && d[c].parent.value in d && c in d[d[c].parent.value].children
    {
      if c == paragraph {
        assert d[q].children[at] == paragraph;
      } else if c in n.children {
        assert d[c].parent == Some(paragraph);
      } else {
        var p := doc[c].parent.value;
        assert d[c].parent == doc[c].parent;
        assert p != key;
        var j := IndexOf(doc[p].children, c);
        if p == q {
          assert j != at;
          assert d[p].children[j] == c;
        } else {
          assert d[p].children == doc[p].children;
        }
      }
    }
  }

  /** Collapsing keeps parent and child links consistent. */
  lemma CollapsedIsWellLinked(doc: Doc<BlockKind>, key: NodeKey, paragraph: NodeKey)
    requires CanCollapse(doc, key, paragraph)
    ensures WellLinked(Collapsed(doc, key, paragraph))
  {
    var d := Collapsed(doc, key, paragraph);
    var q := doc[key].parent.value;
    CollapsedChildLinks(doc, key, paragraph);
    CollapsedParentLinks(doc, key, paragraph);
    assert forall i | 0 <= i < |doc[q].children| :: doc[q].children[i] in doc;
    assert forall p | p in d :: NoDup(d[p].children);
  }

  // ---------------------------------------------------------------------
  // The plugin
  // ---------------------------------------------------------------------

  datatype DirectionCommand = RtlDirectionCommand | LtrDirectionCommand

  /** The direction a command converts blocks to. */
  function CommandDirection(cmd: DirectionCommand): Dir {
    match cmd
    case RtlDirectionCommand => Rtl
    case LtrDirectionCommand => Ltr
  }

  /** What a handler did: the direction the selected blocks were converted to
      (`None` when nothing changed), and whether it consumed the command. */
  datatype HandlerResult = HandlerResult(convertTo: Option<Dir>, consumed: bool)

  /** The RTL / LTR command handlers: convert the selected blocks only for a
      range selection, and consume the command in every case. */
  function HandleDirectionCommand(cmd: DirectionCommand, sel: Option<Selection>): (r: HandlerResult)
    ensures r.consumed
    ensures r.convertTo.Some? <==> IsRangeSelection(sel)
    ensures r.convertTo.Some? ==> r.convertTo.value == CommandDirection(cmd)
  {
    if IsRangeSelection(sel) then HandlerResult(Some(CommandDirection(cmd)), true)
    else HandlerResult(None, true)
  }

  /** The factory handed to `$setBlocksType`: each converted block is a fresh
      direction node of the handler's direction. */
  function BlockFactory(dir: Dir, freshKey: NodeKey): (n: DirectionNode)
    ensures n.direction == Some(dir) && n.key == freshKey
  {
    CreateDirectionNode(Some(dir), freshKey)
  }

  /** The blocks a handler creates render with the command's direction. */
  lemma ConvertedBlocksRenderCommandDirection(cmd: DirectionCommand, sel: Option<Selection>, freshKey: NodeKey)
    requires IsRangeSelection(sel)
    ensures var e := CreateDOM(BlockFactory(HandleDirectionCommand(cmd, sel).convertTo.value, freshKey));
            && e.classes == {DirName(CommandDirection(cmd))}
            && e.dataset["direction"] == DirName(CommandDirection(cmd))
  {
  }

  /** `COMMAND_PRIORITY_LOW` of the host editor. */
  const CommandPriorityLow: int := 1

  /** One `registerCommand` call: which command, at which priority. */
  datatype Registration = Registration(command: DirectionCommand, priority: int)

  const NotRegisteredError: string := "DirectionPlugin: TextDirectionNode not registered on editor"

  /** Mounting the plugin: a configuration error unless the editor has the
      direction node type; otherwise both handlers are registered at low
      priority. */
  function MountTextDirectionPlugin(registeredTypes: set<string>): (r: Result<seq<Registration>>)
    ensures r.Failure? <==> "direction" !in registeredTypes
    ensures r.Failure? ==> r.error == NotRegisteredError
    ensures r.Success? ==> r.value == [Registration(RtlDirectionCommand, CommandPriorityLow),
                                       Registration(LtrDirectionCommand, CommandPriorityLow)]
  {
    if GetType() !in registeredTypes then Failure(NotRegisteredError)
    else Success([Registration(RtlDirectionCommand, CommandPriorityLow),
                  Registration(LtrDirectionCommand, CommandPriorityLow)])
  }
}
