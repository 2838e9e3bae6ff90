/** The editor's document as a key-indexed arena: every node is stored under
    its key and refers to its parent and children by key only.

    `Append` and `Replace` are minimal stand-ins for the host editor's
    `ElementNode.append` and `LexicalNode.replace`, whose code is not part of
    this model; they carry only the behaviour the direction block relies on. */
module DocTree {
  import opened Optional

  /** A document-wide unique node identity. */
  type NodeKey = string

  /** A stored node: kind-specific data, parent link and ordered child keys. */
  datatype Node<K> = Node(kind: K, parent: Option<NodeKey>, children: seq<NodeKey>)

  type Doc<K> = map<NodeKey, Node<K>>

  predicate NoDup<T(==)>(s: seq<T>) {
    forall i, j | 0 <= i < j < |s| :: s[i] != s[j]
  }

  /** Parent and child links agree: a child names its parent, a node with a
      parent appears in that parent's children, nobody is its own parent and
      no child list repeats a key. */
  predicate WellLinked<K>(doc: Doc<K>) {
    && (forall p, i | p in doc && 0 <= i < |doc[p].children| ::
          doc[p].children[i] in doc && doc[doc[p].children[i]].parent == Some(p))
    && (forall c | c in doc && doc[c].parent.Some? ::
          && doc[c].parent.value != c
          && doc[c].parent.value in doc
          && c in doc[doc[c].parent.value].children)
    && (forall p | p in doc :: NoDup(doc[p].children))
  }

  /** Position of the first occurrence of `x` in `s`. */
  function IndexOf<T(==)>(s: seq<T>, x: T): (i: nat)
    requires x in s
    ensures i < |s| && s[i] == x
    ensures x !in s[..i]
  {
    if s[0] == x then 0
    else
      assert x in s[1..] by { var j :| 0 <= j < |s| && s[j] == x; assert s[1..][j - 1] == x; }
      var i := 1 + IndexOf(s[1..], x);
      assert s[..i] == [s[0]] + s[1..][..i - 1];
      i
  }

  /** `s` with the element at index `i` removed. */
  function RemoveAt<T>(s: seq<T>, i: nat): (r: seq<T>)
    requires i < |s|
    ensures |r| == |s| - 1
    ensures forall j | 0 <= j < i :: r[j] == s[j]
    ensures forall j | i <= j < |r| :: r[j] == s[j + 1]
  {
    s[..i] + s[i + 1..]
  }

  /** `s` with the element at index `i` replaced by `x`; nothing else moves. */
  function ReplaceAt<T>(s: seq<T>, i: nat, x: T): (r: seq<T>)
    requires i < |s|
    ensures |r| == |s| && r[i] == x
    ensures forall j | 0 <= j < |s| && j != i :: r[j] == s[j]
  {
    s[i := x]
  }

  /** Takes `c` out of its parent's child list (if it has a parent) and
      clears its parent link. */
  function Detach<K>(doc: Doc<K>, c: NodeKey): (d: Doc<K>)
    requires c in doc
    ensures d.Keys == doc.Keys
    ensures d[c] == doc[c].(parent := None)
    ensures forall k | k in doc && k != c && Some(k) != doc[c].parent :: d[k] == doc[k]
    ensures doc[c].parent.Some? && doc[c].parent.value != c && doc[c].parent.value in doc
            && c in doc[doc[c].parent.value].children ==>
              var p := doc[c].parent.value;
              d[p] == doc[p].(children := RemoveAt(doc[p].children, IndexOf(doc[p].children, c)))
  {
    match doc[c].parent
    case Some(p) =>
      if p != c && p in doc && c in doc[p].children then
        var ch := doc[p].children;
        doc[p := doc[p].(children := RemoveAt(ch, IndexOf(ch, c)))][c := doc[c].(parent := None)]
      else
        doc[c := doc[c].(parent := None)]
    case None => doc[c := doc[c].(parent := None)]
  }

  /** `p.append(c)`: `c` leaves its old parent and becomes `p`'s last child. */
  function Append<K>(doc: Doc<K>, p: NodeKey, c: NodeKey): (d: Doc<K>)
    requires p in doc && c in doc && p != c
    ensures d.Keys == doc.Keys
    ensures d[c] == doc[c].(parent := Some(p))
    ensures d[p].children == Detach(doc, c)[p].children + [c]
    ensures d[p].kind == doc[p].kind && d[p].parent == doc[p].parent
    ensures forall k | k in doc && k != c && k != p && Some(k) != doc[c].parent :: d[k] == doc[k]
  {
    var d0 := Detach(doc, c);
    d0[p := d0[p].(children := d0[p].children + [c])][c := d0[c].(parent := Some(p))]
  }

  /** `target.replace(replacement)`: `replacement` takes `target`'s place among its parent's
      children, and `target` leaves the document. */
  function Replace<K>(doc: Doc<K>, target: NodeKey, replacement: NodeKey): (d: Doc<K>)
    requires target in doc && replacement in doc && target != replacement
    requires doc[replacement].parent.None?
    requires doc[target].parent.Some? && doc[target].parent.value in doc
    requires doc[target].parent.value != replacement && doc[target].parent.value != target
    requires target in doc[doc[target].parent.value].children
    ensures d.Keys == doc.Keys - {target}
    ensures var q := doc[target].parent.value;
            && d[replacement] == doc[replacement].(parent := Some(q))
            && d[q] == doc[q].(children := ReplaceAt(doc[q].children, IndexOf(doc[q].children, target), replacement))
    ensures forall k | k in d && k != replacement && Some(k) != doc[target].parent :: d[k] == doc[k]
  {
    var q := doc[target].parent.value;
    var ch := doc[q].children;
    var d0 := doc[q := doc[q].(children := ReplaceAt(ch, IndexOf(ch, target), replacement))][replacement := doc[replacement].(parent := Some(q))];
    d0 - {target}
  }

  /** Appending a node's first child to another node `p` moves exactly that
      child: the old parent keeps the rest, `p` gains the child at its end. */
  lemma AppendFirstChild<K>(doc: Doc<K>, p: NodeKey, c: NodeKey, rest: seq<NodeKey>)
    requires p in doc && c in doc && p != c
    requires doc[c].parent.Some? && doc[c].parent.value in doc
    requires doc[c].parent.value != p && doc[c].parent.value != c
    requires doc[doc[c].parent.value].children == [c] + rest
    ensures var d := Append(doc, p, c);
            var q := doc[c].parent.value;
            && d.Keys == doc.Keys
            && d[q] == doc[q].(children := rest)
            && d[p] == doc[p].(children := doc[p].children + [c])
            && d[c] == doc[c].(parent := Some(p))
            && forall k | k in doc && k != q && k != p && k != c :: d[k] == doc[k]
  {
    var q := doc[c].parent.value;
    assert c in doc[q].children;
    assert IndexOf(doc[q].children, c) == 0;
    assert RemoveAt([c] + rest, 0) == rest;
  }
}
