/** The shapes of the host editor's selection that the toolbar and the
    direction plugin read. `$isAtNodeEnd(point)` is not computed here: each
    point carries it as a flag. */
module Selection {
  import opened Optional
  import opened DocTree

  /** A selection end: the node it lies in, its offset there, and whether it
      sits exactly at the end of that node. */
  datatype Point = Point(key: NodeKey, offset: nat, atNodeEnd: bool)

  /** A range selection. `isBackward` holds when `focus` precedes `anchor` in
      document order. */
  datatype RangeSelection = RangeSelection(anchor: Point, focus: Point, isBackward: bool)

  datatype Selection =
    | Range(range: RangeSelection)
    | NodeSelection(keys: set<NodeKey>)

  /** `$isRangeSelection($getSelection())`, with `None` for a null selection. */
  predicate IsRangeSelection(sel: Option<Selection>) {
    sel.Some? && sel.value.Range?
  }
}
