/** The toolbar's own decisions: which node a selection denotes, the range
    guard of the format and heading buttons, the link button, and the
    floating link editor's URL and keyboard handling. */
module Toolbar {
  import opened Optional
  import opened DocTree
  import opened Selection

  // ---------------------------------------------------------------------
  // Selection to node
  // ---------------------------------------------------------------------

  /** `getSelectedNode`: the anchor's node when both ends lie in one node;
      otherwise the boundary rule picks the node the selection starts in,
      unless the selection starts exactly at that node's end. */
  function GetSelectedNode(s: RangeSelection): (r: NodeKey)
    ensures r == s.anchor.key || r == s.focus.key
    ensures s.anchor.key == s.focus.key ==> r == s.anchor.key
    ensures s.anchor.key != s.focus.key && s.isBackward ==>
              r == (if s.focus.atNodeEnd then s.anchor.key else s.focus.key)
    ensures s.anchor.key != s.focus.key && !s.isBackward ==>
              r == (if s.anchor.atNodeEnd then s.focus.key else s.anchor.key)
  {
    var anchorNode := s.anchor.key;
    var focusNode := s.focus.key;
    if anchorNode == focusNode then anchorNode
    else if s.isBackward then (if s.focus.atNodeEnd then anchorNode else focusNode)
    else (if s.anchor.atNodeEnd then focusNode else anchorNode)
  }

  /** The end of the selection that comes first in document order. */
  function StartPoint(s: RangeSelection): Point {
    if s.isBackward then s.focus else s.anchor
  }

  /** The end of the selection that comes last in document order. */
  function EndPoint(s: RangeSelection): Point {
    if s.isBackward then s.anchor else s.focus
  }

  /** The start point's node, or the end point's node when the start sits at
      its node's end. */
  function StartOrEndNode(s: RangeSelection): NodeKey {
    if StartPoint(s).atNodeEnd then EndPoint(s).key else StartPoint(s).key
  }

  /** The anchor/focus rule of `getSelectedNode` is the start/end rule of
      `StartOrEndNode`, including when both ends lie in the same node. */
  lemma SelectedNodeIsStartOrEndNode(s: RangeSelection)
    ensures GetSelectedNode(s) == StartOrEndNode(s)
  {
  }

  /** The same range selected in the other direction. */
  function Reversed(s: RangeSelection): RangeSelection {
    RangeSelection(s.focus, s.anchor, !s.isBackward)
  }

  /** The selected node does not depend on the direction the range was made in. */
  lemma SelectedNodeIgnoresDirection(s: RangeSelection)
    ensures GetSelectedNode(Reversed(s)) == GetSelectedNode(s)
  {
  }

  // ---------------------------------------------------------------------
  // Format and heading buttons
  // ---------------------------------------------------------------------

  datatype TextFormat = Bold | Italic | Underline | Strikethrough

  /** The formats the toolbar shows a button for, in order. */
  const SupportedTextFormats: seq<TextFormat> := [Bold, Italic, Underline, Strikethrough]

  datatype HeadingTag = H1 | H2 | H3

  const HeadingTags: seq<HeadingTag> := [H1, H2, H3]

  /** The single edit a button click makes inside its update. */
  datatype Edit = FormatText(format: TextFormat) | SetBlocksToHeading(tag: HeadingTag)

  /** A format button: toggles the format over a range selection, and makes
      no edit for any other selection or none. */
  function TextFormatClick(sel: Option<Selection>, format: TextFormat): (r: Option<Edit>)
    ensures r.Some? <==> IsRangeSelection(sel)
    ensures r.Some? ==> r.value == FormatText(format)
  {
    if IsRangeSelection(sel) then Some(FormatText(format)) else None
  }

  /** A heading button: turns the selected blocks into headings of the tag
      over a range selection, and makes no edit otherwise. */
  function HeadingClick(sel: Option<Selection>, tag: HeadingTag): (r: Option<Edit>)
    ensures r.Some? <==> IsRangeSelection(sel)
    ensures r.Some? ==> r.value == SetBlocksToHeading(tag)
  {
    if IsRangeSelection(sel) then Some(SetBlocksToHeading(tag)) else None
  }

  // ---------------------------------------------------------------------
  // Link button
  // ---------------------------------------------------------------------

  /** What the toolbar may ask of a node: its parent, and its URL when it is
      a link node (`None` when it is not). */
  datatype NodeInfo = NodeInfo(parent: Option<NodeKey>, linkUrl: Option<string>)

  /** The live nodes, looked up by key. */
  type NodeLookup = NodeKey -> NodeInfo

  /** `$isLinkNode(node)`, false for a null node. */
  predicate IsLinkNode(nodes: NodeLookup, k: Option<NodeKey>) {
    k.Some? && nodes(k.value).linkUrl.Some?
  }

  /** The selected node or its parent is a link. */
  predicate InLink(nodes: NodeLookup, s: RangeSelection) {
    var node := GetSelectedNode(s);
    IsLinkNode(nodes, nodes(node).parent) || IsLinkNode(nodes, Some(node))
  }

  /** The link button's `isLink` after it reads the selection: recomputed for
      a range selection, kept as it was otherwise. */
  function RefreshIsLink(isLink: bool, sel: Option<Selection>, nodes: NodeLookup): (r: bool)
    ensures !IsRangeSelection(sel) ==> r == isLink
    ensures IsRangeSelection(sel) ==>
              var node := GetSelectedNode(sel.value.range);
              (r <==> nodes(node).linkUrl.Some? ||
                      (nodes(node).parent.Some? && nodes(nodes(node).parent.value).linkUrl.Some?))
  {
    if IsRangeSelection(sel) then InLink(nodes, sel.value.range) else isLink
  }

  /** The payload of `TOGGLE_LINK_COMMAND`: a URL to link to, or `null` to unlink. */
  datatype LinkPayload = LinkTo(url: string) | Unlink

  /** `insertLink`: unlink when already in a link, otherwise link to the
      placeholder `https://`. */
  function InsertLinkPayload(isLink: bool): (p: LinkPayload)
    ensures p.Unlink? <==> isLink
    ensures p.LinkTo? ==> p.url == "https://"
  {
    if !isLink then LinkTo("https://") else Unlink
  }

  /** When `isLink` was last computed from range selection `s`, the link button
      removes a link exactly when `s` is in one, and creates one otherwise. */
  lemma LinkButtonToggles(isLink: bool, s: RangeSelection, nodes: NodeLookup)
    ensures var p := InsertLinkPayload(RefreshIsLink(isLink, Some(Range(s)), nodes));
            (p.Unlink? <==> InLink(nodes, s)) && (p.LinkTo? ==> p.url == "https://")
  {
  }

  // ---------------------------------------------------------------------
  // Floating link editor
  // ---------------------------------------------------------------------

  /** The URL the floating editor shows after reading the selection: the
      parent link's URL first, then the node's own, else empty; left as it
      was when the selection is not a range. */
  function RefreshLinkUrl(linkUrl: string, sel: Option<Selection>, nodes: NodeLookup): (r: string)
    ensures !IsRangeSelection(sel) ==> r == linkUrl
    ensures IsRangeSelection(sel) ==>
              var node := GetSelectedNode(sel.value.range);
              var parent := nodes(node).parent;
              if IsLinkNode(nodes, parent) then r == nodes(parent.value).linkUrl.value
              else if IsLinkNode(nodes, Some(node)) then r == nodes(node).linkUrl.value
              else r == ""
  {
    if IsRangeSelection(sel) then
      var node := GetSelectedNode(sel.value.range);
      var parent := nodes(node).parent;
      if IsLinkNode(nodes, parent) then nodes(parent.value).linkUrl.value
      else if IsLinkNode(nodes, Some(node)) then nodes(node).linkUrl.value
      else ""
    else linkUrl
  }

  /** The URL shown and the link flag agree: outside a link the URL is
      empty; inside one it is the parent link's URL when the parent is a link,
      and the node's own URL otherwise. */
  lemma DisplayedUrlMatchesIsLink(linkUrl: string, isLink: bool, s: RangeSelection, nodes: NodeLookup)
    ensures var url := RefreshLinkUrl(linkUrl, Some(Range(s)), nodes);
            var node := GetSelectedNode(s);
            var parent := nodes(node).parent;
            && (!RefreshIsLink(isLink, Some(Range(s)), nodes) ==> url == "")
            && (IsLinkNode(nodes, parent) ==>
                  RefreshIsLink(isLink, Some(Range(s)), nodes) && Some(url) == nodes(parent.value).linkUrl)
            && (!IsLinkNode(nodes, parent) && IsLinkNode(nodes, Some(node)) ==>
                  RefreshIsLink(isLink, Some(Range(s)), nodes) && Some(url) == nodes(node).linkUrl)
  {
  }

  /** The floating editor's state: the URL in its input, whether the input is
      shown, and the last selection it recorded (`None` for null). */
  datatype LinkEditor = LinkEditor(linkUrl: string, isEditMode: bool, lastSelection: Option<Selection>)

  datatype Key = Enter | Escape | OtherKey

  /** The editor after a key press, and the link command it dispatched, if any. */
  datatype KeyOutcome = KeyOutcome(editor: LinkEditor, dispatched: Option<LinkPayload>)

  /** The input's `onKeyDown`. Enter links the URL when a selection was
      recorded and the URL is not empty, and leaves edit mode only when a
      selection was recorded; Escape leaves edit mode without dispatching.
      Outside edit mode there is no input, so no key reaches it. */
  function OnInputKeyDown(ed: LinkEditor, key: Key): (r: KeyOutcome)
    ensures r.editor.linkUrl == ed.linkUrl && r.editor.lastSelection == ed.lastSelection
    ensures !ed.isEditMode || key == OtherKey ==> r == KeyOutcome(ed, None)
    ensures ed.isEditMode && key == Enter ==>
              && (r.dispatched.Some? <==> ed.lastSelection.Some? && ed.linkUrl != "")
              && (r.dispatched.Some? ==> r.dispatched.value == LinkTo(ed.linkUrl))
              && (r.editor.isEditMode <==> ed.lastSelection.None?)
    ensures key == Escape ==> !r.editor.isEditMode && r.dispatched.None?
  {
    if !ed.isEditMode then KeyOutcome(ed, None)
    else
      match key
      case Enter =>
        if ed.lastSelection.Some? then
          KeyOutcome(ed.(isEditMode := false), if ed.linkUrl != "" then Some(LinkTo(ed.linkUrl)) else None)
        else KeyOutcome(ed, None)
      case Escape => KeyOutcome(ed.(isEditMode := false), None)
      case OtherKey => KeyOutcome(ed, None)
  }

  /** The input's `onChange`: the typed value becomes the URL. */
  function OnInputChange(ed: LinkEditor, value: string): (r: LinkEditor)
    ensures r.linkUrl == value
    ensures r.isEditMode == ed.isEditMode && r.lastSelection == ed.lastSelection
  {
    ed.(linkUrl := value)
  }

  /** The edit control's `onClick`: show the input. */
  function OnEditClick(ed: LinkEditor): (r: LinkEditor)
    ensures r.isEditMode
    ensures r.linkUrl == ed.linkUrl && r.lastSelection == ed.lastSelection
  {
    ed.(isEditMode := true)
  }

  /** The floating editor only ever links to a non-empty URL: it never
      unlinks and never links to "". */
  lemma KeyDownDispatchesOnlyNonEmptyLinks(ed: LinkEditor, key: Key)
    ensures var d := OnInputKeyDown(ed, key).dispatched;
            d.Some? ==> d.value.LinkTo? && d.value.url != ""
  {
  }

  /** A second key press after Enter or Escape has closed the input does nothing. */
  lemma NoDispatchAfterClosing(ed: LinkEditor, first: Key, second: Key)
    requires !OnInputKeyDown(ed, first).editor.isEditMode
    ensures var after := OnInputKeyDown(ed, first).editor;
            OnInputKeyDown(after, second) == KeyOutcome(after, None)
  {
  }

  /** Typing a URL and pressing Enter, with a selection recorded, links that URL. */
  lemma TypeThenEnterLinks(ed: LinkEditor, url: string)
    requires ed.isEditMode && ed.lastSelection.Some? && url != ""
    ensures OnInputKeyDown(OnInputChange(ed, url), Enter).dispatched == Some(LinkTo(url))
  {
  }
}
