# Rich-editor extensions: direction block, toolbar decisions, auto-link matcher

This project models, in Dafny, the logic this React rich-text editor adds on
top of its host editor (Lexical):

- **Toolbar** (`toolbar.dfy`): `getSelectedNode`, which resolves a range
  selection to one node from node identity, the backward flag and each
  point's "at node end" flag; the range-selection guard of the text-format
  and heading buttons; the link button's `isLink` flag and `TOGGLE_LINK`
  payload; the floating link editor's displayed URL and its Enter/Escape
  handling.
- **Direction block** (`text_direction.dfy`): `DirectionNode` construction,
  type tag and clone; the element `createDOM` builds (class set, attributes,
  dataset); the `updateDOM` re-render test; `collapseAtStart`, which moves
  the block's children in order into a new paragraph that takes the block's
  place; the RTL/LTR command handlers; the plugin's registration check.
- **Editor configuration** (`editor.dfy`): the auto-link matcher, the
  default mode and the registered node list.

Supporting modules: `optional.dfy` (absent values and thrown errors),
`selection.dfy` (the selection shapes that are read), and `doc_tree.dfy`
(the document as a key-indexed arena). `doc_tree.dfy` also holds minimal
stand-ins for the host's `append` and `replace`, whose code is not part of
this model. Everything is immutable data and pure functions. The one loop
is `MoveChildren`, the `forEach` of `collapseAtStart`.

Host-editor inputs are parameters:
- `$isAtNodeEnd` is a flag on each selection point.
- `$isLinkNode`, `getURL` and `getParent` come from a `NodeLookup` function.
- `URL_REGEX` is an uninterpreted `isUrl: string -> bool`. It says whether
  the pattern matches a given string exactly, and `test` searches
  substrings.
- Fresh node keys are arguments.

Three facts about the code that the model keeps:
- **Boundary rule** (Toolbar.tsx:165-168). A backward selection yields the
  anchor node when the focus sits at its node's end, and the focus node
  otherwise. A forward selection yields the focus node when the anchor sits
  at its node's end, and the anchor node otherwise.
- **Clone keeps the key** (TextDirectionPlugin.tsx:48). `clone` passes
  `node.__key` to the constructor, so the clone has the original's key.
- **Collapse never tests for children** (TextDirectionPlugin.tsx:69-75).
  `collapseAtStart` moves whatever children the block has, possibly none,
  into the new paragraph.

## Model

| member | source | states |
|---|---|---|
| Toolbar.GetSelectedNode | src/components/glyf-toolbar/Toolbar.tsx:156-170 | The result is always the anchor node or the focus node. When both ends are in one node, that node is returned and the flags are not consulted. A backward selection gives the anchor node if the focus is at its node's end, and the focus node otherwise. A forward selection gives the focus node if the anchor is at its node's end, and the anchor node otherwise. |
| Toolbar.SelectedNodeIsStartOrEndNode | src/components/glyf-toolbar/Toolbar.tsx:156-170 | The anchor/focus rule equals a start/end rule for every selection: the start point's node, or the end point's node when the start sits at its node's end. |
| Toolbar.SelectedNodeIgnoresDirection | src/components/glyf-toolbar/Toolbar.tsx:156-170 | Selecting the same range in the opposite direction picks the same node. |
| Toolbar.TextFormatClick | src/components/glyf-toolbar/Toolbar.tsx:61-67 | A format button formats text exactly when the selection is a range selection. For any other selection, or no selection, it makes no edit. |
| Toolbar.HeadingClick | src/components/glyf-toolbar/Toolbar.tsx:90-96 | A heading button converts blocks to a heading of its tag exactly when the selection is a range selection. Otherwise it makes no edit. |
| Toolbar.RefreshIsLink | src/components/glyf-toolbar/Toolbar.tsx:332-346 | For a range selection, `isLink` becomes true exactly when the selected node or its parent is a link node. For any other selection the old value is kept. |
| Toolbar.InsertLinkPayload | src/components/glyf-toolbar/Toolbar.tsx:348-354 | The toggle-link payload unlinks exactly when `isLink` is set. Otherwise it links to `https://`. |
| Toolbar.LinkButtonToggles | src/components/glyf-toolbar/Toolbar.tsx:332-354 | When `isLink` was last computed from a range selection, the link button removes a link exactly when that selection is in one, and creates one otherwise. |
| Toolbar.RefreshLinkUrl | src/components/glyf-toolbar/Toolbar.tsx:194-206 | For a range selection the displayed URL is the parent link's URL if there is one, else the node's own link URL, else the empty string. A non-range selection leaves the URL as it was. |
| Toolbar.DisplayedUrlMatchesIsLink | src/components/glyf-toolbar/Toolbar.tsx:194-206 | The displayed URL agrees with the link flag. When the flag is false the URL is empty. When the parent is a link, the flag is set and the URL is the parent's URL, even if the node is a link too. When only the node is a link, the flag is set and the URL is the node's own. |
| Toolbar.OnInputKeyDown | src/components/glyf-toolbar/Toolbar.tsx:289-302 | Enter dispatches the typed URL only if a selection was recorded and the URL is non-empty. Enter leaves edit mode only if a selection was recorded. Escape leaves edit mode and dispatches nothing. Other keys change nothing, and no key changes the URL. |
| Toolbar.OnInputChange | src/components/glyf-toolbar/Toolbar.tsx:286-288 | Typing replaces the URL and leaves the mode and the recorded selection unchanged. |
| Toolbar.OnEditClick | src/components/glyf-toolbar/Toolbar.tsx:317-319 | Clicking the edit control enters edit mode and keeps the URL. |
| Toolbar.KeyDownDispatchesOnlyNonEmptyLinks | src/components/glyf-toolbar/Toolbar.tsx:289-301 | A key press in the floating editor can only dispatch a link to a non-empty URL. It never dispatches an unlink. |
| Toolbar.NoDispatchAfterClosing | src/components/glyf-toolbar/Toolbar.tsx:281-302 | Once a key press has closed the input, a further key press does nothing. |
| Toolbar.TypeThenEnterLinks | src/components/glyf-toolbar/Toolbar.tsx:286-297 | If a selection was recorded, typing a non-empty URL and pressing Enter dispatches a link to exactly that URL. |
| TextDirection.AddCls | src/components/rich-editor/plugins/text-direction-plugin/TextDirectionPlugin.tsx:17-21 | For a non-empty class token without whitespace, the class is present afterwards. Every other class and all other element state are unchanged. |
| TextDirection.RemoveCls | src/components/rich-editor/plugins/text-direction-plugin/TextDirectionPlugin.tsx:23-27 | For a non-empty class token without whitespace, the class is absent afterwards. Every other class and all other element state are unchanged. |
| TextDirection.RemoveAttr | src/components/rich-editor/plugins/text-direction-plugin/TextDirectionPlugin.tsx:29-33 | For a lower-case attribute name other than `class` and `data-*`, the attribute is absent afterwards. The class list and the dataset are unchanged. All other attributes keep their values. |
| TextDirection.NewDirectionNode | src/components/rich-editor/plugins/text-direction-plugin/TextDirectionPlugin.tsx:38-41 | A constructed node's direction is always defined: the given one, or `ltr` when none is given. Its key is the given one, or a fresh one. |
| TextDirection.GetType | src/components/rich-editor/plugins/text-direction-plugin/TextDirectionPlugin.tsx:43-45 | The type tag is `direction`. |
| TextDirection.Clone | src/components/rich-editor/plugins/text-direction-plugin/TextDirectionPlugin.tsx:47-49 | A clone keeps the key. It keeps the direction, with an undefined direction becoming `ltr`, so a constructed node clones to itself. |
| TextDirection.CreateDirectionNode | src/components/rich-editor/plugins/text-direction-plugin/TextDirectionPlugin.tsx:78-81 | The node has the given direction, or `ltr`, and a fresh key. |
| TextDirection.CreateDOM | src/components/rich-editor/plugins/text-direction-plugin/TextDirectionPlugin.tsx:51-63 | The element is a `p` whose class set is exactly the single direction class. It has no `dir` attribute. Its dataset holds only `direction`. |
| TextDirection.CreateDOMOfConstructedNode | src/components/rich-editor/plugins/text-direction-plugin/TextDirectionPlugin.tsx:38-63 | For any constructed node, the class set is exactly `{direction}` and the opposite class is absent. There is no `dir` attribute, and `dataset.direction` names the direction. |
| TextDirection.UpdateDOM | src/components/rich-editor/plugins/text-direction-plugin/TextDirectionPlugin.tsx:65-67 | The result is true exactly when the two `dataset.direction` values differ. A value without a dataset reads as undefined. |
| TextDirection.UpdateDOMOnRenders | src/components/rich-editor/plugins/text-direction-plugin/TextDirectionPlugin.tsx:51-67 | On two rendered elements, `updateDOM` asks for a re-render exactly when the nodes' directions differ. |
| TextDirection.ReconcileAsWritten | src/components/rich-editor/plugins/text-direction-plugin/TextDirectionPlugin.tsx:65-67 | As the host invokes it, with the previous node as the first argument, `updateDOM` always answers true. |
| TextDirection.ReconcileAsWrittenRerendersUnchanged | src/components/rich-editor/plugins/text-direction-plugin/TextDirectionPlugin.tsx:65-67 | Counterexample: an unchanged node is re-rendered even though its render is identical. |
| TextDirection.NeedsRerender | src/components/rich-editor/plugins/text-direction-plugin/TextDirectionPlugin.tsx:65-67 | Corrected test: re-render exactly when the renders' `data-direction` values differ. Equivalently, re-render exactly when the rendered elements differ. |
| TextDirection.MoveOneChild | src/components/rich-editor/plugins/text-direction-plugin/TextDirectionPlugin.tsx:72 | One `paragraph.append(child)` takes the block's first remaining child off the block and puts it at the end of the paragraph's children, re-parented to the paragraph. Given that, one more child counts as moved, in order, with every other node untouched. |
| TextDirection.MoveChildren | src/components/rich-editor/plugins/text-direction-plugin/TextDirectionPlugin.tsx:70-72 | The `forEach` append loop leaves the paragraph holding the block's children in their original order. The block is left empty. Every moved child's parent is the paragraph, and every other node is untouched. |
| TextDirection.CollapseAtStart | src/components/rich-editor/plugins/text-direction-plugin/TextDirectionPlugin.tsx:69-75 | The call returns true. The block is gone. A paragraph holding the block's former children, in order, takes the block's place under its parent. The result equals the reference `Collapsed` document. |
| TextDirection.CollapsedIsWellLinked | src/components/rich-editor/plugins/text-direction-plugin/TextDirectionPlugin.tsx:69-75 | Collapsing keeps parent and child links consistent. |
| TextDirection.HandleDirectionCommand | src/components/rich-editor/plugins/text-direction-plugin/TextDirectionPlugin.tsx:99-121 | The RTL and LTR handlers convert blocks to `rtl` or `ltr` exactly when the selection is a range selection. They always consume the command. |
| TextDirection.BlockFactory | src/components/rich-editor/plugins/text-direction-plugin/TextDirectionPlugin.tsx:104-116 | Each block a handler creates is a fresh direction node with the handler's direction. |
| TextDirection.ConvertedBlocksRenderCommandDirection | src/components/rich-editor/plugins/text-direction-plugin/TextDirectionPlugin.tsx:99-121 | Blocks converted by a handler render with exactly the command's direction class and dataset value. |
| TextDirection.MountTextDirectionPlugin | src/components/rich-editor/plugins/text-direction-plugin/TextDirectionPlugin.tsx:90-124 | Mounting fails with the configuration error exactly when `direction` is not a registered type. Otherwise both handlers are registered at low priority. |
| Editor.ResolveMode | src/components/rich-editor/Editor.tsx:78-82 | The mode defaults to `simple` when not given. |
| Editor.RegisteredTypes | src/components/rich-editor/Editor.tsx:87-94 | The registered type tags are the host's built-in tags (root, text, line break, tab, paragraph) together with the tags of the configured node classes, and nothing else. |
| Editor.EditorPassesDirectionCheck | src/components/rich-editor/Editor.tsx:87-94 | The editor's node list includes the direction node, so the plugin mounts without error. |
| Editor.MissingDirectionNodeIsRefused | src/components/rich-editor/plugins/text-direction-plugin/TextDirectionPlugin.tsx:93-97 | A node list without the direction node makes the plugin refuse to mount. |
| Editor.Utf16Length | src/components/rich-editor/Editor.tsx:65 | JavaScript's `text.length` lies between the character count and twice that count. It equals the character count when every character is in the basic multilingual plane. |
| Editor.Matcher | src/components/rich-editor/Editor.tsx:59-76 | The result is null exactly when the unanchored pattern finds no URL. On a match, `index` is 0 and `length` is the full text length. `text`, `url` and `href` all equal the input. `target` is `_blank` and `rel` is `nofollow`. |
| Editor.MatchCoversWholeText | src/components/rich-editor/Editor.tsx:56-66 | A URL anywhere in the text makes the whole text the link: the match starts at 0 and spans at least every character. |
| Editor.RangeGuardIsShared | src/components/glyf-toolbar/Toolbar.tsx:61-96 | Every listed format button (bold, italic, underline, strikethrough) and every heading button (h1 to h3) acts exactly on range selections. So do both direction commands, whose handlers are at TextDirectionPlugin.tsx:99-121. |

## Findings

| source | as written | input that shows it | evidently intended | confidence | as-written member | corrected member |
|---|---|---|---|---|---|---|
| src/components/rich-editor/plugins/text-direction-plugin/TextDirectionPlugin.tsx:65-67 | `updateDOM` reads `_prevNode.dataset?.direction`. The host calls `updateDOM(prevNode, dom, config)` with the previous node, which has no `dataset`, so the comparison is `undefined !== dom.dataset.direction` and is always true. | Any direction node reconciled with no change, e.g. an `ltr` node: it is re-created although its render is identical (`ReconcileAsWrittenRerendersUnchanged`). | Re-render only when the direction changed. | medium; not executed (relies on the host's `updateDOM` calling convention) | TextDirection.ReconcileAsWritten | TextDirection.NeedsRerender |

## Left out

- Toolbar.RefreshIsLink: the source computes `isLink` in an effect that runs only when the plugin mounts (Toolbar.tsx:332-346), not on selection changes. So `isLink`, the `insertLink` payload and whether the floating editor is shown (Toolbar.tsx:361) reflect the selection at mount time. The model states one refresh step; it does not promise the flag tracks later selections.
- Toolbar.OnInputKeyDown: outside edit mode the input is not rendered, so it receives no keys. The model treats a key press there as doing nothing.
- TextDirection.CollapseAtStart: the model requires an attached block in a consistent tree whose parent is not also its child. The host's behaviour on a detached block is not modelled.
- TextDirection.AddCls: `classList.add` throws on an empty token or one containing whitespace. The model requires a valid token and does not model the error. The only tokens passed are `rtl` and `ltr`.
- TextDirection.RemoveCls: `classList.remove` throws on the same tokens. The model requires a valid token and does not model the error.
- TextDirection.RemoveAttr: on an HTML element `removeAttribute` lower-cases the name first. The model requires a lower-case name and does not model the case folding. It also requires a name other than `class` and `data-*`. The DOM would clear the class list or the dataset entry for those, but the model keeps them outside `attributes`. The only name passed is `dir`.
- Editor.RegisteredTypes: the built-in tags are the five classes the host registers for every editor. They are listed by tag only. None of them is `direction`.
- TextDirection.NewDirectionNode: the host's key generator is replaced by a `freshKey` argument.
- Editor.Matcher: `URL_REGEX` is an uninterpreted predicate on substrings, because its lookahead-based pattern is not the point of the matcher.
- Editor.TypeName: the banner node's type tag is assumed to be `banner`, because the banner node's definition is not part of this model.
- The host editor's machinery is not modelled:
  - the command bus and its priority chains;
  - `editor.update` transactions;
  - `$setBlocksType`, which is represented by the direction it converts to and the block factory it is given;
  - `formatText`, history and DOM reconciliation.
- `append` and `replace` are minimal stand-ins with only the behaviour the collapse rule relies on.
- The unregister functions returned by `registerCommand` are discarded by the plugin (it registers on every render). Handler lifetimes are not modelled.
- `positionEditorElement` is left out because it is floating-point pixel arithmetic on window and element geometry.
- The native-selection branch of `updateLinkEditor` (Toolbar.tsx:207-243) is left out. It also resets the recorded selection, edit mode and URL. It depends on the browser selection and focus, so `lastSelection` is an input of the floating editor's state.
- React hooks, effects, portals and refs are left out. The `SELECTION_CHANGE` listener registration is left out too.
- `ListToolbarPlugin` and `BannerToolbarPlugin` are left out: each dispatches a fixed command with no selection logic. The banner and link toolbar entries are switched off in `ToolbarPlugin`.
- `$isDirectionNode` is a class-membership test, represented by `BlockKind.DirectionBlock?`.
- The `console.log` call in `$createDirectionNode` is left out (logging).
- The theme class-name table and `onError` are constant data and logging.
- The text-align plugin is a button adapter over an identity table.
- The second link plugin is a logging stub.
- The playground app is demo glue, and the storage service interface has no implementation.
