/** The editor's configuration: the auto-link matcher, the default mode and
    the node types it registers. */
module Editor {
  import opened Optional
  import opened Selection
  import TextDirection
  import Toolbar

  // ---------------------------------------------------------------------
  // Mode and registered nodes
  // ---------------------------------------------------------------------

  datatype EditorMode = Simple | Advanced

  /** The `mode` prop, defaulting to simple when not given. */
  function ResolveMode(mode: Option<EditorMode>): (m: EditorMode)
    ensures mode.None? ==> m == Simple
    ensures mode.Some? ==> m == mode.value
  {
    mode.GetOr(Simple)
  }

  /** The node classes the editor can register. */
  datatype NodeClass = HeadingNode | ListNode | ListItemNode | BannerNode | DirectionNode | AutoLinkNode

  /** Each class's type tag, by which the editor looks registered types up.
      The banner node's definition is not part of this model; any tag other
      than "direction" serves here. */
  function TypeName(c: NodeClass): string {
    match c
    case HeadingNode => "heading"
    case ListNode => "list"
    case ListItemNode => "listitem"
    case BannerNode => "banner"
    case DirectionNode => TextDirection.GetType()
    case AutoLinkNode => "autolink"
  }

  /** The `nodes` list of the editor's initial configuration. */
  const EditorNodes: seq<NodeClass> := [HeadingNode, ListNode, ListItemNode, BannerNode, DirectionNode, AutoLinkNode]

  /** The type tags of the classes every editor registers ahead of its
      configured `nodes`: root, text, line break, tab and paragraph. */
  const HostBuiltinTypes: set<string> := {"root", "text", "linebreak", "tab", "paragraph"}

  /** The type tags an editor configured with `nodes` knows: the host's
      built-in tags and the tags of the configured classes. */
  function RegisteredTypes(nodes: seq<NodeClass>): (types: set<string>)
    ensures HostBuiltinTypes <= types
    ensures forall i | 0 <= i < |nodes| :: TypeName(nodes[i]) in types
    ensures forall t | t in types && t !in HostBuiltinTypes :: exists c | c in nodes :: TypeName(c) == t
  {
    HostBuiltinTypes + set c | c in nodes :: TypeName(c)
  }

  /** The editor registers the direction node, so mounting the direction
      plugin in it never raises the configuration error. */
  lemma EditorPassesDirectionCheck()
    ensures TextDirection.MountTextDirectionPlugin(RegisteredTypes(EditorNodes)).Success?
  {
    assert EditorNodes[4] == DirectionNode;
  }

  /** Without the direction node the plugin refuses to mount. */
  lemma MissingDirectionNodeIsRefused(nodes: seq<NodeClass>)
    requires DirectionNode !in nodes
    ensures TextDirection.MountTextDirectionPlugin(RegisteredTypes(nodes)).Failure?
  {
  }

  // ---------------------------------------------------------------------
  // Auto-link matcher
  // ---------------------------------------------------------------------

  /** JavaScript's `text.length`: the number of UTF-16 code units, two for a
      character beyond the basic multilingual plane. */
  function Utf16Length(s: string): (n: nat)
    ensures |s| <= n <= 2 * |s|
    ensures (forall i | 0 <= i < |s| :: s[i] as int <= 0xFFFF) ==> n == |s|
  {
    if |s| == 0 then 0
    else (if s[0] as int <= 0xFFFF then 1 else 2) + Utf16Length(s[1..])
  }

  /** `URL_REGEX.test(text)`: the pattern is not anchored, so it succeeds when
      some substring is a URL. `isUrl` stands for "the pattern matches exactly
      this string". */
  predicate UrlTest(isUrl: string -> bool, text: string) {
    exists i, j | 0 <= i <= j <= |text| :: isUrl(text[i..j])
  }

  datatype LinkAttributes = LinkAttributes(target: string, href: string, rel: string)

  /** The matcher's result record. */
  datatype LinkMatch = LinkMatch(index: nat, length: nat, text: string, url: string, attributes: LinkAttributes)

  /** The auto-link matcher: null unless the pattern is found; on a match the
      whole text, from index 0 through its full length, becomes a link that
      opens in a new tab with `rel="nofollow"`. */
  function Matcher(isUrl: string -> bool, text: string): (r: Option<LinkMatch>)
    ensures r.None? <==> !UrlTest(isUrl, text)
    ensures r.Some? ==>
              && r.value.index == 0
              && r.value.length == Utf16Length(text)
              && r.value.text == text && r.value.url == text && r.value.attributes.href == text
              && r.value.attributes.target == "_blank"
              && r.value.attributes.rel == "nofollow"
  {
    if UrlTest(isUrl, text) then
      Some(LinkMatch(0, Utf16Length(text), text, text, LinkAttributes("_blank", text, "nofollow")))
    else None
  }

  /** A URL anywhere in the text makes the whole text the link: the match
      starts at 0 and spans at least every character, so at least the URL. */
  lemma MatchCoversWholeText(isUrl: string -> bool, text: string, i: nat, j: nat)
    requires 0 <= i <= j <= |text| && isUrl(text[i..j])
    ensures var r := Matcher(isUrl, text);
            && r.Some?
            && r.value.index == 0
            && r.value.length >= |text| >= j - i
            && r.value.url == text
  {
  }

  // ---------------------------------------------------------------------
  // The shared range guard
  // ---------------------------------------------------------------------

  /** Every format button, every heading button and both direction commands
      act exactly on range selections. */
  lemma RangeGuardIsShared(sel: Option<Selection>, cmd: TextDirection.DirectionCommand)
    ensures forall i | 0 <= i < |Toolbar.SupportedTextFormats| ::
              Toolbar.TextFormatClick(sel, Toolbar.SupportedTextFormats[i]).Some? <==> IsRangeSelection(sel)
    ensures forall i | 0 <= i < |Toolbar.HeadingTags| ::
              Toolbar.HeadingClick(sel, Toolbar.HeadingTags[i]).Some? <==> IsRangeSelection(sel)
    ensures TextDirection.HandleDirectionCommand(cmd, sel).convertTo.Some? <==> IsRangeSelection(sel)
  {
  }
}
