/**
 * The editor component: the fixed default document, the walk that turns
 * it into the list of locked strings handed to the guard, the "is the
 * selection locked" flag and the edit-mode toggle that together decide
 * whether the toolbar is shown.
 */
module Editor {
  import opened Lexical
  import LockNodesPlugin

  /** A node of the serialized (JSON) document as the walk sees it: its
      `type`, its `locked` value (absent is `Undefined`), its `text` (read
      only for `"text"` nodes), whether it has a `children` array (an
      array, even an empty one, is truthy) and that array. */
  datatype DocNode = DocNode(nodeType: string, locked: JsValue, text: string, hasChildren: bool, children: seq<DocNode>)

  function TextLeaf(text: string): DocNode
  {
    DocNode("text", Undefined, text, false, [])
  }

  function Block(nodeType: string, locked: JsValue, children: seq<DocNode>): DocNode
  {
    DocNode(nodeType, locked, "", true, children)
  }

  // The blocks of the default document, in document order.

  const WELCOME: string := "Welcome to the Lexical Playground!"
  const PLAYGROUND: string :=
    "The playground is a demo environment built with @lexical/react. Try typing in some text with different formats."

  const HEADING: DocNode := Block("heading", Bool(true), [TextLeaf(WELCOME)])
  const QUOTE: DocNode := Block("quote", Undefined, [TextLeaf(
    "In case you were wondering what the black box at the bottom is \U{e2}\U{20ac}\U{201c} it's the debug view, showing the current state of the editor. You can disable it by pressing on the settings control in the bottom-left of your screen and toggling the debug view setting.")])
  const EMPTY_PARAGRAPH: DocNode := Block("paragraph", Undefined, [TextLeaf("")])
  /** The "BRANDING" paragraph: its `locked: true` is commented out. */
  const BRANDING: DocNode := Block("paragraph", Undefined, [TextLeaf("BRANDING")])
  const VIP_ACTIVATION: DocNode := Block("paragraph", Bool(true), [TextLeaf("VIP"), TextLeaf(" "), TextLeaf("Activation")])
  const SCELERISQUE: DocNode := Block("paragraph", Undefined, [TextLeaf(
    "Scelerisque auctor dolor diam tortor, fames faucibus non interdum nunc. Ultrices nibh sapien elit gravida ac, rutrum molestie adipiscing lacinia.")])
  const LAYOUT_ITEM: DocNode := Block("layout-item", Undefined, [BRANDING, VIP_ACTIVATION, SCELERISQUE])
  const PLAYGROUND_PARAGRAPH: DocNode := Block("paragraph", Bool(true), [TextLeaf(PLAYGROUND)])
  const PLUGINS_PARAGRAPH: DocNode := Block("paragraph", Undefined, [TextLeaf(
    "Make sure to check out the various plugins in the toolbar. You can also use #hashtags or @-mentions too!")])
  const MORE_PARAGRAPH: DocNode := Block("paragraph", Undefined, [TextLeaf(
    "If you'd like to find out more about Lexical, you can:")])
  const LASTLY_PARAGRAPH: DocNode := Block("paragraph", Undefined, [TextLeaf(
    "Lastly, we're constantly adding cool new features to this playground. So make sure you check back here when you next get a chance \U{f0}\U{178}\U{2122}\U{201a}.")])

  /** `JSON.parse(defaultContent).root`. */
  const DEFAULT_CONTENT: DocNode := Block("root", Undefined,
    [HEADING, QUOTE, EMPTY_PARAGRAPH, LAYOUT_ITEM, PLAYGROUND_PARAGRAPH,
     PLUGINS_PARAGRAPH, MORE_PARAGRAPH, LASTLY_PARAGRAPH])

  /** The `text` of each direct child whose `type` is `"text"`, in order. */
  function DirectTexts(children: seq<DocNode>): seq<string>
  {
    if children == [] then []
    else (if children[0].nodeType == "text" then [children[0].text] else []) + DirectTexts(children[1..])
  }

  /** What a node contributes itself: its direct text children when its
      `locked` is truthy and it has `children`, nothing otherwise. */
  function OwnLockedTexts(node: DocNode): seq<string>
  {
    if Truthy(node.locked) && node.hasChildren then DirectTexts(node.children) else []
  }

  /** The list `traverseNodes` builds: a node's own contribution, then
      that of each child subtree in order. */
  function LockedTextsOf(node: DocNode): seq<string>
    decreases node, 1
  {
    OwnLockedTexts(node) + (if node.hasChildren then LockedTextsOfAll(node.children) else [])
  }

  function LockedTextsOfAll(nodes: seq<DocNode>): seq<string>
    decreases nodes, 0
  {
    if nodes == [] then [] else LockedTextsOf(nodes[0]) + LockedTextsOfAll(nodes[1..])
  }

  /** The pre-order listing of a tree: a node, then each child subtree. */
  function PreOrder(node: DocNode): (ns: seq<DocNode>)
    ensures |ns| > 0 && ns[0] == node
    decreases node, 1
  {
    [node] + (if node.hasChildren then PreOrderAll(node.children) else [])
  }

  function PreOrderAll(nodes: seq<DocNode>): seq<DocNode>
    decreases nodes, 0
  {
    if nodes == [] then [] else PreOrder(nodes[0]) + PreOrderAll(nodes[1..])
  }

  /** The own contributions of a list of nodes, concatenated. */
  function ConcatOwn(nodes: seq<DocNode>): seq<string>
  {
    if nodes == [] then [] else OwnLockedTexts(nodes[0]) + ConcatOwn(nodes[1..])
  }

  lemma {:induction false} DirectTextsAppend(a: seq<DocNode>, b: seq<DocNode>)
    ensures DirectTexts(a + b) == DirectTexts(a) + DirectTexts(b)
  {
    if a == [] {
      assert a + b == b;
    } else {
      assert (a + b)[0] == a[0] && (a + b)[1..] == a[1..] + b;
      DirectTextsAppend(a[1..], b);
    }
  }

  lemma {:induction false} LockedTextsOfAllAppend(a: seq<DocNode>, b: seq<DocNode>)
    ensures LockedTextsOfAll(a + b) == LockedTextsOfAll(a) + LockedTextsOfAll(b)
  {
    if a == [] {
      assert a + b == b;
    } else {
      assert (a + b)[0] == a[0] && (a + b)[1..] == a[1..] + b;
      LockedTextsOfAllAppend(a[1..], b);
    }
  }

  lemma {:induction false} ConcatOwnAppend(a: seq<DocNode>, b: seq<DocNode>)
    ensures ConcatOwn(a + b) == ConcatOwn(a) + ConcatOwn(b)
  {
    if a == [] {
      assert a + b == b;
    } else {
      assert (a + b)[0] == a[0] && (a + b)[1..] == a[1..] + b;
      ConcatOwnAppend(a[1..], b);
    }
  }

  /** The walk lists, in pre-order, the own contribution of every node of
      the tree: a locked node's direct text children are collected before
      anything from its subtrees, and an unlocked node adds nothing itself. */
  lemma {:induction false} LockedTextsArePreOrder(node: DocNode)
    ensures LockedTextsOf(node) == ConcatOwn(PreOrder(node))
    decreases node, 1
  {
    var kids := if node.hasChildren then PreOrderAll(node.children) else [];
    if node.hasChildren {
      LockedTextsArePreOrderAll(node.children);
    }
    ConcatOwnAppend([node], kids);
    assert ConcatOwn([node]) == OwnLockedTexts(node) by {
      assert [node][1..] == [];
    }
  }

  lemma {:induction false} LockedTextsArePreOrderAll(nodes: seq<DocNode>)
    ensures LockedTextsOfAll(nodes) == ConcatOwn(PreOrderAll(nodes))
    decreases nodes, 0
  {
    if nodes != [] {
      LockedTextsArePreOrder(nodes[0]);
      LockedTextsArePreOrderAll(nodes[1..]);
      ConcatOwnAppend(PreOrder(nodes[0]), PreOrderAll(nodes[1..]));
    }
  }

  /** A string is in the concatenation exactly when one node contributes it. */
  lemma {:induction false} ConcatOwnMembership(nodes: seq<DocNode>, t: string)
    ensures t in ConcatOwn(nodes) <==> exists i :: 0 <= i < |nodes| && t in OwnLockedTexts(nodes[i])
  {
    if nodes != [] {
      ConcatOwnMembership(nodes[1..], t);
      if t in ConcatOwn(nodes[1..]) {
        var i :| 0 <= i < |nodes[1..]| && t in OwnLockedTexts(nodes[1..][i]);
        assert nodes[i + 1] == nodes[1..][i];
      }
      if exists i :: 0 <= i < |nodes| && t in OwnLockedTexts(nodes[i]) {
        var i :| 0 <= i < |nodes| && t in OwnLockedTexts(nodes[i]);
        if i > 0 {
          assert nodes[1..][i - 1] == nodes[i];
        }
      }
    }
  }

  lemma {:induction false} DirectTextsMembership(children: seq<DocNode>, t: string)
    ensures t in DirectTexts(children) <==>
      exists j :: 0 <= j < |children| && children[j].nodeType == "text" && children[j].text == t
  {
    if children != [] {
      DirectTextsMembership(children[1..], t);
      if t in DirectTexts(children[1..]) {
        var j :| 0 <= j < |children[1..]| && children[1..][j].nodeType == "text" && children[1..][j].text == t;
        assert children[j + 1] == children[1..][j];
      }
      if exists j :: 0 <= j < |children| && children[j].nodeType == "text" && children[j].text == t {
        var j :| 0 <= j < |children| && children[j].nodeType == "text" && children[j].text == t;
        if j > 0 {
          assert children[1..][j - 1] == children[j];
        }
      }
    }
  }

  /** A string is collected exactly when some node of the tree has a
      truthy `locked`, has `children`, and one of those children is a
      `"text"` node carrying that string. */
  lemma LockedTextMembership(root: DocNode, t: string)
    ensures t in LockedTextsOf(root) <==>
      exists i :: 0 <= i < |PreOrder(root)| &&
        Truthy(PreOrder(root)[i].locked) && PreOrder(root)[i].hasChildren &&
        t in DirectTexts(PreOrder(root)[i].children)
  {
    LockedTextsArePreOrder(root);
    ConcatOwnMembership(PreOrder(root), t);
  }

  /** The local array `lockedTexts` that `traverseNodes` pushes into. */
  class LockedTextsCollector {
    var lockedTexts: seq<string>

    constructor ()
      ensures lockedTexts == []
    {
      lockedTexts := [];
    }

    /** `traverseNodes(node)`. */
    method TraverseNodes(node: DocNode)
      modifies this
      ensures lockedTexts == old(lockedTexts) + LockedTextsOf(node)
      decreases node, 1
    {
      if Truthy(node.locked) && node.hasChildren {
        PushTextChildren(node.children);
      }
      if node.hasChildren {
        TraverseChildren(node.children);
      }
    }

    /** `node.children.forEach(child => { if (child.type === "text")
        lockedTexts.push(child.text); })`. */
    method PushTextChildren(children: seq<DocNode>)
      modifies this
      ensures lockedTexts == old(lockedTexts) + DirectTexts(children)
    {
      var i := 0;
      while i < |children|
        invariant 0 <= i <= |children|
        invariant lockedTexts == old(lockedTexts) + DirectTexts(children[..i])
      {
        if children[i].nodeType == "text" {
          lockedTexts := lockedTexts + [children[i].text];
        }
        DirectTextsAppend(children[..i], [children[i]]);
        assert children[..i + 1] == children[..i] + [children[i]];
        i := i + 1;
      }
      assert children[..i] == children;
    }

    /** `node.children.forEach(traverseNodes)`. */
    method TraverseChildren(children: seq<DocNode>)
      modifies this
      ensures lockedTexts == old(lockedTexts) + LockedTextsOfAll(children)
      decreases children, 0
    {
      var i := 0;
      while i < |children|
        invariant 0 <= i <= |children|
        invariant lockedTexts == old(lockedTexts) + LockedTextsOfAll(children[..i])
      {
        TraverseNodes(children[i]);
        LockedTextsOfAllAppend(children[..i], [children[i]]);
        assert children[..i + 1] == children[..i] + [children[i]];
        i := i + 1;
      }
      assert children[..i] == children;
    }
  }

  /** `extractLockedTexts(content)`: the argument is not read; the list is
      always computed from the default document. */
  method ExtractLockedTexts(content: string) returns (lockedTexts: seq<string>)
    ensures lockedTexts == LockedTextsOf(DEFAULT_CONTENT)
  {
    var collector := new LockedTextsCollector();
    var parsedContent := DEFAULT_CONTENT;
    collector.TraverseNodes(parsedContent);
    lockedTexts := collector.lockedTexts;
  }

  /** A text leaf contributes nothing. */
  lemma LeafContributesNothing(t: string)
    ensures LockedTextsOf(TextLeaf(t)) == []
  {
  }

  /** A block holding one text leaf contributes that text exactly when its
      `locked` is truthy. */
  lemma SingleLeafBlock(nodeType: string, locked: JsValue, t: string)
    ensures LockedTextsOf(Block(nodeType, locked, [TextLeaf(t)])) == if Truthy(locked) then [t] else []
  {
    var kids := [TextLeaf(t)];
    assert kids[1..] == [];
    assert DirectTexts(kids) == [t];
    LeafContributesNothing(t);
    assert LockedTextsOfAll(kids) == [];
  }

  lemma VipActivationTexts()
    ensures LockedTextsOf(VIP_ACTIVATION) == ["VIP", " ", "Activation"]
  {
    var kids := [TextLeaf("VIP"), TextLeaf(" "), TextLeaf("Activation")];
    LeafContributesNothing("VIP");
    LeafContributesNothing(" ");
    LeafContributesNothing("Activation");
    assert kids[1..][1..] == kids[2..] && kids[2..][1..] == [];
    assert LockedTextsOfAll(kids[2..]) == [];
    assert LockedTextsOfAll(kids[1..]) == [];
    assert LockedTextsOfAll(kids) == [];
    assert DirectTexts(kids[2..]) == ["Activation"];
    assert DirectTexts(kids[1..]) == [" ", "Activation"];
    assert DirectTexts(kids) == ["VIP", " ", "Activation"];
  }

  lemma LayoutItemTexts()
    ensures LockedTextsOf(LAYOUT_ITEM) == ["VIP", " ", "Activation"]
  {
    var kids := [BRANDING, VIP_ACTIVATION, SCELERISQUE];
    SingleLeafBlock("paragraph", Undefined, "BRANDING");
    VipActivationTexts();
    SingleLeafBlock("paragraph", Undefined, SCELERISQUE.children[0].text);
    assert kids[1..][1..] == kids[2..] && kids[2..][1..] == [];
    assert LockedTextsOfAll(kids[2..]) == [];
    assert LockedTextsOfAll(kids[1..]) == ["VIP", " ", "Activation"];
    assert LockedTextsOfAll(kids) == ["VIP", " ", "Activation"];
  }

  lemma {:induction false} LockedTextsOfAllCons(n: DocNode, ns: seq<DocNode>)
    ensures LockedTextsOfAll([n] + ns) == LockedTextsOf(n) + LockedTextsOfAll(ns)
  {
    assert ([n] + ns)[0] == n && ([n] + ns)[1..] == ns;
  }

  /** The last three blocks are not locked. */
  lemma TrailingBlocksTexts()
    ensures LockedTextsOfAll([PLUGINS_PARAGRAPH, MORE_PARAGRAPH, LASTLY_PARAGRAPH]) == []
  {
    SingleLeafBlock("paragraph", Undefined, PLUGINS_PARAGRAPH.children[0].text);
    SingleLeafBlock("paragraph", Undefined, MORE_PARAGRAPH.children[0].text);
    SingleLeafBlock("paragraph", Undefined, LASTLY_PARAGRAPH.children[0].text);
    LockedTextsOfAllCons(LASTLY_PARAGRAPH, []);
    LockedTextsOfAllCons(MORE_PARAGRAPH, [LASTLY_PARAGRAPH]);
    LockedTextsOfAllCons(PLUGINS_PARAGRAPH, [MORE_PARAGRAPH, LASTLY_PARAGRAPH]);
    assert [MORE_PARAGRAPH] + [LASTLY_PARAGRAPH] == [MORE_PARAGRAPH, LASTLY_PARAGRAPH];
    assert [PLUGINS_PARAGRAPH] + [MORE_PARAGRAPH, LASTLY_PARAGRAPH] == [PLUGINS_PARAGRAPH, MORE_PARAGRAPH, LASTLY_PARAGRAPH];
  }

  /** The layout item and the blocks after it. */
  lemma LaterBlocksTexts()
    ensures LockedTextsOfAll([LAYOUT_ITEM, PLAYGROUND_PARAGRAPH, PLUGINS_PARAGRAPH, MORE_PARAGRAPH, LASTLY_PARAGRAPH])
         == ["VIP", " ", "Activation", PLAYGROUND]
  {
    var tail3 := [PLUGINS_PARAGRAPH, MORE_PARAGRAPH, LASTLY_PARAGRAPH];
    TrailingBlocksTexts();
    SingleLeafBlock("paragraph", Bool(true), PLAYGROUND);
    LockedTextsOfAllCons(PLAYGROUND_PARAGRAPH, tail3);
    LayoutItemTexts();
    LockedTextsOfAllCons(LAYOUT_ITEM, [PLAYGROUND_PARAGRAPH] + tail3);
    assert [LAYOUT_ITEM] + ([PLAYGROUND_PARAGRAPH] + tail3)
        == [LAYOUT_ITEM, PLAYGROUND_PARAGRAPH, PLUGINS_PARAGRAPH, MORE_PARAGRAPH, LASTLY_PARAGRAPH];
  }

  /** The list the guard receives for the default document: the three
      pieces of "VIP Activation" are separate entries and BRANDING is not
      among them. */
  lemma DefaultLockedTexts()
    ensures LockedTextsOf(DEFAULT_CONTENT) == [WELCOME, "VIP", " ", "Activation", PLAYGROUND]
  {
    var tail5 := [LAYOUT_ITEM, PLAYGROUND_PARAGRAPH, PLUGINS_PARAGRAPH, MORE_PARAGRAPH, LASTLY_PARAGRAPH];
    LaterBlocksTexts();
    SingleLeafBlock("paragraph", Undefined, "");
    LockedTextsOfAllCons(EMPTY_PARAGRAPH, tail5);
    SingleLeafBlock("quote", Undefined, QUOTE.children[0].text);
    LockedTextsOfAllCons(QUOTE, [EMPTY_PARAGRAPH] + tail5);
    SingleLeafBlock("heading", Bool(true), WELCOME);
    LockedTextsOfAllCons(HEADING, [QUOTE] + ([EMPTY_PARAGRAPH] + tail5));
    assert [HEADING] + ([QUOTE] + ([EMPTY_PARAGRAPH] + tail5)) == DEFAULT_CONTENT.children;
  }

  /** Composed with the guard, the default list blocks any range selection
      that touches a text node consisting of a single space, wherever that
      node sits in the document. */
  lemma LoneSpaceIsBlocked(sel: Selection, i: nat)
    requires sel.Range? && i < |sel.nodes| && sel.nodes[i].Text? && sel.nodes[i].text == " "
    ensures LockNodesPlugin.CheckLockedSelection(LockedTextsOf(DEFAULT_CONTENT), sel)
  {
    DefaultLockedTexts();
    assert sel.nodes[i].text in LockedTextsOf(DEFAULT_CONTENT);
  }

  /** ... while a single node reading "VIP Activation", or the BRANDING
      node, is not blocked by it. */
  lemma JoinedTextIsNotBlocked(props: NodeProps, formats: set<TextFormatType>)
    ensures !LockNodesPlugin.CheckLockedSelection(LockedTextsOf(DEFAULT_CONTENT), Range([Text("VIP Activation", props)], formats))
    ensures !LockNodesPlugin.CheckLockedSelection(LockedTextsOf(DEFAULT_CONTENT), Range([Text("BRANDING", props)], formats))
  {
    DefaultLockedTexts();
    var lt := [WELCOME, "VIP", " ", "Activation", PLAYGROUND];
    assert forall k :: 0 <= k < 5 ==> |lt[k]| != |"VIP Activation"| && |lt[k]| != |"BRANDING"|;
  }

  /** `latestNode?.__locked === true || latestNode?.locked === true`. */
  predicate IsFlaggedLocked(node: SelectedNode)
  {
    IsStrictTrue(node.latest.underscoreLocked) || IsStrictTrue(node.latest.locked)
  }

  /** `nodes.some(...)` over the selected nodes. */
  function HasLockedNode(nodes: seq<SelectedNode>): (found: bool)
    ensures found <==> exists i :: 0 <= i < |nodes| && IsFlaggedLocked(nodes[i])
  {
    if nodes == [] then false
    else if IsFlaggedLocked(nodes[0]) then true
    else
      var rest := HasLockedNode(nodes[1..]);
      assert forall i :: 1 <= i < |nodes| ==> nodes[i] == nodes[1..][i - 1];
      rest
  }

  /** The value the update listener gives `isLocked`: true exactly when the
      selection is a range selection and the latest version of one of its
      nodes has `__locked` or `locked` strictly equal to `true`. */
  function SelectionIsLocked(sel: Selection): (locked: bool)
    ensures locked <==>
      sel.Range? &&
      exists i :: 0 <= i < |sel.nodes| &&
        (sel.nodes[i].latest.underscoreLocked == Bool(true) || sel.nodes[i].latest.locked == Bool(true))
  {
    if sel.Range? then HasLockedNode(sel.nodes) else false
  }

  /** The flag is structural and the guard is textual, so they can
      disagree: a selected "VIP" text node without lock flags is blocked by
      the guard while the toolbar still counts the selection as unlocked,
      and a truthy but non-boolean `locked` does not count. */
  lemma FlagAndGuardDiffer(formats: set<TextFormatType>)
    ensures LockNodesPlugin.CheckLockedSelection(LockedTextsOf(DEFAULT_CONTENT),
              Range([Text("VIP", NodeProps(Undefined, Undefined))], formats))
    ensures !SelectionIsLocked(Range([Text("VIP", NodeProps(Undefined, Undefined))], formats))
    ensures Truthy(Number(1)) && !SelectionIsLocked(Range([Element(NodeProps(Undefined, Number(1)))], formats))
  {
    LoneSpaceIsBlocked(Range([Text(" ", NodeProps(Undefined, Undefined))], formats), 0);
    DefaultLockedTexts();
    assert Range([Text("VIP", NodeProps(Undefined, Undefined))], formats).nodes[0].text in LockedTextsOf(DEFAULT_CONTENT);
  }

  /** The component's own state. */
  class EditorContent {
    var isEditable: bool
    var isLocked: bool

    /** Both flags start false, so the toolbar starts hidden. */
    constructor ()
      ensures !isEditable && !isLocked
      ensures !ShouldShowToolbar()
    {
      isEditable := false;
      isLocked := false;
    }

    /** `isEditable && !isLocked`: the toolbar is never shown in read-only
        mode nor over a locked selection, and is shown otherwise. */
    function ShouldShowToolbar(): (show: bool)
      reads this
      ensures show ==> isEditable
      ensures show ==> !isLocked
      ensures isEditable && !isLocked ==> show
    {
      isEditable && !isLocked
    }

    /** `toggleEditing`: flip `isEditable` and tell the editor the flipped
        value; the lock flag is not touched. */
    method ToggleEditing(editor: Editor)
      modifies this, editor
      ensures isEditable == !old(isEditable) && isLocked == old(isLocked)
      ensures editor.editable == isEditable
      ensures editor.registrations == old(editor.registrations) && editor.nextToken == old(editor.nextToken)
      ensures ShouldShowToolbar() == (!old(isEditable) && !old(isLocked))
    {
      var wasEditable := isEditable;
      isEditable := !wasEditable;
      editor.SetEditable(!wasEditable);
    }

    /** The update listener: recompute `isLocked` from the new selection. */
    method OnUpdate(sel: Selection)
      modifies this
      ensures isLocked == SelectionIsLocked(sel) && isEditable == old(isEditable)
      ensures ShouldShowToolbar() <==> isEditable && !SelectionIsLocked(sel)
    {
      if sel.Range? {
        var hasLockedNode := HasLockedNode(sel.nodes);
        isLocked := hasLockedNode;
      } else {
        isLocked := false;
      }
    }
  }

  /** Two toggles give back the original edit mode, in the component and in
      the editor, which start in agreement (both read-only). */
  method ToggleTwice(content: EditorContent, editor: Editor)
    requires editor.editable == content.isEditable
    modifies content, editor
    ensures content.isEditable == old(content.isEditable) && content.isLocked == old(content.isLocked)
    ensures editor.editable == old(editor.editable)
    ensures editor.editable == content.isEditable
  {
    content.ToggleEditing(editor);
    content.ToggleEditing(editor);
  }
}
