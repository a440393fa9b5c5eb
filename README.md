# Locked content in a Lexical rich-text editor

This project models lexical-shared, a React editor built on Lexical whose document holds passages that the user must not change. The model covers four parts:

- **The lock guard** (`LockNodesPlugin`). It takes a list of locked strings. At the highest command priority it intercepts key-down, paste, text formatting, undo, redo and alignment. If the current range selection contains a text node whose whole text is one of the locked strings, it swallows the command. For key-down and paste it also cancels the browser event.
- **The locked text node** (`LockedTextNode`). Formatting calls return the node unchanged, `remove` returns `false`, and each of the overridden capability queries answers `false`. Cloning always yields another locked node with the same text and key.
- **The editor component** (`Editor.tsx`):
  - It walks the default JSON document and collects the text children of every block whose `locked` is truthy.
  - It tracks an editable flag, plus an `isLocked` flag taken from the `__locked` / `locked` properties of the selected nodes.
  - It shows the toolbar only while editable and not locked.
  - Its HTML hooks keep only the non-default pasted styles and strip `class`, `style` and `dir="ltr"` from exported markup.
- **The toolbar** (`ToolbarPlugin.tsx`):
  - Six flags, the three listeners plus the update listener that maintain them, and ten buttons.
  - Each button dispatches one command. A button shows its flag either through `disabled` or through the `active` class.

Files:

- `lexical.dfy` (module `Lexical`): the framework surface the application touches.
  - JavaScript values and truthiness.
  - Selections and selected nodes.
  - Cancelable DOM events.
  - The editor's listener table with its unregister tokens, and the `mergeRegister` cleanup.
- `lock_nodes_plugin.dfy` (module `LockNodesPlugin`), `locked_text_node.dfy` (module `LockedTextNode`), `editor.dfy` (module `Editor`), `editor_html.dfy` (module `EditorHtml`) and `toolbar_plugin.dfy` (module `ToolbarPlugin`) follow the source files.

Wherever the source depends on Lexical, the model takes what Lexical would compute as input and never derives it itself. This covers which nodes a selection covers, a node's latest version, a selection's format bits, and the style parsers `parseAllowedFontSize` / `parseAllowedColor`. Stateful parts are classes whose methods change their fields:

- the editor's editable flag and listener table;
- the component's and the toolbar's React state;
- the DOM elements' attributes;
- the list being collected.

The rest are functions on values.

Three facts about the code are easy to misread:

- The toolbar's `isLocked` does not look at the locked strings at all. It is true exactly when some selected node's latest version has `__locked === true` or `locked === true` (`Editor.SelectionIsLocked`). Whether nodes carry such properties is up to Lexical and is an input here.
- "VIP Activation" is stored in the default document as three text children: "VIP", " " and "Activation". So the list the editor hands to the guard is [WELCOME, "VIP", " ", "Activation", PLAYGROUND], with no "VIP Activation" entry (`Editor.DefaultLockedTexts`).
  - A text node reading "VIP Activation" as a whole is therefore not blocked (`Editor.JoinedTextIsNotBlocked`).
  - Any text node that is a lone space is blocked (`Editor.LoneSpaceIsBlocked`).
- The plugin's own `LOCKED_TEXTS` constant is never consulted. Only the property passed in decides (`LockNodesPlugin.DecisionUsesPropNotConstant`).

## Model

| member | source | states |
|---|---|---|
| LockNodesPlugin.AnyLockedText | src/nodes/LockNodesPlugin.ts:26-30 | the early-return loop finds a node exactly when some selected node is a text node whose whole text is a member of the locked list |
| LockNodesPlugin.CheckLockedSelection | src/nodes/LockNodesPlugin.ts:22-33 | true exactly when the selection is a range selection containing a text node whose text is in the list; false for node selections and no selection |
| LockNodesPlugin.HandleGuardedCommand | src/nodes/LockNodesPlugin.ts:71-113 | the formatting, undo, redo and alignment handlers swallow the command exactly when the selection is locked, which needs a non-empty range selection and a non-empty list |
| LockNodesPlugin.GuardCancelableEvent | src/nodes/LockNodesPlugin.ts:35-69 | the key-down and paste handlers return the same decision as the check, cancel the event whenever they swallow it, and leave it untouched otherwise |
| LockNodesPlugin.GuardAnswerOf | src/nodes/LockNodesPlugin.ts:35-113 | an entry of the guard answers exactly when it listens on a guarded command; it swallows the command exactly when the selection is locked, and cancels the event exactly when it swallows a key-down or paste |
| LockNodesPlugin.GuardEntriesAnswer | src/nodes/LockNodesPlugin.ts:35-113 | each of the six installed entries swallows its command exactly when the selection is locked, and only the key-down and paste entries cancel the event |
| LockNodesPlugin.GuardRegistrationsShape | src/nodes/LockNodesPlugin.ts:35-113 | the effect installs six listeners, one for each guarded command, all at critical priority and all closing over the given list |
| LockNodesPlugin.RegisterLockNodes | src/nodes/LockNodesPlugin.ts:35-113 | registering appends exactly those six entries to the editor's table with fresh tokens and hands the tokens back |
| LockNodesPlugin.Cleanup | src/nodes/LockNodesPlugin.ts:115-122 | the returned cleanup removes exactly the entries carrying the six tokens |
| LockNodesPlugin.UnregisterNext | src/nodes/LockNodesPlugin.ts:115-122 | calling the unregister functions one after another removes the tokens called so far |
| LockNodesPlugin.SetupThenCleanupRestores | src/nodes/LockNodesPlugin.ts:21-123 | registering the guard and then running its cleanup gives back the listener table as it was |
| LockNodesPlugin.MountThenUnmount | src/nodes/LockNodesPlugin.ts:21-123 | mounting and unmounting the plugin leaves the editor's listeners and editable flag as they were |
| LockNodesPlugin.NonRangeNeverBlocked | src/nodes/LockNodesPlugin.ts:24 | node selections and an absent selection are never blocked |
| LockNodesPlugin.EmptyListNeverBlocks | src/nodes/LockNodesPlugin.ts:27 | with no locked strings nothing is ever blocked |
| LockNodesPlugin.ElementNodesNeverBlock | src/nodes/LockNodesPlugin.ts:27 | inserting a non-text node anywhere in a selection never changes the decision |
| LockNodesPlugin.SelectionOrderIrrelevant | src/nodes/LockNodesPlugin.ts:26-30 | the decision depends only on the multiset of selected nodes, not their order |
| LockNodesPlugin.MoreLockedTextsBlockMore | src/nodes/LockNodesPlugin.ts:27 | a selection blocked by a list is blocked by every larger list |
| LockNodesPlugin.WholeStringMatchOnly | src/nodes/LockNodesPlugin.ts:27 | matching is on whole node texts: the parts of a locked string split over several nodes are not blocked by it, and a list entry that is only part of a node's text does not block that node |
| LockNodesPlugin.DecisionUsesPropNotConstant | src/nodes/LockNodesPlugin.ts:16-18 | the module constant lists "VIP Activation", yet only the list passed in decides |
| LockedTextNode.Clone | example/ionic-lexical-shared/src/components/Editor/nodes/LockedTextNode.ts:8-10 | a clone is a locked node with the original's text and key and otherwise fresh fields, whatever the original's class |
| LockedTextNode.GetType | example/ionic-lexical-shared/src/components/Editor/nodes/LockedTextNode.ts:4-6 | the type is "locked-text" exactly for locked nodes and "text" exactly for plain ones |
| LockedTextNode.CreateLockedTextNode | example/ionic-lexical-shared/src/components/Editor/nodes/LockedTextNode.ts:52-54 | the factory yields a locked node with the given text |
| LockedTextNode.CallLocked | example/ionic-lexical-shared/src/components/Editor/nodes/LockedTextNode.ts:27-49 | setFormat and format return the receiver unchanged; remove returns false and also leaves the node unchanged |
| LockedTextNode.Answer | example/ionic-lexical-shared/src/components/Editor/nodes/LockedTextNode.ts:19-45 | a locked node answers false to every overridden query; a plain node gives the base class's answer |
| LockedTextNode.LockedRefusesEveryQuery | example/ionic-lexical-shared/src/components/Editor/nodes/LockedTextNode.ts:19-45 | updateDOM, isEditable, canInsertTextBefore, canInsertTextAfter and canBeEmpty all answer false on a locked node |
| LockedTextNode.LockedNodeNeverChanges | example/ionic-lexical-shared/src/components/Editor/nodes/LockedTextNode.ts:27-49 | no sequence of formatting and removal calls changes a locked node |
| LockedTextNode.CloneStaysLocked | example/ionic-lexical-shared/src/components/Editor/nodes/LockedTextNode.ts:4-10 | every clone reports type "locked-text", refuses every query and survives every call sequence |
| LockedTextNode.CloneIdempotent | example/ionic-lexical-shared/src/components/Editor/nodes/LockedTextNode.ts:8-10 | cloning a clone changes nothing, and two nodes have equal clones exactly when their text and key agree |
| LockedTextNode.CloneOfCreated | example/ionic-lexical-shared/src/components/Editor/nodes/LockedTextNode.ts:8-10 | cloning a freshly created locked node reproduces it |
| Editor.PreOrder | example/ionic-lexical-shared/src/components/Editor/Editor.tsx:394-405 | the traversal order starts at the node itself |
| Editor.LockedTextsArePreOrder | example/ionic-lexical-shared/src/components/Editor/Editor.tsx:394-405 | the collected list is the concatenation of each node's own contribution, taken in pre-order |
| Editor.LockedTextsArePreOrderAll | example/ionic-lexical-shared/src/components/Editor/Editor.tsx:402-404 | the same for a list of siblings |
| Editor.ConcatOwnMembership | example/ionic-lexical-shared/src/components/Editor/Editor.tsx:394-405 | a string is collected from a list of nodes exactly when one of them contributes it itself |
| Editor.DirectTextsMembership | example/ionic-lexical-shared/src/components/Editor/Editor.tsx:396-400 | a string is pushed from a child list exactly when one child has type "text" and that text |
| Editor.LockedTextMembership | example/ionic-lexical-shared/src/components/Editor/Editor.tsx:391-410 | a string is collected exactly when it is the text of a "text" child of some block, reachable in the tree, whose locked is truthy and which has children |
| Editor.DirectTextsAppend | example/ionic-lexical-shared/src/components/Editor/Editor.tsx:396-400 | pushing from two child lists in a row pushes their texts in order |
| Editor.LockedTextsOfAllAppend | example/ionic-lexical-shared/src/components/Editor/Editor.tsx:402-404 | traversing two sibling lists in a row collects their lists in order |
| Editor.ConcatOwnAppend | example/ionic-lexical-shared/src/components/Editor/Editor.tsx:394-405 | the pre-order concatenation splits over appended node lists |
| Editor.LockedTextsCollector.TraverseNodes | example/ionic-lexical-shared/src/components/Editor/Editor.tsx:394-405 | the recursive walk appends exactly the node's locked texts to what was collected before |
| Editor.LockedTextsCollector.PushTextChildren | example/ionic-lexical-shared/src/components/Editor/Editor.tsx:396-400 | the first forEach appends the text of every "text" child, in order |
| Editor.LockedTextsCollector.TraverseChildren | example/ionic-lexical-shared/src/components/Editor/Editor.tsx:402-404 | the second forEach appends the locked texts of every child subtree, in order |
| Editor.ExtractLockedTexts | example/ionic-lexical-shared/src/components/Editor/Editor.tsx:391-412 | the result is the locked texts of the default document, whatever the argument |
| Editor.LeafContributesNothing | example/ionic-lexical-shared/src/components/Editor/Editor.tsx:395-402 | a text leaf without children contributes nothing |
| Editor.SingleLeafBlock | example/ionic-lexical-shared/src/components/Editor/Editor.tsx:395-404 | a block with one text child contributes that text exactly when its locked is truthy |
| Editor.VipActivationTexts | example/ionic-lexical-shared/src/components/Editor/Editor.tsx:145-267 | the locked "VIP Activation" paragraph contributes its three text children "VIP", " ", "Activation" |
| Editor.LayoutItemTexts | example/ionic-lexical-shared/src/components/Editor/Editor.tsx:145-267 | the unlocked layout item contributes the texts of the locked paragraph nested in it |
| Editor.LockedTextsOfAllCons | example/ionic-lexical-shared/src/components/Editor/Editor.tsx:402-404 | traversing a list visits its head before its tail |
| Editor.TrailingBlocksTexts | example/ionic-lexical-shared/src/components/Editor/Editor.tsx:145-267 | the last three document blocks contribute nothing |
| Editor.LaterBlocksTexts | example/ionic-lexical-shared/src/components/Editor/Editor.tsx:145-267 | the blocks after the quote contribute the three "VIP Activation" parts and then the playground sentence |
| Editor.DefaultLockedTexts | example/ionic-lexical-shared/src/components/Editor/Editor.tsx:145-267 | the default document's locked texts are exactly WELCOME, "VIP", " ", "Activation", PLAYGROUND, in this order |
| Editor.LoneSpaceIsBlocked | example/ionic-lexical-shared/src/components/Editor/Editor.tsx:412 | with the extracted list, any range selection containing a text node that is a single space is blocked |
| Editor.JoinedTextIsNotBlocked | example/ionic-lexical-shared/src/components/Editor/Editor.tsx:412 | with the extracted list, a text node reading "VIP Activation" or "BRANDING" is not blocked |
| Editor.HasLockedNode | example/ionic-lexical-shared/src/components/Editor/Editor.tsx:336-340 | `some` finds a node exactly when some node's latest version has `__locked === true` or `locked === true` |
| Editor.SelectionIsLocked | example/ionic-lexical-shared/src/components/Editor/Editor.tsx:333-345 | a range selection is locked exactly when it has such a node; any other selection is not locked |
| Editor.FlagAndGuardDiffer | example/ionic-lexical-shared/src/components/Editor/Editor.tsx:336-345 | the toolbar's lock flag and the guard disagree: a locked text without the flag is blocked but not flagged, and a truthy non-`true` flag does not count |
| Editor.EditorContent.constructor | example/ionic-lexical-shared/src/components/Editor/Editor.tsx:313-314 | the component starts neither editable nor locked, so the toolbar is hidden |
| Editor.EditorContent.ShouldShowToolbar | example/ionic-lexical-shared/src/components/Editor/Editor.tsx:355 | the toolbar is shown only in edit mode and only when the selection is not locked, and is shown whenever both hold |
| Editor.EditorContent.ToggleEditing | example/ionic-lexical-shared/src/components/Editor/Editor.tsx:324-327 | toggling flips the editable state, sets the editor's editable flag to the new state and shows the toolbar exactly when the old state was read-only and not locked |
| Editor.EditorContent.OnUpdate | example/ionic-lexical-shared/src/components/Editor/Editor.tsx:329-355 | after each update the lock flag is the selection's lock status, and the toolbar shows exactly when editable and that selection is not locked |
| Editor.ToggleTwice | example/ionic-lexical-shared/src/components/Editor/Editor.tsx:324-327 | starting with the component and the editor in agreement, as both start read-only, toggling twice restores the component's state and the editor's editable flag, and they still agree |
| EditorHtml.GetExtraStyles | example/ionic-lexical-shared/src/components/Editor/Editor.tsx:80-97 | the result is the rendering of the kept declarations of the parsed font size, background colour and colour |
| EditorHtml.ExtraDeclarationsMeaning | example/ionic-lexical-shared/src/components/Editor/Editor.tsx:87-95 | a declaration is emitted exactly for each non-empty, non-default value, carrying that value, with nothing else emitted, in the order font size, background colour, colour |
| EditorHtml.AllDefaultsGiveEmpty | example/ionic-lexical-shared/src/components/Editor/Editor.tsx:83-96 | the result is empty exactly when every parsed value is empty or the default ("15px", "rgb(255, 255, 255)", "rgb(0, 0, 0)") |
| EditorHtml.RenderDeclarationsAppend | example/ionic-lexical-shared/src/components/Editor/Editor.tsx:88-94 | appending with `+=` renders the declarations one after another |
| EditorHtml.RenderDeclarationsSnoc | example/ionic-lexical-shared/src/components/Editor/Editor.tsx:88-94 | each `+=` extends the rendering by one declaration |
| EditorHtml.RenderThenParse | example/ionic-lexical-shared/src/components/Editor/Editor.tsx:88-94 | rendered `property: value;` declarations read back as the same declarations when values hold no `;` |
| EditorHtml.ExtraStylesReadBack | example/ionic-lexical-shared/src/components/Editor/Editor.tsx:80-97 | the style string reads back as exactly the kept declarations whenever the parsers produce no `;` |
| EditorHtml.DomElement.GetAttribute | example/ionic-lexical-shared/src/components/Editor/Editor.tsx:64 | `getAttribute` yields the attribute's value, or nothing when it is absent |
| EditorHtml.DomElement.RemoveAttribute | example/ionic-lexical-shared/src/components/Editor/Editor.tsx:62-65 | `removeAttribute` drops that attribute and keeps the others |
| EditorHtml.StripAttributes | example/ionic-lexical-shared/src/components/Editor/Editor.tsx:62-66 | stripping keeps no attribute that was not there and leaves nothing the selector `[style],[class],[dir="ltr"]` would match |
| EditorHtml.StripAttributesMeaning | example/ionic-lexical-shared/src/components/Editor/Editor.tsx:62-66 | after the loop body, class and style are gone, dir is gone exactly when it was "ltr", and every other attribute keeps its value |
| EditorHtml.StripIdempotent | example/ionic-lexical-shared/src/components/Editor/Editor.tsx:58-67 | stripping twice is stripping once, and a stripped element no longer matches the selector |
| EditorHtml.StripKeepsUnmatched | example/ionic-lexical-shared/src/components/Editor/Editor.tsx:60 | an element the selector does not match is unchanged by stripping, and a dir other than "ltr" survives |
| EditorHtml.QuerySelectorAll | example/ionic-lexical-shared/src/components/Editor/Editor.tsx:60 | the query returns descendants that match `[style],[class],[dir="ltr"]`, and every matching descendant |
| EditorHtml.StripElement | example/ionic-lexical-shared/src/components/Editor/Editor.tsx:62-66 | the loop body leaves the element with its stripped attributes |
| EditorHtml.StripEach | example/ionic-lexical-shared/src/components/Editor/Editor.tsx:58-67 | every listed element ends up stripped, even one listed twice |
| EditorHtml.RemoveStylesExportDOM | example/ionic-lexical-shared/src/components/Editor/Editor.tsx:49-70 | for an HTML element output, the element and all its descendants end stripped; with no element or a non-HTML one nothing changes |
| ToolbarPlugin.Toolbar.constructor | example/ionic-lexical-shared/src/components/Editor/plugins/ToolbarPlugin.tsx:35-40 | all six flags start false |
| ToolbarPlugin.Toolbar.UpdateToolbar | example/ionic-lexical-shared/src/components/Editor/plugins/ToolbarPlugin.tsx:42-51 | on a range selection each format flag becomes the selection's format; otherwise no flag changes; undo and redo flags never change |
| ToolbarPlugin.Toolbar.OnUpdate | example/ionic-lexical-shared/src/components/Editor/plugins/ToolbarPlugin.tsx:55-59 | each update refreshes the format flags from the committed selection |
| ToolbarPlugin.Toolbar.OnSelectionChange | example/ionic-lexical-shared/src/components/Editor/plugins/ToolbarPlugin.tsx:60-67 | a selection change refreshes the format flags and does not swallow the command |
| ToolbarPlugin.Toolbar.OnCanUndo | example/ionic-lexical-shared/src/components/Editor/plugins/ToolbarPlugin.tsx:68-75 | the undo flag takes the payload, nothing else changes, the command is not swallowed |
| ToolbarPlugin.Toolbar.OnCanRedo | example/ionic-lexical-shared/src/components/Editor/plugins/ToolbarPlugin.tsx:76-83 | the redo flag takes the payload, nothing else changes, the command is not swallowed |
| ToolbarPlugin.OnClick | example/ionic-lexical-shared/src/components/Editor/plugins/ToolbarPlugin.tsx:91-186 | every button dispatches one of the commands the lock guard intercepts; undo and redo carry no payload, format buttons a text format, alignment buttons an alignment |
| ToolbarPlugin.Toolbar.IsDisabled | example/ionic-lexical-shared/src/components/Editor/plugins/ToolbarPlugin.tsx:90-101 | only undo and redo can be disabled: undo exactly without undo history, redo exactly without redo history |
| ToolbarPlugin.Toolbar.ClassName | example/ionic-lexical-shared/src/components/Editor/plugins/ToolbarPlugin.tsx:95-188 | every class name starts with "toolbar-item", and a format button whose flag is set shows "active" |
| ToolbarPlugin.Toolbar.Press | example/ionic-lexical-shared/src/components/Editor/plugins/ToolbarPlugin.tsx:88-192 | pressing a button dispatches its command exactly when it is not disabled |
| ToolbarPlugin.ClickDispatchesOwnCommand | example/ionic-lexical-shared/src/components/Editor/plugins/ToolbarPlugin.tsx:88-192 | undo and redo dispatch UNDO and REDO, format buttons dispatch FORMAT_TEXT with their format, alignment buttons dispatch FORMAT_ELEMENT with their alignment, and no two buttons dispatch the same thing |
| ToolbarPlugin.ButtonsAreAll | example/ionic-lexical-shared/src/components/Editor/plugins/ToolbarPlugin.tsx:88-192 | the toolbar renders ten buttons, all different, covering every kind of button |
| ToolbarPlugin.DisabledExactlyWithoutHistory | example/ionic-lexical-shared/src/components/Editor/plugins/ToolbarPlugin.tsx:89-110 | exactly the undo button without undo history and the redo button without redo history are disabled |
| ToolbarPlugin.ActiveExactlyWhenFormatSet | example/ionic-lexical-shared/src/components/Editor/plugins/ToolbarPlugin.tsx:112-192 | a button's class ends in "active" exactly when it is a format button whose flag is set, and it then dispatches that same format |
| ToolbarPlugin.ButtonsPassThroughGuard | example/ionic-lexical-shared/src/components/Editor/plugins/ToolbarPlugin.tsx:26-192 | the toolbar's command listeners are on commands the guard leaves alone, below its priority, and pressing any enabled button while a locked text is selected dispatches a command the guard has an entry for that swallows it |
| ToolbarPlugin.RegisterToolbar | example/ionic-lexical-shared/src/components/Editor/plugins/ToolbarPlugin.tsx:53-85 | the effect appends an update listener and the three command listeners at priority 1, with fresh tokens |
| ToolbarPlugin.ToolbarCleanupRestores | example/ionic-lexical-shared/src/components/Editor/plugins/ToolbarPlugin.tsx:53-85 | unregistering the toolbar's tokens removes exactly its four entries |
| ToolbarPlugin.MountThenUnmountToolbar | example/ionic-lexical-shared/src/components/Editor/plugins/ToolbarPlugin.tsx:53-85 | mounting and unmounting the toolbar leaves the listener table as it was |
| Lexical.MergedCleanup | example/ionic-lexical-shared/src/components/Editor/plugins/ToolbarPlugin.tsx:54-84 | the merged cleanup, calling the unregister functions last to first, removes exactly the entries with those tokens |
| Lexical.RemoveTokensMembership | src/nodes/LockNodesPlugin.ts:115-122 | an entry survives unregistering exactly when its token was not unregistered |
| Lexical.RemoveSameTokens | example/ionic-lexical-shared/src/components/Editor/plugins/ToolbarPlugin.tsx:54-84 | which unregister functions are called matters, not their order or repetition |

## Left out

- Lexical itself is not modelled. This covers its command dispatch loop, priority ordering between listeners, update batching, node versions and selection computation. These are inputs: a selection is given, and the guard's and the toolbar's answers are what a listener returns to the dispatcher.
- JSON parsing and serialisation of the default document are not modelled, since the document is modelled directly as a tree. The JSON fields the walk never reads (tag, format, style, version) are dropped. A "text" child without a `text` field, which would push `undefined`, does not occur in the document.
- `parseAllowedFontSize` and `parseAllowedColor` are not part of this model. They are parameters of `EditorHtml.GetExtraStyles`.
- `constructImportMap`, which wraps node importers to apply the extra styles, is left out because it is Lexical's DOM import machinery. So are the `exportMap` and `editorConfig` objects that install the hooks.
- `LoadInitialContent`, `handleExport` (localStorage, `alert`), `exportHTML` (Blob, object URLs, a download anchor), the `createDOM` override of the locked node, rendering and every `console.log` are left out as I/O or DOM rendering.
- The component's own registration of its update listener and that listener's cleanup are left out. The listener's effect on state is modelled as `Editor.EditorContent.OnUpdate`.
- React effect re-runs are left out. Examples are the guard re-registering when a new `lockedTexts` array arrives on each render, and the toolbar resetting its state when it is unmounted and mounted again. Mount and unmount are modelled once each.
- Editor.EditorContent.ToggleEditing: it reads the editable state at the time of the click. Two clicks within one render, which see the same stale value, are not modelled.
- LockedTextNode.CallLocked: only the overridden methods are modelled. What Lexical's own `TextNode` would do for a plain node is a function parameter.
- Numbers in JavaScript values are integers; floating point and NaN truthiness are not modelled.
