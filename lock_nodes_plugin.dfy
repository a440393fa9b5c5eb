/**
 * The locked-content guard: a plugin that installs six command listeners
 * at critical priority and reports a command as handled (and so blocked)
 * whenever the current range selection touches a text node whose whole
 * text content is one of the strings in `lockedTexts`.
 */
module LockNodesPlugin {
  import opened Lexical

  /** The module-level list of locked strings. It is declared but the
      guard never reads it: every decision uses the `lockedTexts` prop. */
  const LOCKED_TEXTS: seq<string> := ["Welcome to the Lexical Playground!", "VIP Activation"]

  /** The six commands the plugin intercepts. */
  const GUARDED_COMMANDS: set<CommandType> := {KeyDown, Paste, FormatText, Undo, Redo, FormatElement}

  /** `$isTextNode(node) && lockedTexts.includes(node.getTextContent())`. */
  predicate IsLockedText(lockedTexts: seq<string>, node: SelectedNode)
  {
    node.Text? && node.text in lockedTexts
  }

  /** The `for (const node of nodes)` search with its early `return true`. */
  function AnyLockedText(lockedTexts: seq<string>, nodes: seq<SelectedNode>): (found: bool)
    ensures found <==> exists i :: 0 <= i < |nodes| && IsLockedText(lockedTexts, nodes[i])
  {
    if nodes == [] then false
    else if IsLockedText(lockedTexts, nodes[0]) then true
    else
      var rest := AnyLockedText(lockedTexts, nodes[1..]);
      assert forall i :: 1 <= i < |nodes| ==> nodes[i] == nodes[1..][i - 1];
      rest
  }

  /** `checkLockedSelection`: true exactly when the selection is a range
      selection and one of its nodes is a text node whose text content
      equals (as a whole string) an entry of `lockedTexts`. */
  function CheckLockedSelection(lockedTexts: seq<string>, sel: Selection): (locked: bool)
    ensures locked <==>
      sel.Range? &&
      exists i :: 0 <= i < |sel.nodes| && sel.nodes[i].Text? && sel.nodes[i].text in lockedTexts
  {
    sel.Range? && AnyLockedText(lockedTexts, sel.nodes)
  }

  /** The FORMAT_TEXT, UNDO, REDO and FORMAT_ELEMENT listeners: each
      returns `true` (handled, so the command goes no further) exactly when
      `checkLockedSelection` holds, and `false` otherwise. */
  function HandleGuardedCommand(lockedTexts: seq<string>, sel: Selection): (handled: bool)
    ensures handled == CheckLockedSelection(lockedTexts, sel)
    ensures handled ==> sel.Range? && |sel.nodes| > 0 && |lockedTexts| > 0
  {
    if CheckLockedSelection(lockedTexts, sel) then true else false
  }

  /** The KEY_DOWN and PASTE listeners: the same search, written out in
      each listener, with `event.preventDefault()` called just before
      `return true`. When the listener returns `false` the event is left
      as it was. */
  method GuardCancelableEvent(lockedTexts: seq<string>, sel: Selection, event: DomEvent) returns (handled: bool)
    modifies event
    ensures handled == CheckLockedSelection(lockedTexts, sel)
    ensures handled ==> event.defaultPrevented
    ensures !handled ==> unchanged(event)
  {
    if sel.Range? {
      var nodes := sel.nodes;
      var i := 0;
      while i < |nodes|
        invariant 0 <= i <= |nodes|
        invariant forall j :: 0 <= j < i ==> !IsLockedText(lockedTexts, nodes[j])
        invariant unchanged(event)
      {
        if nodes[i].Text? && nodes[i].text in lockedTexts {
          event.PreventDefault();
          return true;
        }
        i := i + 1;
      }
    }
    return false;
  }

  /** The six registrations the plugin's effect makes, in its order, when
      the editor's next unregister token is `first`. */
  function GuardRegistrations(first: nat, lockedTexts: seq<string>): seq<Registration>
  {
    [ Registration(first, CommandListener(KeyDown, COMMAND_PRIORITY_CRITICAL), LockGuard(lockedTexts)),
      Registration(first + 1, CommandListener(Paste, COMMAND_PRIORITY_CRITICAL), LockGuard(lockedTexts)),
      Registration(first + 2, CommandListener(FormatText, COMMAND_PRIORITY_CRITICAL), LockGuard(lockedTexts)),
      Registration(first + 3, CommandListener(Undo, COMMAND_PRIORITY_CRITICAL), LockGuard(lockedTexts)),
      Registration(first + 4, CommandListener(Redo, COMMAND_PRIORITY_CRITICAL), LockGuard(lockedTexts)),
      Registration(first + 5, CommandListener(FormatElement, COMMAND_PRIORITY_CRITICAL), LockGuard(lockedTexts)) ]
  }

  /** What a guard listener does when its command is dispatched over
      selection `sel`: whether it swallows the command, and whether it calls
      `preventDefault` on the event. */
  datatype GuardAnswer = GuardAnswer(handled: bool, preventsDefault: bool)

  /** The answer of a table entry installed by this plugin: the key-down
      and paste entries run `GuardCancelableEvent`, the other four run
      `HandleGuardedCommand`; entries of other listeners have none. */
  function GuardAnswerOf(r: Registration, sel: Selection): (a: Option<GuardAnswer>)
    ensures a.Some? <==> r.handler.LockGuard? && r.kind.CommandListener? && r.kind.command in GUARDED_COMMANDS
    ensures a.Some? ==> a.value.handled == CheckLockedSelection(r.handler.lockedTexts, sel)
    ensures a.Some? ==> (a.value.preventsDefault <==> a.value.handled && r.kind.command in {KeyDown, Paste})
  {
    if r.handler.LockGuard? && r.kind.CommandListener? && r.kind.command in GUARDED_COMMANDS then
      var lockedTexts := r.handler.lockedTexts;
      if r.kind.command == KeyDown || r.kind.command == Paste then
        var handled := CheckLockedSelection(lockedTexts, sel);
        Some(GuardAnswer(handled, handled))
      else
        Some(GuardAnswer(HandleGuardedCommand(lockedTexts, sel), false))
    else None
  }

  /** Every entry the effect installs answers, and each swallows its
      command exactly when the selection is locked; only the first two
      (key-down and paste) cancel the event. */
  lemma GuardEntriesAnswer(first: nat, lockedTexts: seq<string>, sel: Selection)
    ensures forall i :: 0 <= i < |GuardRegistrations(first, lockedTexts)| ==>
      GuardAnswerOf(GuardRegistrations(first, lockedTexts)[i], sel).Some? &&
      GuardAnswerOf(GuardRegistrations(first, lockedTexts)[i], sel).value.handled == CheckLockedSelection(lockedTexts, sel) &&
      (GuardAnswerOf(GuardRegistrations(first, lockedTexts)[i], sel).value.preventsDefault <==>
         i < 2 && CheckLockedSelection(lockedTexts, sel))
  {
    var rs := GuardRegistrations(first, lockedTexts);
    forall i | 0 <= i < |rs|
      ensures GuardAnswerOf(rs[i], sel).Some?
      ensures GuardAnswerOf(rs[i], sel).value.handled == CheckLockedSelection(lockedTexts, sel)
      ensures GuardAnswerOf(rs[i], sel).value.preventsDefault <==> i < 2 && CheckLockedSelection(lockedTexts, sel)
    {
      assert rs[i].handler == LockGuard(lockedTexts);
      assert rs[i].kind.command in {KeyDown, Paste} <==> i < 2;
    }
  }

  /** The unregister tokens the effect keeps for its cleanup. */
  function GuardTokens(first: nat): seq<nat>
  {
    [first, first + 1, first + 2, first + 3, first + 4, first + 5]
  }

  /** Six command listeners, one per guarded command, each at critical
      priority and each closing over the same `lockedTexts`. */
  lemma GuardRegistrationsShape(first: nat, lockedTexts: seq<string>)
    ensures |GuardRegistrations(first, lockedTexts)| == 6
    ensures forall r :: r in GuardRegistrations(first, lockedTexts) ==>
      r.kind.CommandListener? && r.kind.priority == COMMAND_PRIORITY_CRITICAL &&
      r.kind.command in GUARDED_COMMANDS && r.handler == LockGuard(lockedTexts)
    ensures forall c :: c in GUARDED_COMMANDS ==>
      exists r :: r in GuardRegistrations(first, lockedTexts) && r.kind == CommandListener(c, COMMAND_PRIORITY_CRITICAL)
  {
    var rs := GuardRegistrations(first, lockedTexts);
    forall c | c in GUARDED_COMMANDS
      ensures exists r :: r in rs && r.kind == CommandListener(c, COMMAND_PRIORITY_CRITICAL)
    {
      var k := match c
        case KeyDown => 0 case Paste => 1 case FormatText => 2
        case Undo => 3 case Redo => 4 case _ => 5;
      assert rs[k] in rs;
    }
  }

  /** The effect body: register the six listeners and hand back what the
      cleanup needs. */
  method RegisterLockNodes(editor: Editor, lockedTexts: seq<string>) returns (cleanup: seq<nat>)
    requires editor.Valid()
    modifies editor
    ensures editor.Valid()
    ensures editor.registrations == old(editor.registrations) + GuardRegistrations(old(editor.nextToken), lockedTexts)
    ensures cleanup == GuardTokens(old(editor.nextToken))
    ensures editor.nextToken == old(editor.nextToken) + 6
    ensures editor.editable == old(editor.editable)
  {
    var removeKeydown := editor.RegisterCommand(KeyDown, LockGuard(lockedTexts), COMMAND_PRIORITY_CRITICAL);
    var removePaste := editor.RegisterCommand(Paste, LockGuard(lockedTexts), COMMAND_PRIORITY_CRITICAL);
    var removeFormat := editor.RegisterCommand(FormatText, LockGuard(lockedTexts), COMMAND_PRIORITY_CRITICAL);
    var removeUndo := editor.RegisterCommand(Undo, LockGuard(lockedTexts), COMMAND_PRIORITY_CRITICAL);
    var removeRedo := editor.RegisterCommand(Redo, LockGuard(lockedTexts), COMMAND_PRIORITY_CRITICAL);
    var removeAlignment := editor.RegisterCommand(FormatElement, LockGuard(lockedTexts), COMMAND_PRIORITY_CRITICAL);
    cleanup := [removeKeydown, removePaste, removeFormat, removeUndo, removeRedo, removeAlignment];
  }

  /** The cleanup the effect returns: call all six unregister functions. */
  method Cleanup(editor: Editor, cleanup: seq<nat>)
    requires editor.Valid() && |cleanup| == 6
    modifies editor
    ensures editor.Valid()
    ensures editor.registrations == RemoveTokens(old(editor.registrations), cleanup)
    ensures editor.nextToken == old(editor.nextToken) && editor.editable == old(editor.editable)
  {
    ghost var r0 := editor.registrations;
    editor.Unregister(cleanup[0]);
    assert cleanup[..1] == [cleanup[0]];
    editor.Unregister(cleanup[1]);
    UnregisterNext(r0, cleanup, 2, editor.registrations);
    editor.Unregister(cleanup[2]);
    UnregisterNext(r0, cleanup, 3, editor.registrations);
    editor.Unregister(cleanup[3]);
    UnregisterNext(r0, cleanup, 4, editor.registrations);
    editor.Unregister(cleanup[4]);
    UnregisterNext(r0, cleanup, 5, editor.registrations);
    editor.Unregister(cleanup[5]);
    UnregisterNext(r0, cleanup, 6, editor.registrations);
    assert cleanup[..6] == cleanup;
  }

  /** Calling one more unregister function extends the removed prefix. */
  lemma UnregisterNext(r0: seq<Registration>, tokens: seq<nat>, k: nat, current: seq<Registration>)
    requires 1 <= k <= |tokens|
    requires current == RemoveTokens(RemoveTokens(r0, tokens[..k - 1]), [tokens[k - 1]])
    ensures current == RemoveTokens(r0, tokens[..k])
  {
    RemoveTokensTwice(r0, tokens[..k - 1], [tokens[k - 1]]);
    assert tokens[..k] == tokens[..k - 1] + [tokens[k - 1]];
  }

  /** Cleaning up right after setting up leaves the listener table exactly
      as it was before the plugin mounted. */
  lemma SetupThenCleanupRestores(rs: seq<Registration>, first: nat, lockedTexts: seq<string>)
    requires TokensBelow(rs, first)
    ensures RemoveTokens(rs + GuardRegistrations(first, lockedTexts), GuardTokens(first)) == rs
  {
    var ts := GuardTokens(first);
    var gs := GuardRegistrations(first, lockedTexts);
    RemoveTokensAppend(rs, gs, ts);
    RemoveAbsentTokens(rs, ts, first);
    assert forall i :: 0 <= i < 6 ==> gs[i].token == ts[i];
    RemoveCoveredTokens(gs, ts);
    assert rs + [] == rs;
  }

  /** Mounting the plugin and then running its cleanup. */
  method MountThenUnmount(editor: Editor, lockedTexts: seq<string>)
    requires editor.Valid()
    modifies editor
    ensures editor.Valid()
    ensures editor.registrations == old(editor.registrations)
    ensures editor.editable == old(editor.editable)
  {
    var cleanup := RegisterLockNodes(editor, lockedTexts);
    Cleanup(editor, cleanup);
    SetupThenCleanupRestores(old(editor.registrations), old(editor.nextToken), lockedTexts);
  }

  /** A node or table selection, or no selection at all, is never blocked. */
  lemma NonRangeNeverBlocked(lockedTexts: seq<string>, sel: Selection)
    requires !sel.Range?
    ensures !CheckLockedSelection(lockedTexts, sel)
    ensures !HandleGuardedCommand(lockedTexts, sel)
  {
  }

  /** With an empty list nothing is blocked. */
  lemma EmptyListNeverBlocks(sel: Selection)
    ensures !CheckLockedSelection([], sel)
  {
  }

  /** A non-text node in the selection never makes a difference, whatever
      its `__locked` or `locked` flags. */
  lemma {:induction false} ElementNodesNeverBlock(lockedTexts: seq<string>, before: seq<SelectedNode>,
                                                   props: NodeProps, after: seq<SelectedNode>,
                                                   formats: set<TextFormatType>)
    ensures CheckLockedSelection(lockedTexts, Range(before + [Element(props)] + after, formats))
         == CheckLockedSelection(lockedTexts, Range(before + after, formats))
  {
    var with := before + [Element(props)] + after;
    var without := before + after;
    if AnyLockedText(lockedTexts, with) {
      var i :| 0 <= i < |with| && IsLockedText(lockedTexts, with[i]);
      var j := if i < |before| then i else i - 1;
      assert without[j] == with[i];
    }
    if AnyLockedText(lockedTexts, without) {
      var j :| 0 <= j < |without| && IsLockedText(lockedTexts, without[j]);
      var i := if j < |before| then j else j + 1;
      assert with[i] == without[j];
    }
  }

  /** Only which nodes are selected matters, not their order. */
  lemma SelectionOrderIrrelevant(lockedTexts: seq<string>, a: seq<SelectedNode>, b: seq<SelectedNode>,
                                 formats: set<TextFormatType>)
    requires multiset(a) == multiset(b)
    ensures CheckLockedSelection(lockedTexts, Range(a, formats)) == CheckLockedSelection(lockedTexts, Range(b, formats))
  {
    if AnyLockedText(lockedTexts, a) {
      var i :| 0 <= i < |a| && IsLockedText(lockedTexts, a[i]);
      assert a[i] in multiset(b);
      var j :| 0 <= j < |b| && b[j] == a[i];
    }
    if AnyLockedText(lockedTexts, b) {
      var j :| 0 <= j < |b| && IsLockedText(lockedTexts, b[j]);
      assert b[j] in multiset(a);
      var i :| 0 <= i < |a| && a[i] == b[j];
    }
  }

  /** Locking more strings can only block more. */
  lemma MoreLockedTextsBlockMore(small: seq<string>, large: seq<string>, sel: Selection)
    requires forall s :: s in small ==> s in large
    requires CheckLockedSelection(small, sel)
    ensures CheckLockedSelection(large, sel)
  {
    var i :| 0 <= i < |sel.nodes| && sel.nodes[i].Text? && sel.nodes[i].text in small;
    assert sel.nodes[i].text in large;
  }

  /** Matching is by whole string: "VIP Activation" in the list does not
      protect the three nodes "VIP", " ", "Activation", and "VIP" in the
      list does not protect a node reading "VIP Activation". */
  lemma WholeStringMatchOnly(props: NodeProps)
    ensures !CheckLockedSelection(["VIP Activation"],
              Range([Text("VIP", props), Text(" ", props), Text("Activation", props)], {}))
    ensures !CheckLockedSelection(["VIP"], Range([Text("VIP Activation", props)], {}))
  {
    var split := [Text("VIP", props), Text(" ", props), Text("Activation", props)];
    assert forall i :: 0 <= i < 3 ==> split[i].text != "VIP Activation" by {
      assert split[0].text == "VIP" && |split[0].text| != |"VIP Activation"|;
      assert split[1].text == " " && |split[1].text| != |"VIP Activation"|;
      assert split[2].text == "Activation" && |split[2].text| != |"VIP Activation"|;
    }
    assert |"VIP Activation"| != |"VIP"|;
  }

  /** The decision comes from the prop, not from `LOCKED_TEXTS`: a node
      reading "VIP Activation" (listed in `LOCKED_TEXTS`) is not blocked
      when the prop is empty, but is when the prop names it. */
  lemma DecisionUsesPropNotConstant(props: NodeProps)
    ensures "VIP Activation" in LOCKED_TEXTS
    ensures !CheckLockedSelection([], Range([Text("VIP Activation", props)], {}))
    ensures CheckLockedSelection(["VIP Activation"], Range([Text("VIP Activation", props)], {}))
  {
    assert Range([Text("VIP Activation", props)], {}).nodes[0].text in ["VIP Activation"];
  }
}
