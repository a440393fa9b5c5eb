/**
 * The editor toolbar: six flags mirrored from the editor (undo and redo
 * availability, and the four text formats of the current range
 * selection), the listeners that keep them current, and ten buttons, each
 * dispatching one command and showing its flag through `disabled` or the
 * `active` class.
 */
module ToolbarPlugin {
  import opened Lexical
  import LockNodesPlugin

  /** The priority of all three toolbar command listeners. */
  const LOW_PRIORITY: nat := 1

  /** The payload a button dispatches: `undefined`, a text format name or
      an alignment name. */
  datatype Payload = NoPayload | TextFormat(format: TextFormatType) | ElementFormat(alignment: ElementFormatType)

  /** `editor.dispatchCommand(command, payload)`. */
  datatype Dispatch = Dispatch(command: CommandType, payload: Payload)

  /** The toolbar's buttons. */
  datatype Button = UndoButton | RedoButton | FormatButton(format: TextFormatType) | AlignButton(alignment: ElementFormatType)

  /** The buttons in the order they are rendered. */
  const BUTTONS: seq<Button> := [
    UndoButton, RedoButton,
    FormatButton(Bold), FormatButton(Italic), FormatButton(Underline), FormatButton(Strikethrough),
    AlignButton(Left), AlignButton(Center), AlignButton(Right), AlignButton(Justify)
  ]

  /** The `onClick` handler of each button. */
  function OnClick(b: Button): (d: Dispatch)
    ensures d.command in LockNodesPlugin.GUARDED_COMMANDS
    ensures d.payload.NoPayload? <==> b.UndoButton? || b.RedoButton?
    ensures d.payload.TextFormat? <==> b.FormatButton?
    ensures d.payload.ElementFormat? <==> b.AlignButton?
  {
    match b
    case UndoButton => Dispatch(Undo, NoPayload)
    case RedoButton => Dispatch(Redo, NoPayload)
    case FormatButton(f) => Dispatch(FormatText, TextFormat(f))
    case AlignButton(a) => Dispatch(FormatElement, ElementFormat(a))
  }

  /** The class names every button starts with. */
  const ITEM: string := "toolbar-item"
  const ITEM_SPACED: string := "toolbar-item spaced"

  /** Whether a class attribute ends in `active`. */
  predicate ShowsActive(className: string)
  {
    |className| >= 6 && className[|className| - 6..] == "active"
  }

  /** The toolbar's React state. */
  class Toolbar {
    var canUndo: bool
    var canRedo: bool
    var isBold: bool
    var isItalic: bool
    var isUnderline: bool
    var isStrikethrough: bool

    /** Every `useState` starts at `false`. */
    constructor ()
      ensures !canUndo && !canRedo && !isBold && !isItalic && !isUnderline && !isStrikethrough
    {
      canUndo := false;
      canRedo := false;
      isBold := false;
      isItalic := false;
      isUnderline := false;
      isStrikethrough := false;
    }

    /** The flag that mirrors text format `f`. */
    function FormatFlag(f: TextFormatType): bool
      reads this
    {
      match f
      case Bold => isBold
      case Italic => isItalic
      case Underline => isUnderline
      case Strikethrough => isStrikethrough
    }

    /** `$updateToolbar()`: on a range selection the four format flags take
        the selection's formats; on any other selection nothing changes.
        The undo and redo flags are never touched. */
    method UpdateToolbar(sel: Selection)
      modifies this
      ensures sel.Range? ==>
        isBold == HasFormat(sel, Bold) && isItalic == HasFormat(sel, Italic) &&
        isUnderline == HasFormat(sel, Underline) && isStrikethrough == HasFormat(sel, Strikethrough)
      ensures sel.Range? ==> forall f :: FormatFlag(f) == HasFormat(sel, f)
      ensures !sel.Range? ==>
        isBold == old(isBold) && isItalic == old(isItalic) &&
        isUnderline == old(isUnderline) && isStrikethrough == old(isStrikethrough)
      ensures canUndo == old(canUndo) && canRedo == old(canRedo)
    {
      if sel.Range? {
        isBold := HasFormat(sel, Bold);
        isItalic := HasFormat(sel, Italic);
        isUnderline := HasFormat(sel, Underline);
        isStrikethrough := HasFormat(sel, Strikethrough);
      }
    }

    /** The update listener: `$updateToolbar()` against the committed
        editor state, whose selection is `sel`. */
    method OnUpdate(sel: Selection)
      modifies this
      ensures sel.Range? ==> forall f :: FormatFlag(f) == HasFormat(sel, f)
      ensures !sel.Range? ==> forall f :: FormatFlag(f) == old(FormatFlag(f))
      ensures canUndo == old(canUndo) && canRedo == old(canRedo)
    {
      UpdateToolbar(sel);
    }

    /** The SELECTION_CHANGE_COMMAND listener: refresh, then let lower
        priorities run too. */
    method OnSelectionChange(sel: Selection) returns (handled: bool)
      modifies this
      ensures !handled
      ensures sel.Range? ==> forall f :: FormatFlag(f) == HasFormat(sel, f)
      ensures !sel.Range? ==> forall f :: FormatFlag(f) == old(FormatFlag(f))
      ensures canUndo == old(canUndo) && canRedo == old(canRedo)
    {
      UpdateToolbar(sel);
      handled := false;
    }

    /** The CAN_UNDO_COMMAND listener. */
    method OnCanUndo(payload: bool) returns (handled: bool)
      modifies this
      ensures !handled
      ensures canUndo == payload && canRedo == old(canRedo)
      ensures forall f :: FormatFlag(f) == old(FormatFlag(f))
    {
      canUndo := payload;
      handled := false;
    }

    /** The CAN_REDO_COMMAND listener. */
    method OnCanRedo(payload: bool) returns (handled: bool)
      modifies this
      ensures !handled
      ensures canRedo == payload && canUndo == old(canUndo)
      ensures forall f :: FormatFlag(f) == old(FormatFlag(f))
    {
      canRedo := payload;
      handled := false;
    }

    /** The `disabled` attribute of each button. */
    function IsDisabled(b: Button): (disabled: bool)
      reads this
      ensures disabled ==> b.UndoButton? || b.RedoButton?
      ensures b.UndoButton? ==> (disabled <==> !canUndo)
      ensures b.RedoButton? ==> (disabled <==> !canRedo)
    {
      match b
      case UndoButton => !canUndo
      case RedoButton => !canRedo
      case _ => false
    }

    /** The `className` of each button. */
    function ClassName(b: Button): (name: string)
      reads this
      ensures |name| >= |ITEM| && name[..|ITEM|] == ITEM
      ensures b.FormatButton? && FormatFlag(b.format) ==> ShowsActive(name)
    {
      match b
      case UndoButton => ITEM_SPACED
      case RedoButton => ITEM
      case FormatButton(f) => ITEM_SPACED + " " + (if FormatFlag(f) then "active" else "")
      case AlignButton(a) => if a == Justify then ITEM else ITEM_SPACED
    }

    /** A press of button `b`: a disabled button fires no `click`, so
        nothing is dispatched. */
    function Press(b: Button): (d: Option<Dispatch>)
      reads this
      ensures d.Some? <==> !IsDisabled(b)
      ensures d.Some? ==> d.value == OnClick(b)
    {
      if IsDisabled(b) then None else Some(OnClick(b))
    }
  }

  /** Each button dispatches its own command and payload: undo and redo with
      no payload, a format button its text format, an alignment button its
      alignment, and no two buttons dispatch the same thing. */
  lemma ClickDispatchesOwnCommand(b: Button, c: Button)
    ensures OnClick(b).command == Undo <==> b == UndoButton
    ensures OnClick(b).command == Redo <==> b == RedoButton
    ensures OnClick(b).command == FormatText <==> b.FormatButton?
    ensures OnClick(b).command == FormatElement <==> b.AlignButton?
    ensures b.FormatButton? ==> OnClick(b).payload == TextFormat(b.format)
    ensures b.AlignButton? ==> OnClick(b).payload == ElementFormat(b.alignment)
    ensures OnClick(b) == OnClick(c) <==> b == c
  {
  }

  /** The toolbar has the ten buttons, each once. */
  lemma ButtonsAreAll(b: Button)
    ensures b in BUTTONS
    ensures |BUTTONS| == 10
    ensures forall i, j :: 0 <= i < j < |BUTTONS| ==> BUTTONS[i] != BUTTONS[j]
  {
    var i := match b
      case UndoButton => 0
      case RedoButton => 1
      case FormatButton(f) => (match f case Bold => 2 case Italic => 3 case Underline => 4 case Strikethrough => 5)
      case AlignButton(a) => (match a case Left => 6 case Center => 7 case Right => 8 case Justify => 9);
    assert BUTTONS[i] == b;
  }

  /** Exactly the undo button without undo history and the redo button
      without redo history are disabled. */
  lemma DisabledExactlyWithoutHistory(t: Toolbar, b: Button)
    ensures t.IsDisabled(b) <==> (b == UndoButton && !t.canUndo) || (b == RedoButton && !t.canRedo)
  {
  }

  /** A button shows `active` exactly when it is a format button whose
      flag is set, and that flag is the one for the format it dispatches. */
  lemma ActiveExactlyWhenFormatSet(t: Toolbar, b: Button)
    ensures ShowsActive(t.ClassName(b)) <==> b.FormatButton? && t.FormatFlag(b.format)
    ensures ShowsActive(t.ClassName(b)) ==> OnClick(b) == Dispatch(FormatText, TextFormat(b.format))
  {
    var name := t.ClassName(b);
    match b
    case FormatButton(f) =>
      if t.FormatFlag(f) {
        assert name[|name| - 6..] == "active";
      } else {
        assert name == ITEM_SPACED + " ";
        assert name[|name| - 1] == ' ';
      }
    case UndoButton =>
      assert name[|name| - 1] == 'd';
    case RedoButton =>
      assert name[|name| - 1] == 'm';
    case AlignButton(a) =>
      assert name[|name| - 1] == 'm' || name[|name| - 1] == 'd';
  }

  /** The four registrations of the toolbar effect, from token `first` on. */
  function ToolbarRegistrations(first: nat): seq<Registration>
  {
    [ Registration(first, UpdateListener, ToolbarHandler),
      Registration(first + 1, CommandListener(SelectionChange, LOW_PRIORITY), ToolbarHandler),
      Registration(first + 2, CommandListener(CanUndo, LOW_PRIORITY), ToolbarHandler),
      Registration(first + 3, CommandListener(CanRedo, LOW_PRIORITY), ToolbarHandler) ]
  }

  /** The toolbar's listeners and the lock guard never compete: the toolbar
      listens on commands the guard does not take, below the guard's
      priority, while a press of any enabled button dispatches a command
      for which the guard has an entry that swallows it whenever a locked
      text is selected. */
  lemma ButtonsPassThroughGuard(t: Toolbar, b: Button, first: nat, guardFirst: nat,
                                lockedTexts: seq<string>, sel: Selection)
    ensures forall r :: r in ToolbarRegistrations(first) && r.kind.CommandListener? ==>
      r.kind.command !in LockNodesPlugin.GUARDED_COMMANDS && r.kind.priority < COMMAND_PRIORITY_CRITICAL
    ensures t.Press(b).Some? && LockNodesPlugin.CheckLockedSelection(lockedTexts, sel) ==>
      exists r :: r in LockNodesPlugin.GuardRegistrations(guardFirst, lockedTexts) &&
        r.kind.command == t.Press(b).value.command &&
        LockNodesPlugin.GuardAnswerOf(r, sel).Some? && LockNodesPlugin.GuardAnswerOf(r, sel).value.handled
  {
    LockNodesPlugin.GuardRegistrationsShape(guardFirst, lockedTexts);
    var c := OnClick(b).command;
    assert c in LockNodesPlugin.GUARDED_COMMANDS;
    var r :| r in LockNodesPlugin.GuardRegistrations(guardFirst, lockedTexts) &&
      r.kind == CommandListener(c, COMMAND_PRIORITY_CRITICAL);
    assert r.handler == LockGuard(lockedTexts);
  }

  /** The toolbar effect: `mergeRegister` of the update listener and the
      three command listeners; `cleanup` holds their tokens. */
  method RegisterToolbar(editor: Editor) returns (cleanup: seq<nat>)
    requires editor.Valid()
    modifies editor
    ensures editor.Valid()
    ensures editor.registrations == old(editor.registrations) + ToolbarRegistrations(old(editor.nextToken))
    ensures cleanup == [old(editor.nextToken), old(editor.nextToken) + 1, old(editor.nextToken) + 2, old(editor.nextToken) + 3]
    ensures editor.nextToken == old(editor.nextToken) + 4 && editor.editable == old(editor.editable)
  {
    var update := editor.RegisterUpdateListener(ToolbarHandler);
    var selectionChange := editor.RegisterCommand(SelectionChange, ToolbarHandler, LOW_PRIORITY);
    var canUndo := editor.RegisterCommand(CanUndo, ToolbarHandler, LOW_PRIORITY);
    var canRedo := editor.RegisterCommand(CanRedo, ToolbarHandler, LOW_PRIORITY);
    cleanup := [update, selectionChange, canUndo, canRedo];
  }

  /** Unregistering the toolbar's tokens removes exactly its four entries. */
  lemma {:induction false} ToolbarCleanupRestores(rs: seq<Registration>, first: nat)
    requires TokensBelow(rs, first)
    ensures RemoveTokens(rs + ToolbarRegistrations(first), [first, first + 1, first + 2, first + 3]) == rs
  {
    var ts := [first, first + 1, first + 2, first + 3];
    var added := ToolbarRegistrations(first);
    RemoveTokensAppend(rs, added, ts);
    RemoveAbsentTokens(rs, ts, first);
    RemoveCoveredTokens(added, ts);
    assert rs + [] == rs;
  }

  /** Mounting the toolbar and unmounting it leaves the listener table as
      it was. */
  method MountThenUnmountToolbar(editor: Editor)
    requires editor.Valid()
    modifies editor
    ensures editor.Valid()
    ensures editor.registrations == old(editor.registrations)
    ensures editor.editable == old(editor.editable)
  {
    ghost var before := editor.registrations;
    ghost var first := editor.nextToken;
    var cleanup := RegisterToolbar(editor);
    MergedCleanup(editor, cleanup);
    ToolbarCleanupRestores(before, first);
  }
}
