/**
 * The parts of the Lexical editor framework (and of the browser) that the
 * application code touches, reduced to what the application observes:
 * JavaScript values and their truthiness, a selection as a sequence of
 * selected nodes, DOM events that can be cancelled, and the editor's table
 * of registered listeners with its unregister tokens.
 *
 * Everything Lexical computes on its own (which nodes a selection covers,
 * a node's latest version, a selection's format bits, dispatch order) is
 * an input to the model, never something it derives.
 */
module Lexical {

  datatype Option<T> = None | Some(value: T)

  /** The scalar JavaScript values that flags and JSON fields can hold. */
  datatype JsValue = Undefined | Null | Bool(b: bool) | Number(n: int) | Str(s: string)

  /** JavaScript truthiness, as used by `if (x && y)`. */
  predicate Truthy(v: JsValue)
  {
    match v
    case Bool(b) => b
    case Number(n) => n != 0
    case Str(s) => s != ""
    case _ => false
  }

  /** Strict comparison `v === true`. */
  predicate IsStrictTrue(v: JsValue)
  {
    v == Bool(true)
  }

  /** The two properties of a node's latest version that the editor probes
      by name: `__locked` and `locked`. */
  datatype NodeProps = NodeProps(underscoreLocked: JsValue, locked: JsValue)

  /** A node returned by `selection.getNodes()`: a text node (for which
      `$isTextNode` holds and whose `getTextContent()` is `text`) or any
      other node. `latest` is what `getLatest()` returns for it. */
  datatype SelectedNode =
    | Text(text: string, latest: NodeProps)
    | Element(latest: NodeProps)

  /** The text formats the toolbar reads and dispatches. */
  datatype TextFormatType = Bold | Italic | Underline | Strikethrough

  /** The alignments the toolbar dispatches. */
  datatype ElementFormatType = Left | Center | Right | Justify

  /** The result of `$getSelection()`: a range selection (covering `nodes`,
      with `hasFormat(f)` true exactly for `f in formats`), a node or table
      selection, or `null`. */
  datatype Selection =
    | Range(nodes: seq<SelectedNode>, formats: set<TextFormatType>)
    | NonRange
    | NoSelection

  predicate HasFormat(sel: Selection, f: TextFormatType)
    requires sel.Range?
  {
    f in sel.formats
  }

  /** The commands registered or dispatched by the application. */
  datatype CommandType =
    | KeyDown | Paste | FormatText | Undo | Redo | FormatElement
    | SelectionChange | CanUndo | CanRedo

  /** Lexical's `COMMAND_PRIORITY_CRITICAL`, the highest listener priority. */
  const COMMAND_PRIORITY_CRITICAL: nat := 4

  /** Who installed a listener: the locked-content guard (with the list it
      closes over) or the toolbar. */
  datatype Handler = LockGuard(lockedTexts: seq<string>) | ToolbarHandler

  datatype ListenerKind = CommandListener(command: CommandType, priority: nat) | UpdateListener

  /** One entry of the editor's listener table; `token` identifies the
      unregister function `registerCommand` handed back for it. */
  datatype Registration = Registration(token: nat, kind: ListenerKind, handler: Handler)

  /** The table left after calling the unregister functions for `ts`. */
  function RemoveTokens(rs: seq<Registration>, ts: seq<nat>): (r: seq<Registration>)
    ensures |r| <= |rs|
  {
    if rs == [] then []
    else if rs[0].token in ts then RemoveTokens(rs[1..], ts)
    else [rs[0]] + RemoveTokens(rs[1..], ts)
  }

  /** Tokens handed out before `bound`. */
  ghost predicate TokensBelow(rs: seq<Registration>, bound: nat)
  {
    forall i :: 0 <= i < |rs| ==> rs[i].token < bound
  }

  lemma {:induction false} RemoveTokensAppend(a: seq<Registration>, b: seq<Registration>, ts: seq<nat>)
    ensures RemoveTokens(a + b, ts) == RemoveTokens(a, ts) + RemoveTokens(b, ts)
  {
    if a == [] {
      assert a + b == b;
    } else {
      assert (a + b)[0] == a[0] && (a + b)[1..] == a[1..] + b;
      RemoveTokensAppend(a[1..], b, ts);
    }
  }

  lemma {:induction false} RemoveTokensTwice(rs: seq<Registration>, s: seq<nat>, t: seq<nat>)
    ensures RemoveTokens(RemoveTokens(rs, s), t) == RemoveTokens(rs, s + t)
  {
    if rs != [] {
      RemoveTokensTwice(rs[1..], s, t);
    }
  }

  /** An entry survives unregistering `ts` exactly when its token is not in `ts`. */
  lemma {:induction false} RemoveTokensMembership(rs: seq<Registration>, ts: seq<nat>, x: Registration)
    ensures x in RemoveTokens(rs, ts) <==> x in rs && x.token !in ts
  {
    if rs != [] {
      RemoveTokensMembership(rs[1..], ts, x);
      assert rs == [rs[0]] + rs[1..];
    }
  }

  /** Unregistering keeps every remaining token below the bound. */
  lemma {:induction false} RemoveTokensBelow(rs: seq<Registration>, ts: seq<nat>, bound: nat)
    requires TokensBelow(rs, bound)
    ensures TokensBelow(RemoveTokens(rs, ts), bound)
  {
    var r := RemoveTokens(rs, ts);
    forall i | 0 <= i < |r| ensures r[i].token < bound {
      RemoveTokensMembership(rs, ts, r[i]);
      var j :| 0 <= j < |rs| && rs[j] == r[i];
    }
  }

  /** Unregistering every token of the table empties it. */
  lemma {:induction false} RemoveCoveredTokens(rs: seq<Registration>, ts: seq<nat>)
    requires forall i :: 0 <= i < |rs| ==> rs[i].token in ts
    ensures RemoveTokens(rs, ts) == []
  {
    if rs != [] {
      RemoveCoveredTokens(rs[1..], ts);
    }
  }

  /** Unregistering tokens that none of the entries carries changes nothing. */
  lemma {:induction false} RemoveAbsentTokens(rs: seq<Registration>, ts: seq<nat>, bound: nat)
    requires TokensBelow(rs, bound)
    requires forall t :: t in ts ==> t >= bound
    ensures RemoveTokens(rs, ts) == rs
  {
    if rs != [] {
      assert rs[0].token < bound;
      RemoveAbsentTokens(rs[1..], ts, bound);
    }
  }

  /** Only which tokens are unregistered matters, not their order or
      repetitions. */
  lemma {:induction false} RemoveSameTokens(rs: seq<Registration>, s: seq<nat>, t: seq<nat>)
    requires forall x :: x in s <==> x in t
    ensures RemoveTokens(rs, s) == RemoveTokens(rs, t)
  {
    if rs != [] {
      RemoveSameTokens(rs[1..], s, t);
    }
  }

  /** The part of a `LexicalEditor` the application uses: its editable flag
      and its listener table. */
  class Editor {
    var editable: bool
    var registrations: seq<Registration>
    var nextToken: nat

    ghost predicate Valid()
      reads this
    {
      TokensBelow(registrations, nextToken)
    }

    constructor (editable: bool)
      ensures Valid()
      ensures this.editable == editable && registrations == []
    {
      this.editable := editable;
      registrations := [];
      nextToken := 0;
    }

    /** `editor.registerCommand(command, listener, priority)`. */
    method RegisterCommand(command: CommandType, handler: Handler, priority: nat) returns (token: nat)
      requires Valid()
      modifies this
      ensures Valid()
      ensures token == old(nextToken) && nextToken == token + 1
      ensures registrations == old(registrations) + [Registration(token, CommandListener(command, priority), handler)]
      ensures editable == old(editable)
    {
      token := nextToken;
      registrations := registrations + [Registration(token, CommandListener(command, priority), handler)];
      nextToken := nextToken + 1;
    }

    /** `editor.registerUpdateListener(listener)`. */
    method RegisterUpdateListener(handler: Handler) returns (token: nat)
      requires Valid()
      modifies this
      ensures Valid()
      ensures token == old(nextToken) && nextToken == token + 1
      ensures registrations == old(registrations) + [Registration(token, UpdateListener, handler)]
      ensures editable == old(editable)
    {
      token := nextToken;
      registrations := registrations + [Registration(token, UpdateListener, handler)];
      nextToken := nextToken + 1;
    }

    /** Calling the unregister function that came with `token`; calling it
        again has no further effect. */
    method Unregister(token: nat)
      requires Valid()
      modifies this
      ensures Valid()
      ensures registrations == RemoveTokens(old(registrations), [token])
      ensures nextToken == old(nextToken) && editable == old(editable)
    {
      RemoveTokensBelow(registrations, [token], nextToken);
      registrations := RemoveTokens(registrations, [token]);
    }

    /** `editor.setEditable(b)`. */
    method SetEditable(b: bool)
      modifies this
      ensures editable == b
      ensures registrations == old(registrations) && nextToken == old(nextToken)
    {
      editable := b;
    }
  }

  /** A cancelable DOM event (the keyboard or clipboard event carried by
      KEY_DOWN_COMMAND and PASTE_COMMAND). */
  class DomEvent {
    var defaultPrevented: bool

    constructor ()
      ensures !defaultPrevented
    {
      defaultPrevented := false;
    }

    /** `event.preventDefault()`. */
    method PreventDefault()
      modifies this
      ensures defaultPrevented
    {
      defaultPrevented := true;
    }
  }

  /** The function `mergeRegister(...)` returns, called with the tokens of
      the unregister functions it merged: they are called last to first. */
  method MergedCleanup(editor: Editor, tokens: seq<nat>)
    requires editor.Valid()
    modifies editor
    ensures editor.Valid()
    ensures editor.registrations == RemoveTokens(old(editor.registrations), tokens)
    ensures editor.nextToken == old(editor.nextToken) && editor.editable == old(editor.editable)
  {
    var i := |tokens|;
    RemoveAbsentTokens(editor.registrations, tokens[i..], editor.nextToken);
    while i > 0
      invariant 0 <= i <= |tokens|
      invariant editor.Valid()
      invariant editor.registrations == RemoveTokens(old(editor.registrations), tokens[i..])
      invariant editor.nextToken == old(editor.nextToken) && editor.editable == old(editor.editable)
    {
      RemoveTokensTwice(old(editor.registrations), tokens[i..], [tokens[i - 1]]);
      editor.Unregister(tokens[i - 1]);
      assert tokens[i - 1..] == [tokens[i - 1]] + tokens[i..];
      RemoveSameTokens(old(editor.registrations), tokens[i..] + [tokens[i - 1]], tokens[i - 1..]);
      i := i - 1;
    }
  }
}
