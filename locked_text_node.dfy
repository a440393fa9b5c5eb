/**
 * `LockedTextNode`: a text node subclass whose formatting and removal
 * entry points refuse, whose capability queries all answer `false`, and
 * whose `clone` yields another locked text node with the same text and key.
 *
 * Nodes are values here: no method of the class writes a field, so a node
 * is its fields and a "call" is a function from the node to what the call
 * returns and what the node is afterwards.
 */
module LockedTextNode {

  /** Node keys, which Lexical hands out as strings. */
  type NodeKey = string

  /** Which class a text node belongs to: Lexical's own `TextNode` or the
      `LockedTextNode` subclass. */
  datatype TextNodeClass = PlainText | LockedText

  /** The fields of a text node other than its text and key, which a
      freshly constructed node gets from the `TextNode` constructor. */
  datatype TextAttrs = TextAttrs(format: nat, style: string, detail: nat, mode: TextMode)

  datatype TextMode = Normal | Token | Segmented

  /** What `new TextNode(text, key)` starts with: format 0, empty style,
      detail 0, normal mode. */
  const FRESH_ATTRS: TextAttrs := TextAttrs(0, "", 0, Normal)

  datatype TextNode = TextNode(cls: TextNodeClass, text: string, key: NodeKey, attrs: TextAttrs)

  /** `getType()` of each class. */
  function GetType(n: TextNode): (t: string)
    ensures t == "locked-text" <==> n.cls == LockedText
    ensures t == "text" <==> n.cls == PlainText
  {
    match n.cls
    case PlainText => "text"
    case LockedText => "locked-text"
  }

  /** `LockedTextNode.clone(node)`: `new LockedTextNode(node.__text,
      node.__key)`. Only the text and the key are carried over; the other
      fields are those of a fresh node, and the class is the locked one
      whatever the class of `node`. */
  function Clone(n: TextNode): (c: TextNode)
    ensures c.cls == LockedText && GetType(c) == "locked-text"
    ensures c.text == n.text && c.key == n.key
    ensures c.attrs == FRESH_ATTRS
  {
    TextNode(LockedText, n.text, n.key, FRESH_ATTRS)
  }

  /** `$createLockedTextNode(text)`; `key` is the fresh key Lexical
      generates when the constructor gets none. */
  function CreateLockedTextNode(text: string, key: NodeKey): (n: TextNode)
    ensures n.cls == LockedText && GetType(n) == "locked-text"
    ensures n.text == text && n.key == key && n.attrs == FRESH_ATTRS
  {
    TextNode(LockedText, text, key, FRESH_ATTRS)
  }

  /** The mutators the class overrides. */
  datatype Mutator = SetFormat(format: nat) | Format | Remove

  /** What such a call returns: the receiver itself, or `false`. */
  datatype Reply = ReturnsReceiver | ReturnsFalse

  /** A call on a locked text node: `setFormat` and `format` return `this`,
      `remove` returns `false`; none of them writes a field. */
  function CallLocked(n: TextNode, m: Mutator): (r: (TextNode, Reply))
    requires n.cls == LockedText
    ensures r.0 == n
    ensures r.1 == ReturnsFalse <==> m.Remove?
  {
    match m
    case SetFormat(_) => (n, ReturnsReceiver)
    case Format => (n, ReturnsReceiver)
    case Remove => (n, ReturnsFalse)
  }

  /** The capability queries the class overrides. */
  datatype Query = IsEditable | CanInsertTextBefore | CanInsertTextAfter | CanBeEmpty | UpdateDom

  /** The answer a node gives to a query; for a plain text node that is
      Lexical's own answer, `plain`. */
  function Answer(n: TextNode, q: Query, plain: (TextNode, Query) -> bool): (a: bool)
    ensures n.cls == LockedText ==> !a
    ensures n.cls == PlainText ==> a == plain(n, q)
  {
    if n.cls == LockedText then false else plain(n, q)
  }

  /** The node after a call; for a plain text node the change is whatever
      Lexical's own method does, `plain`. */
  function Step(n: TextNode, m: Mutator, plain: (TextNode, Mutator) -> TextNode): TextNode
  {
    if n.cls == LockedText then CallLocked(n, m).0 else plain(n, m)
  }

  /** The node after a sequence of calls. */
  function ApplyAll(n: TextNode, ms: seq<Mutator>, plain: (TextNode, Mutator) -> TextNode): TextNode
    decreases |ms|
  {
    if ms == [] then n else ApplyAll(Step(n, ms[0], plain), ms[1..], plain)
  }

  /** A locked node answers `false` to every capability query, whatever the
      base class would have answered. */
  lemma LockedRefusesEveryQuery(n: TextNode, q: Query, plain: (TextNode, Query) -> bool)
    requires n.cls == LockedText
    ensures !Answer(n, q, plain)
  {
  }

  /** No sequence of formatting or removal calls changes a locked node. */
  lemma {:induction false} LockedNodeNeverChanges(n: TextNode, ms: seq<Mutator>, plain: (TextNode, Mutator) -> TextNode)
    requires n.cls == LockedText
    ensures ApplyAll(n, ms, plain) == n
  {
    if ms != [] {
      assert Step(n, ms[0], plain) == n;
      LockedNodeNeverChanges(n, ms[1..], plain);
    }
  }

  /** Cloning keeps the lock: whatever node is cloned, the clone refuses
      every query and survives every call sequence unchanged, so an undo or
      redo that restores a clone cannot bring back an editable copy. */
  lemma CloneStaysLocked(n: TextNode, ms: seq<Mutator>, q: Query,
                         plainStep: (TextNode, Mutator) -> TextNode, plainAnswer: (TextNode, Query) -> bool)
    ensures ApplyAll(Clone(n), ms, plainStep) == Clone(n)
    ensures !Answer(Clone(n), q, plainAnswer)
    ensures GetType(Clone(n)) == "locked-text" != GetType(n.(cls := PlainText))
  {
    LockedNodeNeverChanges(Clone(n), ms, plainStep);
  }

  /** Cloning a clone gives the same node, and the clone depends only on
      the text and the key of what is cloned. */
  lemma {:induction false} CloneIdempotent(n: TextNode, m: TextNode)
    ensures Clone(Clone(n)) == Clone(n)
    ensures Clone(n) == Clone(m) <==> n.text == m.text && n.key == m.key
  {
  }

  /** Cloning a freshly created locked node reproduces it exactly. */
  lemma CloneOfCreated(text: string, key: NodeKey)
    ensures Clone(CreateLockedTextNode(text, key)) == CreateLockedTextNode(text, key)
  {
  }
}
