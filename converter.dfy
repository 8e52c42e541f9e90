/**
 * `packages/lwdita-xdita/converter.ts`: building a document tree from the events of an XML
 * parser, and the choice of indentation settings with which a tree is written back out.
 */
module Converter {
  import opened Js
  import XditaSerialization

  /** A start tag as the parser reports it. */
  datatype SaxTag = SaxTag(name: string, attributes: PropertyBag, isSelfClosing: bool)

  /** The parser callbacks the builder registers, in the order the parser fires them; `end` follows the last. */
  datatype Event = TextEvent(text: string) | OpenTag(tag: SaxTag) | CloseTag | ErrorEvent(error: string)

  /** What a created node is: the document root, a text node or an element. */
  datatype NodeData = DocumentData | TextData(content: BasicValue) | ElementData(nodeName: string, props: PropertyBag)

  /** A node of the tree under construction; its children are referred to by their position in the arena. */
  datatype ArenaNode = ArenaNode(data: NodeData, children: seq<nat>)

  /**
   * The node-creating and node-adding code the handlers call: `createNode` on a text or a tag
   * (`None` when it throws) and `BaseNode.add` on the parent's data, the data of the children
   * it already has, the new child and `abortOnError` (`false` when it throws).
   */
  datatype Hooks = Hooks(
    nodeFromText: string -> Option<NodeData>,
    nodeFromTag: SaxTag -> Option<NodeData>,
    addSucceeds: (NodeData, seq<NodeData>, NodeData, bool) -> bool)

  /**
   * The handlers' shared state: the nodes created so far (the document is node 0), the
   * stack of open nodes by position, the collected errors, and whether a handler has thrown
   * (which ends parsing and rejects the promise with that exception).
   */
  datatype BuilderState = BuilderState(nodes: seq<ArenaNode>, stack: seq<nat>, errors: seq<string>, crashed: bool)

  /** `doc`, `stack = [doc]`, `errors = []`. */
  function Init(): BuilderState {
    BuilderState([ArenaNode(DocumentData, [])], [0], [], false)
  }

  /**
   * Node 0 is the document; every child comes after its parent in the arena; the stack holds
   * existing nodes in increasing order.
   */
  predicate WellFormed(s: BuilderState) {
    && |s.nodes| >= 1
    && s.nodes[0].data == DocumentData
    && (forall i, k :: 0 <= i < |s.nodes| && 0 <= k < |s.nodes[i].children| ==> i < s.nodes[i].children[k] < |s.nodes|)
    && (forall k :: 0 <= k < |s.stack| ==> s.stack[k] < |s.nodes|)
    && (forall j, k :: 0 <= j < k < |s.stack| ==> s.stack[j] < s.stack[k])
  }

  function ChildData(nodes: seq<ArenaNode>, ids: seq<nat>): seq<NodeData>
    requires forall k :: 0 <= k < |ids| ==> ids[k] < |nodes|
  {
    seq(|ids|, k requires 0 <= k < |ids| => nodes[ids[k]].data)
  }

  /** `stack[stack.length - 1].add(node, abortOnError)` completes without throwing. */
  predicate AddSucceeds(s: BuilderState, d: NodeData, abortOnError: bool, hooks: Hooks)
    requires WellFormed(s) && s.stack != []
  {
    var parent := s.nodes[s.stack[|s.stack| - 1]];
    hooks.addSucceeds(parent.data, ChildData(s.nodes, parent.children), d, abortOnError)
  }

  /** The new node is created last and becomes the last child of the stack top. */
  function Attach(s: BuilderState, d: NodeData): (r: BuilderState)
    requires WellFormed(s) && s.stack != []
  {
    var p := s.stack[|s.stack| - 1];
    s.(nodes := s.nodes[p := s.nodes[p].(children := s.nodes[p].children + [|s.nodes|])] + [ArenaNode(d, [])])
  }

  /** One handler run. */
  function Step(s: BuilderState, e: Event, abortOnError: bool, hooks: Hooks): BuilderState
    requires WellFormed(s)
  {
    if s.crashed then s
    else
      match e
      case TextEvent(t) =>
        var node := hooks.nodeFromText(t);
        if node.None? || s.stack == [] || !AddSucceeds(s, node.value, abortOnError, hooks) then s.(crashed := true)
        else Attach(s, node.value)
      case OpenTag(tag) =>
        var node := hooks.nodeFromTag(tag);
        if node.None? || s.stack == [] || !AddSucceeds(s, node.value, abortOnError, hooks) then s
        else
          var r := Attach(s, node.value);
          r.(stack := r.stack + [|s.nodes|])
      case CloseTag => s.(stack := if s.stack == [] then [] else s.stack[..|s.stack| - 1])
      case ErrorEvent(err) => s.(errors := s.errors + [err])
  }

  lemma StepPreservesWellFormed(s: BuilderState, e: Event, abortOnError: bool, hooks: Hooks)
    requires WellFormed(s)
    ensures WellFormed(Step(s, e, abortOnError, hooks))
  {
    if !s.crashed && (e.TextEvent? || e.OpenTag?) && s.stack != [] {
      var node := if e.TextEvent? then hooks.nodeFromText(e.text) else hooks.nodeFromTag(e.tag);
      if node.Some? && AddSucceeds(s, node.value, abortOnError, hooks) {
        AttachPreservesWellFormed(s, node.value);
      }
    }
  }

  lemma AttachPreservesWellFormed(s: BuilderState, d: NodeData)
    requires WellFormed(s) && s.stack != []
    ensures WellFormed(Attach(s, d))
    ensures var r := Attach(s, d); WellFormed(r.(stack := r.stack + [|s.nodes|]))
  {
    var r := Attach(s, d);
    var p := s.stack[|s.stack| - 1];
    assert |r.nodes| == |s.nodes| + 1;
    forall i, k | 0 <= i < |r.nodes| && 0 <= k < |r.nodes[i].children|
      ensures i < r.nodes[i].children[k] < |r.nodes|
    {
      if i == p && k == |s.nodes[p].children| {
        assert r.nodes[i].children[k] == |s.nodes|;
      } else if i < |s.nodes| {
        assert r.nodes[i].children[k] == s.nodes[i].children[k];
      }
    }
  }

  /** What `Attach` changes: the stack top gains the new node as its last child, which is a new, childless last node. */
  lemma AttachFrame(s: BuilderState, d: NodeData)
    requires WellFormed(s) && s.stack != []
    ensures var r, p := Attach(s, d), s.stack[|s.stack| - 1];
      && |r.nodes| == |s.nodes| + 1
      && r.nodes[p].data == s.nodes[p].data
      && r.nodes[p].children == s.nodes[p].children + [|s.nodes|]
      && r.nodes[|s.nodes|] == ArenaNode(d, [])
      && (forall i :: 0 <= i < |s.nodes| && i != p ==> r.nodes[i] == s.nodes[i])
      && r.stack == s.stack && r.errors == s.errors && r.crashed == s.crashed
  {
  }

  /** The stack is a path down the tree: it starts at the document and each entry is a child of the one before. */
  predicate StackIsPath(s: BuilderState) {
    && (s.stack != [] ==> s.stack[0] == 0)
    && forall k :: 0 <= k < |s.stack| - 1 ==> s.stack[k] < |s.nodes| && s.stack[k + 1] in s.nodes[s.stack[k]].children
  }

  /** No node occurs twice among all the children lists. */
  predicate UniqueParents(s: BuilderState) {
    forall i, k, j, l ::
      (&& 0 <= i < |s.nodes| && 0 <= k < |s.nodes[i].children| && 0 <= j < |s.nodes| && 0 <= l < |s.nodes[j].children|
       && s.nodes[i].children[k] == s.nodes[j].children[l])
      ==> i == j && k == l
  }

  predicate HasParent(nodes: seq<ArenaNode>, n: nat) {
    exists i, k :: 0 <= i < |nodes| && 0 <= k < |nodes[i].children| && nodes[i].children[k] == n
  }

  /** Every node but the document is the child of some node. */
  predicate AllAttached(s: BuilderState) {
    forall n :: 0 < n < |s.nodes| ==> HasParent(s.nodes, n)
  }

  /**
   * The arena is a tree rooted at the document: every other node occurs in exactly one
   * children list, once, and the stack of open nodes is a path from the root.
   */
  predicate Tree(s: BuilderState) {
    WellFormed(s) && StackIsPath(s) && UniqueParents(s) && AllAttached(s)
  }

  /** A child slot after `Attach` is an old slot with its old entry, or the new last slot of the stack top. */
  lemma AttachSlot(s: BuilderState, d: NodeData, i: nat, k: nat)
    requires WellFormed(s) && s.stack != []
    requires i < |Attach(s, d).nodes| && k < |Attach(s, d).nodes[i].children|
    ensures var r, p := Attach(s, d), s.stack[|s.stack| - 1];
      || (i < |s.nodes| && k < |s.nodes[i].children| && r.nodes[i].children[k] == s.nodes[i].children[k] < |s.nodes|)
      || (i == p && k == |s.nodes[p].children| && r.nodes[i].children[k] == |s.nodes|)
  {
    AttachFrame(s, d);
  }

  lemma AttachKeepsUnique(s: BuilderState, d: NodeData)
    requires Tree(s) && s.stack != []
    ensures UniqueParents(Attach(s, d))
  {
    var r := Attach(s, d);
    forall i, k, j, l |
      && 0 <= i < |r.nodes| && 0 <= k < |r.nodes[i].children| && 0 <= j < |r.nodes| && 0 <= l < |r.nodes[j].children|
      && r.nodes[i].children[k] == r.nodes[j].children[l]
      ensures i == j && k == l
    {
      AttachSlot(s, d, i, k);
      AttachSlot(s, d, j, l);
    }
  }

  lemma AttachKeepsAttached(s: BuilderState, d: NodeData)
    requires Tree(s) && s.stack != []
    ensures AllAttached(Attach(s, d))
  {
    var r, p, n := Attach(s, d), s.stack[|s.stack| - 1], |s.nodes|;
    AttachFrame(s, d);
    forall m | 0 < m < |r.nodes| ensures HasParent(r.nodes, m) {
      if m == n {
        assert r.nodes[p].children[|s.nodes[p].children|] == m;
      } else {
        assert HasParent(s.nodes, m);
        var i, k :| 0 <= i < |s.nodes| && 0 <= k < |s.nodes[i].children| && s.nodes[i].children[k] == m;
        assert r.nodes[i].children[k] == m;
      }
    }
  }

  /** After `Attach` the stack is still a path, and stays one with the new node pushed. */
  lemma AttachKeepsPath(s: BuilderState, d: NodeData)
    requires Tree(s) && s.stack != []
    ensures StackIsPath(Attach(s, d))
    ensures var r := Attach(s, d); StackIsPath(r.(stack := r.stack + [|s.nodes|]))
  {
    var r, p := Attach(s, d), s.stack[|s.stack| - 1];
    AttachFrame(s, d);
    forall k | 0 <= k < |s.stack| - 1 ensures s.stack[k + 1] in r.nodes[s.stack[k]].children {
      assert s.stack[k + 1] in s.nodes[s.stack[k]].children;
    }
    var pushed := r.stack + [|s.nodes|];
    assert |s.nodes| in r.nodes[p].children;
    forall k | 0 <= k < |pushed| - 1 ensures pushed[k] < |r.nodes| && pushed[k + 1] in r.nodes[pushed[k]].children {
      if k < |s.stack| - 1 {
        assert pushed[k] == s.stack[k] && pushed[k + 1] == s.stack[k + 1];
      }
    }
  }

  /** Every handler keeps the arena a tree rooted at the document with the stack a path from the root. */
  lemma StepPreservesTree(s: BuilderState, e: Event, abortOnError: bool, hooks: Hooks)
    requires Tree(s)
    ensures Tree(Step(s, e, abortOnError, hooks))
  {
    var r := Step(s, e, abortOnError, hooks);
    if !s.crashed && (e.TextEvent? || e.OpenTag?) && s.stack != [] {
      var node := if e.TextEvent? then hooks.nodeFromText(e.text) else hooks.nodeFromTag(e.tag);
      if node.Some? && AddSucceeds(s, node.value, abortOnError, hooks) {
        AttachKeepsTree(s, node.value);
      } else {
        SameShapeTree(s, r);
      }
    } else if !s.crashed && e.CloseTag? && s.stack != [] {
      StepPreservesWellFormed(s, e, abortOnError, hooks);
      PopKeepsPath(s);
    } else {
      SameShapeTree(s, r);
    }
  }

  /** Only the nodes and the stack matter to the tree invariant. */
  lemma SameShapeTree(s: BuilderState, r: BuilderState)
    requires Tree(s) && r.nodes == s.nodes && r.stack == s.stack
    ensures Tree(r)
  {
  }

  /** Adding a node under the stack top keeps a tree, with or without pushing the new node. */
  lemma AttachKeepsTree(s: BuilderState, d: NodeData)
    requires Tree(s) && s.stack != []
    ensures Tree(Attach(s, d))
    ensures var r := Attach(s, d); Tree(r.(stack := r.stack + [|s.nodes|]))
  {
    AttachPreservesWellFormed(s, d);
    AttachKeepsUnique(s, d);
    AttachKeepsAttached(s, d);
    AttachKeepsPath(s, d);
  }

  /** Dropping the innermost entry leaves a path from the root. */
  lemma PopKeepsPath(s: BuilderState)
    requires StackIsPath(s) && s.stack != []
    ensures StackIsPath(s.(stack := s.stack[..|s.stack| - 1]))
  {
    var popped := s.stack[..|s.stack| - 1];
    forall k | 0 <= k < |popped| - 1 ensures popped[k] < |s.nodes| && popped[k + 1] in s.nodes[popped[k]].children {
      assert popped[k] == s.stack[k] && popped[k + 1] == s.stack[k + 1];
    }
  }

  /** The handlers run over a sequence of events. */
  function Run(events: seq<Event>, abortOnError: bool, hooks: Hooks): (r: BuilderState)
    ensures WellFormed(r)
  {
    if events == [] then Init()
    else
      var before := Run(events[..|events| - 1], abortOnError, hooks);
      StepPreservesWellFormed(before, events[|events| - 1], abortOnError, hooks);
      Step(before, events[|events| - 1], abortOnError, hooks)
  }

  /** The state after any event sequence is a tree rooted at the document, with the stack a path from the root. */
  lemma {:induction false} RunIsTree(events: seq<Event>, abortOnError: bool, hooks: Hooks)
    ensures Tree(Run(events, abortOnError, hooks))
  {
    if events == [] {
      assert Init().nodes[0].children == [];
    } else {
      RunIsTree(events[..|events| - 1], abortOnError, hooks);
      StepPreservesTree(Run(events[..|events| - 1], abortOnError, hooks), events[|events| - 1], abortOnError, hooks);
    }
  }

  /** The tree rooted at a node, children in the order they were added. */
  function ToTree(nodes: seq<ArenaNode>, id: nat): XditaSerialization.Node
    requires forall i, k :: 0 <= i < |nodes| && 0 <= k < |nodes[i].children| ==> i < nodes[i].children[k] < |nodes|
    requires id < |nodes|
    decreases |nodes| - id
  {
    var ch := nodes[id].children;
    var kids := seq(|ch|, k requires 0 <= k < |ch| => ToTree(nodes, ch[k]));
    match nodes[id].data
    case DocumentData => XditaSerialization.Document(kids)
    case TextData(content) => XditaSerialization.Text(content)
    case ElementData(name, props) => XditaSerialization.Element(name, props, kids)
  }

  /** How the promise settles: with the document, with the error list, or with a handler's exception. */
  datatype Outcome = Resolved(doc: XditaSerialization.Node) | Rejected(errors: seq<string>) | Threw

  /** The `end` handler: reject iff there are errors and `abortOnError` is set. */
  function Finish(s: BuilderState, abortOnError: bool): Outcome
    requires WellFormed(s)
  {
    if s.crashed then Threw
    else if |s.errors| > 0 && abortOnError then Rejected(s.errors)
    else Resolved(ToTree(s.nodes, 0))
  }

  /** The parser callbacks of `xditaToAst`, over the state they share. */
  class TreeBuilder {
    var nodes: seq<ArenaNode>
    var stack: seq<nat>
    var errors: seq<string>
    var crashed: bool
    const abortOnError: bool
    const hooks: Hooks

    function State(): BuilderState
      reads this
    {
      BuilderState(nodes, stack, errors, crashed)
    }

    constructor(abortOnError: bool, hooks: Hooks)
      ensures State() == Init()
      ensures this.abortOnError == abortOnError && this.hooks == hooks
    {
      nodes := [ArenaNode(DocumentData, [])];
      stack := [0];
      errors := [];
      crashed := false;
      this.abortOnError := abortOnError;
      this.hooks := hooks;
    }

    /** The `end` handler: reject with the errors, or resolve with the document built from node 0. */
    method Settle() returns (outcome: Outcome)
      requires WellFormed(State())
      ensures outcome == Finish(State(), abortOnError)
    {
      if crashed {
        outcome := Threw;
      } else if |errors| > 0 && abortOnError {
        outcome := Rejected(errors);
      } else {
        outcome := Resolved(ToTree(nodes, 0));
      }
    }

    method AddToTop(d: NodeData) returns (ok: bool)
      requires WellFormed(State()) && stack != []
      modifies this
      ensures ok == AddSucceeds(old(State()), d, abortOnError, hooks)
      ensures ok ==> State() == Attach(old(State()), d)
      ensures !ok ==> State() == old(State())
    {
      var p := stack[|stack| - 1];
      ok := hooks.addSucceeds(nodes[p].data, ChildData(nodes, nodes[p].children), d, abortOnError);
      if ok {
        nodes := nodes[p := nodes[p].(children := nodes[p].children + [|nodes|])] + [ArenaNode(d, [])];
      }
    }

    /** `text`: create a node and add it to the stack top; an exception escapes the handler. */
    method OnText(text: string)
      requires WellFormed(State())
      modifies this
      ensures State() == Step(old(State()), TextEvent(text), abortOnError, hooks)
    {
      if crashed {
        return;
      }
      var node := hooks.nodeFromText(text);
      if node.None? || stack == [] {
        crashed := true;
        return;
      }
      var ok := AddToTop(node.value);
      if !ok {
        crashed := true;
      }
    }

    /** `opentag`: create, add to the stack top and push; an exception is caught and the tag skipped. */
    method OnOpenTag(tag: SaxTag)
      requires WellFormed(State())
      modifies this
      ensures State() == Step(old(State()), OpenTag(tag), abortOnError, hooks)
    {
      if crashed {
        return;
      }
      var obj := hooks.nodeFromTag(tag);
      if obj.None? || stack == [] {
        return;
      }
      var id := |nodes|;
      var ok := AddToTop(obj.value);
      if ok {
        stack := stack + [id];
      }
    }

    /** `closetag`: pop, whatever is on top. */
    method OnCloseTag()
      requires WellFormed(State())
      modifies this
      ensures State() == Step(old(State()), CloseTag, abortOnError, hooks)
    {
      if crashed {
        return;
      }
      if stack != [] {
        stack := stack[..|stack| - 1];
      }
    }

    /** `error`: record the error and carry on. */
    method OnError(e: string)
      requires WellFormed(State())
      modifies this
      ensures State() == Step(old(State()), ErrorEvent(e), abortOnError, hooks)
    {
      if crashed {
        return;
      }
      errors := errors + [e];
    }
  }

  /** The callback the parser fires for one event. */
  method Dispatch(builder: TreeBuilder, e: Event)
    requires WellFormed(builder.State())
    modifies builder
    ensures builder.State() == Step(old(builder.State()), e, builder.abortOnError, builder.hooks)
  {
    match e {
      case TextEvent(t) => builder.OnText(t);
      case OpenTag(tag) => builder.OnOpenTag(tag);
      case CloseTag => builder.OnCloseTag();
      case ErrorEvent(err) => builder.OnError(err);
    }
  }

  lemma RunPrefix(events: seq<Event>, i: nat, abortOnError: bool, hooks: Hooks, before: BuilderState, after: BuilderState)
    requires i < |events|
    requires before == Run(events[..i], abortOnError, hooks)
    requires after == Step(before, events[i], abortOnError, hooks)
    ensures after == Run(events[..i + 1], abortOnError, hooks)
  {
    RunSnoc(events[..i], events[i], abortOnError, hooks);
    assert events[..i] + [events[i]] == events[..i + 1];
  }

  /** Delivers the next event of the stream: the state becomes the run of one event more. */
  method Feed(builder: TreeBuilder, events: seq<Event>, i: nat)
    requires i < |events|
    requires builder.State() == Run(events[..i], builder.abortOnError, builder.hooks)
    modifies builder
    ensures builder.State() == Run(events[..i + 1], builder.abortOnError, builder.hooks)
  {
    ghost var before := builder.State();
    Dispatch(builder, events[i]);
    RunPrefix(events, i, builder.abortOnError, builder.hooks, before, builder.State());
  }

  /** `xditaToAst(xml, abortOnError)`, with the parser's events given in place of the XML text. */
  method XditaToAst(events: seq<Event>, hooks: Hooks, abortOnError: bool := true) returns (outcome: Outcome)
    ensures outcome == Finish(Run(events, abortOnError, hooks), abortOnError)
  {
    var builder := new TreeBuilder(abortOnError, hooks);
    WriteAll(builder, events);
    outcome := builder.Settle();
  }

  /** `parser.write(xml).close()`: every event, in order, is delivered to its handler. */
  method WriteAll(builder: TreeBuilder, events: seq<Event>)
    requires builder.State() == Init()
    modifies builder
    ensures builder.State() == Run(events, builder.abortOnError, builder.hooks)
  {
    var i := 0;
    assert events[..0] == [];
    while i < |events|
      invariant 0 <= i <= |events|
      invariant builder.State() == Run(events[..i], builder.abortOnError, builder.hooks)
    {
      Feed(builder, events, i);
      i := i + 1;
    }
    assert events[..|events|] == events;
  }

  /** The error events, in order. */
  function ErrorsOf(events: seq<Event>): seq<string> {
    if events == [] then []
    else ErrorsOf(events[..|events| - 1]) + (if events[|events| - 1].ErrorEvent? then [events[|events| - 1].error] else [])
  }

  /** Every `error` event is recorded, in order, and processing goes on after it (until a handler throws). */
  lemma {:induction false} ErrorsCollected(events: seq<Event>, abortOnError: bool, hooks: Hooks)
    ensures !Run(events, abortOnError, hooks).crashed ==> Run(events, abortOnError, hooks).errors == ErrorsOf(events)
  {
    if events != [] {
      ErrorsCollected(events[..|events| - 1], abortOnError, hooks);
    }
  }

  /**
   * The promise rejects with the errors exactly when some `error` event arrived,
   * `abortOnError` is set and no handler threw; otherwise without an exception it resolves
   * with the document built from node 0.
   */
  lemma OutcomeOfParse(events: seq<Event>, abortOnError: bool, hooks: Hooks)
    ensures var s, o := Run(events, abortOnError, hooks), Finish(Run(events, abortOnError, hooks), abortOnError);
      && (o.Rejected? <==> !s.crashed && abortOnError && ErrorsOf(events) != [])
      && (o.Rejected? ==> o.errors == ErrorsOf(events))
      && (o.Resolved? <==> !s.crashed && !(abortOnError && ErrorsOf(events) != []))
      && (o.Resolved? ==> o.doc.Document?)
  {
    ErrorsCollected(events, abortOnError, hooks);
  }

  /**
   * A `text` event adds one new, childless node as the last child of the stack top; no other
   * node, neither the stack nor the errors change.
   */
  lemma TextStep(s: BuilderState, t: string, abortOnError: bool, hooks: Hooks)
    requires WellFormed(s) && !s.crashed
    ensures var r := Step(s, TextEvent(t), abortOnError, hooks);
      !r.crashed ==>
        && s.stack != [] && r.stack == s.stack && r.errors == s.errors
        && |r.nodes| == |s.nodes| + 1
        && r.nodes[s.stack[|s.stack| - 1]].data == s.nodes[s.stack[|s.stack| - 1]].data
        && r.nodes[s.stack[|s.stack| - 1]].children == s.nodes[s.stack[|s.stack| - 1]].children + [|s.nodes|]
        && Some(r.nodes[|s.nodes|].data) == hooks.nodeFromText(t)
        && r.nodes[|s.nodes|].children == []
        && (forall i :: 0 <= i < |s.nodes| && i != s.stack[|s.stack| - 1] ==> r.nodes[i] == s.nodes[i])
    ensures var r := Step(s, TextEvent(t), abortOnError, hooks);
      r.crashed <==> hooks.nodeFromText(t).None? || s.stack == [] || !AddSucceeds(s, hooks.nodeFromText(t).value, abortOnError, hooks)
  {
    var node := hooks.nodeFromText(t);
    if node.Some? && s.stack != [] && AddSucceeds(s, node.value, abortOnError, hooks) {
      AttachFrame(s, node.value);
    }
  }

  /**
   * A successful `opentag` adds a new, childless node to the old stack top, changing no other
   * node, and pushes it: the stack grows by one and its new top is that node. A failed one
   * leaves the whole state, errors included, as it was.
   */
  lemma OpenTagStep(s: BuilderState, tag: SaxTag, abortOnError: bool, hooks: Hooks)
    requires WellFormed(s) && !s.crashed
    ensures var r, node := Step(s, OpenTag(tag), abortOnError, hooks), hooks.nodeFromTag(tag);
      if node.Some? && s.stack != [] && AddSucceeds(s, node.value, abortOnError, hooks) then
        && r.stack == s.stack + [|s.nodes|]
        && |r.nodes| == |s.nodes| + 1
        && r.nodes[|s.nodes|] == ArenaNode(node.value, [])
        && r.nodes[s.stack[|s.stack| - 1]].data == s.nodes[s.stack[|s.stack| - 1]].data
        && r.nodes[s.stack[|s.stack| - 1]].children == s.nodes[s.stack[|s.stack| - 1]].children + [|s.nodes|]
        && (forall i :: 0 <= i < |s.nodes| && i != s.stack[|s.stack| - 1] ==> r.nodes[i] == s.nodes[i])
        && r.errors == s.errors && !r.crashed
      else r == s
  {
    var node := hooks.nodeFromTag(tag);
    if node.Some? && s.stack != [] && AddSucceeds(s, node.value, abortOnError, hooks) {
      AttachFrame(s, node.value);
    }
  }

  /** A `closetag` pops exactly one entry, whichever node is on top. */
  lemma CloseTagStep(s: BuilderState, abortOnError: bool, hooks: Hooks)
    requires WellFormed(s) && !s.crashed && s.stack != []
    ensures var r := Step(s, CloseTag, abortOnError, hooks);
      r.stack == s.stack[..|s.stack| - 1] && r.nodes == s.nodes && r.errors == s.errors && !r.crashed
  {
  }

  /** Hooks under which every node can be created and added, except tags named `bad`. */
  function ExampleHooks(): Hooks {
    Hooks(
      (t: string) => Some(TextData(Str(t))),
      (tag: SaxTag) => if tag.name == "bad" then None else Some(ElementData(tag.name, tag.attributes)),
      (parent, siblings, child, abort) => true)
  }

  lemma RunSnoc(events: seq<Event>, e: Event, abortOnError: bool, hooks: Hooks)
    ensures Run(events + [e], abortOnError, hooks) == Step(Run(events, abortOnError, hooks), e, abortOnError, hooks)
  {
    assert (events + [e])[..|events|] == events;
  }

  function OpenP(): BuilderState {
    BuilderState([ArenaNode(DocumentData, [1]), ArenaNode(ElementData("p", []), [])], [0, 1], [], false)
  }

  function BadClosed(): BuilderState {
    BuilderState([ArenaNode(DocumentData, [1]), ArenaNode(ElementData("p", []), [])], [0], [], false)
  }

  function AllClosed(): BuilderState {
    BuilderState([ArenaNode(DocumentData, [1, 2]), ArenaNode(ElementData("p", []), []), ArenaNode(TextData(Str("x")), [])], [], [], false)
  }

  function WithText(): BuilderState {
    BuilderState([ArenaNode(DocumentData, [1, 2]), ArenaNode(ElementData("p", []), []), ArenaNode(TextData(Str("x")), [])], [0], [], false)
  }

  lemma ExampleOpenP()
    ensures Step(Init(), OpenTag(SaxTag("p", [], false)), true, ExampleHooks()) == OpenP()
  {
    var h := ExampleHooks();
    assert h.nodeFromTag(SaxTag("p", [], false)) == Some(ElementData("p", []));
    assert AddSucceeds(Init(), ElementData("p", []), true, h);
    assert Init().nodes[0].children + [|Init().nodes|] == [1];
    assert Init().nodes[0 := ArenaNode(DocumentData, [1])] == [ArenaNode(DocumentData, [1])];
    assert Attach(Init(), ElementData("p", [])).stack + [1] == [0, 1];
  }

  lemma ExampleSkipBad()
    ensures Step(OpenP(), OpenTag(SaxTag("bad", [], false)), true, ExampleHooks()) == OpenP()
  {
    assert ExampleHooks().nodeFromTag(SaxTag("bad", [], false)) == None;
  }

  lemma ExampleText()
    ensures Step(BadClosed(), TextEvent("x"), true, ExampleHooks()) == WithText()
  {
    var h, s := ExampleHooks(), BadClosed();
    assert h.nodeFromText("x") == Some(TextData(Str("x")));
    assert AddSucceeds(s, TextData(Str("x")), true, h);
    assert s.nodes[0].children + [|s.nodes|] == [1, 2];
    assert s.nodes[0 := ArenaNode(DocumentData, [1, 2])] == [ArenaNode(DocumentData, [1, 2]), ArenaNode(ElementData("p", []), [])];
  }

  /**
   * `<p><bad></bad>x</p>` with `bad` skipped: the close tag of `bad` pops `p`, so the text
   * lands in the document and not in `p`, and the close tag of `p` pops the document.
   */
  lemma SkippedOpenTagPopsParent()
    ensures ExampleEvents() == [OpenTag(SaxTag("p", [], false)), OpenTag(SaxTag("bad", [], false)), CloseTag,
                                TextEvent("x"), CloseTag]
    ensures var s := Run(ExampleEvents(), true, ExampleHooks());
      && s.stack == []
      && Finish(s, true) == Resolved(XditaSerialization.Document([
           XditaSerialization.Element("p", [], []), XditaSerialization.Text(Str("x"))]))
  {
    ExampleRun(ExampleEvents());
    ExampleTree();
  }

  function ExampleEvents(): seq<Event> {
    [OpenTag(SaxTag("p", [], false)), OpenTag(SaxTag("bad", [], false)), CloseTag, TextEvent("x"), CloseTag]
  }

  /** A `closetag` after a prefix of the events pops the state that prefix built. */
  lemma ClosePrefix(events: seq<Event>, i: nat, abortOnError: bool, hooks: Hooks, before: BuilderState, after: BuilderState)
    requires i < |events| && events[i] == CloseTag
    requires before == Run(events[..i], abortOnError, hooks) && !before.crashed && before.stack != []
    requires after == BuilderState(before.nodes, before.stack[..|before.stack| - 1], before.errors, false)
    ensures after == Run(events[..i + 1], abortOnError, hooks)
  {
    RunPrefix(events, i, abortOnError, hooks, before, Step(before, CloseTag, abortOnError, hooks));
  }

  lemma ExampleRun1(ev: seq<Event>)
    requires ev == ExampleEvents()
    ensures Run(ev[..1], true, ExampleHooks()) == OpenP()
  {
    assert ev[..0] == [] && ev[0] == OpenTag(SaxTag("p", [], false));
    ExampleOpenP();
    RunPrefix(ev, 0, true, ExampleHooks(), Init(), OpenP());
  }

  lemma ExampleRun2(ev: seq<Event>)
    requires ev == ExampleEvents()
    ensures Run(ev[..2], true, ExampleHooks()) == OpenP()
  {
    assert ev[1] == OpenTag(SaxTag("bad", [], false));
    ExampleRun1(ev);
    ExampleSkipBad();
    RunPrefix(ev, 1, true, ExampleHooks(), OpenP(), OpenP());
  }

  lemma ExampleRun3(ev: seq<Event>)
    requires ev == ExampleEvents()
    ensures Run(ev[..3], true, ExampleHooks()) == BadClosed()
  {
    assert ev[2] == CloseTag;
    ExampleRun2(ev);
    ClosePrefix(ev, 2, true, ExampleHooks(), OpenP(), BadClosed());
  }

  lemma ExampleRun4(ev: seq<Event>)
    requires ev == ExampleEvents()
    ensures Run(ev[..4], true, ExampleHooks()) == WithText()
  {
    assert ev[3] == TextEvent("x");
    ExampleRun3(ev);
    ExampleText();
    RunPrefix(ev, 3, true, ExampleHooks(), BadClosed(), WithText());
  }

  lemma ExampleRun(ev: seq<Event>)
    requires ev == ExampleEvents()
    ensures Run(ev, true, ExampleHooks()) == AllClosed()
  {
    assert ev[4] == CloseTag;
    ExampleRun4(ev);
    ClosePrefix(ev, 4, true, ExampleHooks(), WithText(), AllClosed());
    assert ev[..5] == ev;
  }

  lemma ExampleTree()
    ensures ToTree(WithText().nodes, 0) == XditaSerialization.Document([
      XditaSerialization.Element("p", [], []), XditaSerialization.Text(Str("x"))])
  {
    var nodes := WithText().nodes;
    assert ToTree(nodes, 1) == XditaSerialization.Element("p", [], []);
    assert ToTree(nodes, 2) == XditaSerialization.Text(Str("x"));
    var kids := seq(2, k requires 0 <= k < 2 => ToTree(nodes, [1, 2][k]));
    assert kids == [XditaSerialization.Element("p", [], []), XditaSerialization.Text(Str("x"))];
  }

  /** Once the document itself has been popped, a later text event throws and the promise rejects with it. */
  lemma TextAfterEmptyStackThrows()
    ensures Finish(Run([CloseTag, TextEvent("x")], true, ExampleHooks()), true) == Threw
  {
    var events := [CloseTag, TextEvent("x")];
    assert events[..1][..0] == [];
    assert events[..2] == events;
    assert Run(events[..1], true, ExampleHooks()).stack == [];
  }

  /** The indentation settings `serializeToXdita` passes to the serializer. */
  function SettingsLayout(indentationChar: Option<string>, tabSize: Option<nat>): XditaSerialization.Layout {
    if indentationChar == Some("\t") then XditaSerialization.Layout(true, "\t", 1)
    else if indentationChar.Some? && indentationChar.value != "" then
      XditaSerialization.Layout(true, indentationChar.value, if tabSize.Some? && tabSize.value != 0 then tabSize.value else 4)
    else XditaSerialization.Layout(false, " ", 4)
  }

  /**
   * `serializeToXdita(root, indentationChar, tabSize)`: a tab indents by one tab per level,
   * another non-empty string by `tabSize` copies of it (4 when absent or 0), and anything
   * else does not indent.
   */
  method SerializeToXdita(root: XditaSerialization.Node, indentationChar: Option<string>, tabSize: Option<nat>) returns (text: string)
    ensures text == XditaSerialization.StreamText(XditaSerialization.Serialized(SettingsLayout(indentationChar, tabSize), 0, root))
  {
    var outStream := new XditaSerialization.TextStream();
    var visitor: XditaSerialization.XditaSerializer;
    if indentationChar == Some("\t") {
      visitor := new XditaSerialization.XditaSerializer(outStream, true, "\t");
    } else if indentationChar.Some? && indentationChar.value != "" {
      var size := if tabSize.Some? && tabSize.value != 0 then tabSize.value else 4;
      visitor := new XditaSerialization.XditaSerializer(outStream, true, indentationChar.value, size);
    } else {
      visitor := new XditaSerialization.XditaSerializer(outStream, false);
    }
    assert visitor.Config() == SettingsLayout(indentationChar, tabSize);
    assert visitor.outputStream == outStream && outStream.ops == [] && visitor.depth == 0;
    visitor.Serialize(root);
    assert outStream.ops == XditaSerialization.Serialized(SettingsLayout(indentationChar, tabSize), 0, root);
    text := XditaSerialization.StreamText(outStream.ops);
  }

  /** The decision table of `serializeToXdita`. */
  lemma IndentationChoice(indentationChar: Option<string>, tabSize: Option<nat>)
    ensures indentationChar == Some("\t") ==> SettingsLayout(indentationChar, tabSize) == XditaSerialization.Layout(true, "\t", 1)
    ensures indentationChar.Some? && indentationChar.value !in {"", "\t"} ==>
      && SettingsLayout(indentationChar, tabSize).indent
      && SettingsLayout(indentationChar, tabSize).indentation == indentationChar.value
      && SettingsLayout(indentationChar, tabSize).tabSize == (if tabSize in {None, Some(0)} then 4 else tabSize.value)
    ensures indentationChar in {None, Some("")} ==> !SettingsLayout(indentationChar, tabSize).indent
  {
  }

  /** Without an indentation string the text is the tree's markup on one line. */
  lemma UnindentedText(root: XditaSerialization.Node, tabSize: Option<nat>)
    ensures XditaSerialization.StreamText(XditaSerialization.Serialized(SettingsLayout(None, tabSize), 0, root))
         == XditaSerialization.Xml(root)
  {
    XditaSerialization.CompactOutput(SettingsLayout(None, tabSize), 0, root);
  }
}
