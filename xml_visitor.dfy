/**
 * `packages/lwdita-xml/visitor.ts`: the `XMLTag` renderer and the `Visitor` that collects
 * tags in an output list while a stack remembers which start tags are still open.
 */
module XmlVisitor {
  import opened Js

  /** One `XMLTag`: a start, end or self-closing tag with its depth and indentation flag. */
  datatype XmlTag = XmlTag(tagName: string, attributes: PropertyBag, depth: nat,
                           isSelfClosing: bool, isStartTag: bool, indent: bool)

  /** The tag itself, as `XMLTag.toString()` writes it between the indentation and the line end. */
  function Markup(tagName: string, attributes: PropertyBag, isSelfClosing: bool, isStartTag: bool): string {
    var attrsPrint := AttributeList(attributes);
    if isSelfClosing then
      if attrsPrint != "" then "<" + tagName + " " + attrsPrint + "/>" else "<" + tagName + "/>"
    else if isStartTag then
      if attrsPrint != "" then "<" + tagName + " " + attrsPrint + ">" else "<" + tagName + ">"
    else
      "</" + tagName + ">"
  }

  /** `XMLTag.toString()`. */
  function TagText(t: XmlTag): string {
    var indentation := if t.indent then Repeat("  ", t.depth) else "";
    var lineEnd := if t.indent then "\n" else "";
    indentation + Markup(t.tagName, t.attributes, t.isSelfClosing, t.isStartTag) + lineEnd
  }

  /** The text of a tag with indentation switched off: depth plays no part in it. */
  function Compact(t: XmlTag): XmlTag {
    t.(indent := false, depth := 0)
  }

  lemma CompactText(t: XmlTag)
    ensures TagText(Compact(t)) == Markup(t.tagName, t.attributes, t.isSelfClosing, t.isStartTag)
  {
    var m := Markup(t.tagName, t.attributes, t.isSelfClosing, t.isStartTag);
    assert "" + m + "" == m;
  }

  /** A space followed by the attribute list, when there is one, is ` key="value"` per truthy attribute. */
  lemma SpacedMarkup(tagName: string, attributes: PropertyBag, close: string)
    ensures (var a := AttributeList(attributes);
             (if a != "" then "<" + tagName + " " + a + close else "<" + tagName + close))
         == "<" + tagName + SpacedPairs(TruthyProps(attributes)) + close
  {
    var a := AttributeList(attributes);
    AttributeListShape(attributes);
    if a != "" {
      assert "<" + tagName + " " + a + close == "<" + tagName + (" " + a) + close;
    } else {
      assert TruthyProps(attributes) == [];
      assert "<" + tagName + "" + close == "<" + tagName + close;
    }
  }

  /**
   * With `indent` the tag is prefixed by two spaces per level of depth and followed by a
   * newline; without it the text has neither, whatever the depth.
   */
  lemma IndentationWrapsCompactText(t: XmlTag)
    ensures t.indent ==> TagText(t) == Repeat("  ", t.depth) + TagText(Compact(t)) + "\n"
    ensures !t.indent ==> TagText(t) == TagText(Compact(t))
  {
    CompactText(t);
  }

  /**
   * A self-closing tag is `<name/>` followed by ` key="value"` for each truthy attribute, in
   * key order, before the `/>`; it is self-closing whatever `isStartTag` says.
   */
  lemma SelfClosingLayout(t: XmlTag)
    requires t.isSelfClosing
    ensures TagText(Compact(t)) == "<" + t.tagName + SpacedPairs(TruthyProps(t.attributes)) + "/>"
    ensures TagText(t) == TagText(t.(isStartTag := !t.isStartTag))
  {
    CompactText(t);
    SpacedMarkup(t.tagName, t.attributes, "/>");
  }

  /** A start tag is `<name`, then ` key="value"` for each truthy attribute, then `>`. */
  lemma StartTagLayout(t: XmlTag)
    requires !t.isSelfClosing && t.isStartTag
    ensures TagText(Compact(t)) == "<" + t.tagName + SpacedPairs(TruthyProps(t.attributes)) + ">"
  {
    CompactText(t);
    SpacedMarkup(t.tagName, t.attributes, ">");
  }

  /** An end tag is `</name>` and never carries attributes. */
  lemma EndTagLayout(t: XmlTag)
    requires !t.isSelfClosing && !t.isStartTag
    ensures TagText(Compact(t)) == "</" + t.tagName + ">"
    ensures TagText(t) == TagText(t.(attributes := []))
  {
    CompactText(t);
  }

  /** Attributes whose value is falsy do not show: dropping them leaves the text as it was. */
  lemma FalsyAttributesIgnored(t: XmlTag)
    ensures TagText(t) == TagText(t.(attributes := TruthyProps(t.attributes)))
  {
    TruthyPropsIdempotent(t.attributes);
  }

  lemma {:induction false} TruthyPropsIdempotent(bag: PropertyBag)
    ensures TruthyProps(TruthyProps(bag)) == TruthyProps(bag)
  {
    if bag != [] {
      TruthyPropsIdempotent(bag[1..]);
      if Truthy(bag[0].value) {
        assert ([bag[0]] + TruthyProps(bag[1..]))[1..] == TruthyProps(bag[1..]);
      }
    }
  }

  /** The name `pop()` gives for an end tag: the innermost open tag, or `undefined` on an empty stack. */
  function PoppedName(stack: seq<string>): string {
    if stack == [] then "undefined" else stack[|stack| - 1]
  }

  function Popped(stack: seq<string>): seq<string> {
    if stack == [] then [] else stack[..|stack| - 1]
  }

  /** The state of a `Visitor`, and the calls made on it. */
  datatype VisitorState = VisitorState(outStream: seq<XmlTag>, tagsStack: seq<string>)

  datatype Call =
    | VisitCall(text: XmlTag)
    | StartTagCall(tagName: string, attrs: PropertyBag, depth: nat, isSelfClosing: bool, isStartTag: bool, indent: bool)
    | EndTagCall(depth: nat, isSelfClosing: bool, isStartTag: bool, indent: bool)
    | SelfClosingTagCall(tagName: string, attrs: PropertyBag, depth: nat, isSelfClosing: bool, isStartTag: bool, indent: bool)

  /** The state after one call. */
  function Apply(s: VisitorState, c: Call): VisitorState {
    match c
    case VisitCall(text) => s.(outStream := s.outStream + [text])
    case StartTagCall(name, attrs, depth, sc, st, ind) =>
      VisitorState(s.outStream + [XmlTag(name, attrs, depth, sc, st, ind)], s.tagsStack + [name])
    case EndTagCall(depth, sc, st, ind) =>
      VisitorState(s.outStream + [XmlTag(PoppedName(s.tagsStack), [], depth, sc, st, ind)], Popped(s.tagsStack))
    case SelfClosingTagCall(name, attrs, depth, sc, st, ind) =>
      s.(outStream := s.outStream + [XmlTag(name, attrs, depth, sc, st, ind)])
  }

  /** The state after a sequence of calls. */
  function Run(s: VisitorState, calls: seq<Call>): VisitorState {
    if calls == [] then s else Apply(Run(s, calls[..|calls| - 1]), calls[|calls| - 1])
  }

  class Visitor {
    var outStream: seq<XmlTag>
    var tagsStack: seq<string>

    function Snapshot(): VisitorState
      reads this
    {
      VisitorState(outStream, tagsStack)
    }

    constructor(outStream: seq<XmlTag>)
      ensures this.outStream == outStream && tagsStack == []
    {
      this.outStream := outStream;
      this.tagsStack := [];
    }

    /** `visit(text)`: the tag is appended; the stack is untouched. */
    method Visit(text: XmlTag)
      modifies this
      ensures outStream == old(outStream) + [text]
      ensures tagsStack == old(tagsStack)
      ensures Snapshot() == Apply(old(Snapshot()), VisitCall(text))
    {
      outStream := outStream + [text];
    }

    /** `startTag(...)`: one tag is appended and its name is pushed. */
    method StartTag(tagName: string, attrs: PropertyBag, depth: nat, isSelfClosing: bool, isStartTag: bool, indent: bool)
      modifies this
      ensures outStream == old(outStream) + [XmlTag(tagName, attrs, depth, isSelfClosing, isStartTag, indent)]
      ensures tagsStack == old(tagsStack) + [tagName]
      ensures Snapshot() == Apply(old(Snapshot()), StartTagCall(tagName, attrs, depth, isSelfClosing, isStartTag, indent))
    {
      var xmlTag := XmlTag(tagName, attrs, depth, isSelfClosing, isStartTag, indent);
      outStream := outStream + [xmlTag];
      tagsStack := tagsStack + [tagName];
    }

    /** `endTag(...)`: the innermost name is popped and a tag with it and no attributes appended. */
    method EndTag(depth: nat, isSelfClosing: bool, isStartTag: bool, indent: bool)
      modifies this
      ensures outStream == old(outStream) + [XmlTag(PoppedName(old(tagsStack)), [], depth, isSelfClosing, isStartTag, indent)]
      ensures tagsStack == Popped(old(tagsStack))
      ensures Snapshot() == Apply(old(Snapshot()), EndTagCall(depth, isSelfClosing, isStartTag, indent))
    {
      var tagName := "undefined";
      if tagsStack != [] {
        tagName := tagsStack[|tagsStack| - 1];
        tagsStack := tagsStack[..|tagsStack| - 1];
      }
      var xmlTag := XmlTag(tagName, [], depth, isSelfClosing, isStartTag, indent);
      outStream := outStream + [xmlTag];
    }

    /** `selfClosingTag(...)`: one tag is appended; the stack is untouched. */
    method SelfClosingTag(tagName: string, attrs: PropertyBag, depth: nat, isSelfClosing: bool, isStartTag: bool, indent: bool)
      modifies this
      ensures outStream == old(outStream) + [XmlTag(tagName, attrs, depth, isSelfClosing, isStartTag, indent)]
      ensures tagsStack == old(tagsStack)
      ensures Snapshot() == Apply(old(Snapshot()), SelfClosingTagCall(tagName, attrs, depth, isSelfClosing, isStartTag, indent))
    {
      var xmlTag := XmlTag(tagName, attrs, depth, isSelfClosing, isStartTag, indent);
      outStream := outStream + [xmlTag];
    }
  }

  /** Every call appends exactly one tag and rewrites none of the earlier ones. */
  lemma {:induction false} AppendOnly(s: VisitorState, calls: seq<Call>)
    ensures |Run(s, calls).outStream| == |s.outStream| + |calls|
    ensures Run(s, calls).outStream[..|s.outStream|] == s.outStream
  {
    if calls != [] {
      AppendOnly(s, calls[..|calls| - 1]);
      var before := Run(s, calls[..|calls| - 1]).outStream;
      assert Run(s, calls).outStream[..|before|] == before;
      assert before[..|s.outStream|] == s.outStream;
    }
  }

  /** Net pushes of a call sequence: +1 per start tag, -1 per end tag. */
  function Balance(calls: seq<Call>): int {
    if calls == [] then 0
    else Balance(calls[..|calls| - 1]) + (match calls[|calls| - 1]
      case StartTagCall(_, _, _, _, _, _) => 1
      case EndTagCall(_, _, _, _) => -1
      case _ => 0)
  }

  /** No prefix closes more tags than it opened. */
  predicate NeverUnderflows(calls: seq<Call>) {
    forall k :: 0 <= k <= |calls| ==> Balance(calls[..k]) >= 0
  }

  /** Without underflow the old stack stays underneath and the stack grows by the net pushes. */
  lemma {:induction false} StackDiscipline(s: VisitorState, calls: seq<Call>)
    requires NeverUnderflows(calls)
    ensures Balance(calls) >= 0
    ensures |Run(s, calls).tagsStack| == |s.tagsStack| + Balance(calls)
    ensures Run(s, calls).tagsStack[..|s.tagsStack|] == s.tagsStack
  {
    if calls != [] {
      var pre := calls[..|calls| - 1];
      assert forall k :: 0 <= k <= |pre| ==> pre[..k] == calls[..k];
      StackDiscipline(s, pre);
      assert calls[..|calls|] == calls;
      var mid := Run(s, pre).tagsStack;
      assert Run(s, calls).tagsStack[..|s.tagsStack|] == s.tagsStack by {
        assert mid[..|s.tagsStack|] == s.tagsStack;
        match calls[|calls| - 1]
        case StartTagCall(name, _, _, _, _, _) =>
          assert (mid + [name])[..|s.tagsStack|] == mid[..|s.tagsStack|];
        case EndTagCall(_, _, _, _) =>
          assert Balance(calls) == Balance(pre) - 1;
          assert mid[..|mid| - 1][..|s.tagsStack|] == mid[..|s.tagsStack|];
        case _ =>
      }
    }
  }

  lemma {:induction false} RunAppend(s: VisitorState, a: seq<Call>, b: seq<Call>)
    ensures Run(s, a + b) == Run(Run(s, a), b)
    decreases |b|
  {
    if b == [] {
      assert a + b == a;
    } else {
      assert (a + b)[..|a + b| - 1] == a + b[..|b| - 1];
      RunAppend(s, a, b[..|b| - 1]);
    }
  }

  /**
   * LIFO matching: after a start tag for `name`, any balanced run of calls, and an end tag,
   * the end tag emitted last closes `name` and carries no attributes, and the stack is back
   * to what it was before the start tag.
   */
  lemma EndClosesMatchingStart(s: VisitorState, name: string, attrs: PropertyBag, d: nat, sc: bool, st: bool, ind: bool,
                               inner: seq<Call>, d2: nat, sc2: bool, st2: bool, ind2: bool)
    requires NeverUnderflows(inner) && Balance(inner) == 0
    ensures var r := Run(s, [StartTagCall(name, attrs, d, sc, st, ind)] + inner + [EndTagCall(d2, sc2, st2, ind2)]);
      && r.outStream[|r.outStream| - 1] == XmlTag(name, [], d2, sc2, st2, ind2)
      && r.tagsStack == s.tagsStack
  {
    var open := [StartTagCall(name, attrs, d, sc, st, ind)];
    var close := [EndTagCall(d2, sc2, st2, ind2)];
    assert Run(s, open) == Apply(s, open[0]) by {
      assert open[..0] == [];
    }
    var s1 := Run(s, open);
    assert s1.tagsStack == s.tagsStack + [name];
    StackDiscipline(s1, inner);
    var s2 := Run(s1, inner);
    assert s2.tagsStack == s1.tagsStack;
    RunAppend(s, open, inner);
    RunAppend(s, open + inner, close);
    assert Run(s2, close) == Apply(s2, close[0]) by {
      assert close[..0] == [];
    }
  }
}
