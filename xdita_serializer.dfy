/**
 * `packages/lwdita-xdita/xdita-serializer.ts`: a depth-first walk over a document tree that
 * writes XDITA markup to an append-only text stream, keeping the current depth in a field.
 */
module XditaSerialization {
  import opened Js
  import XmlVisitor

  /** The tree the serializer walks: the document root, text nodes and elements. */
  datatype Node =
    | Document(children: seq<Node>)
    | Text(content: BasicValue)
    | Element(nodeName: string, props: PropertyBag, children: seq<Node>)

  /** What reaches the stream: an emitted string, or the closing of the stream. */
  datatype StreamOp = Emit(s: string) | Close

  /** The output stream: it records every `emit` and `close`, in order. */
  class TextStream {
    var ops: seq<StreamOp>

    constructor()
      ensures ops == []
    {
      ops := [];
    }

    method Emit(s: string)
      modifies this
      ensures ops == old(ops) + [StreamOp.Emit(s)]
    {
      ops := ops + [StreamOp.Emit(s)];
    }

    method Close()
      modifies this
      ensures ops == old(ops) + [StreamOp.Close]
    {
      ops := ops + [StreamOp.Close];
    }
  }

  /** The text a stream holds: every emitted string, in order. */
  function StreamText(ops: seq<StreamOp>): string {
    if ops == [] then ""
    else StreamText(ops[..|ops| - 1]) + (match ops[|ops| - 1] case Emit(s) => s case Close => "")
  }

  lemma Assoc<T>(a: seq<T>, b: seq<T>, c: seq<T>)
    ensures a + (b + c) == a + b + c
  {
  }

  lemma Concat5<T>(s: seq<T>, a: seq<T>, b: seq<T>, c: seq<T>, d: seq<T>, e: seq<T>)
    ensures s + a + b + c + d + e == s + (a + b + c + d + e)
  {
  }

  lemma {:induction false} StreamTextAppend(a: seq<StreamOp>, b: seq<StreamOp>)
    ensures StreamText(a + b) == StreamText(a) + StreamText(b)
    decreases |b|
  {
    if b == [] {
      assert a + b == a;
    } else {
      assert (a + b)[..|a + b| - 1] == a + b[..|b| - 1];
      StreamTextAppend(a, b[..|b| - 1]);
    }
  }

  /** The serializer's fixed configuration. */
  datatype Layout = Layout(indent: bool, indentation: string, tabSize: nat)

  /** What `serializeIndentation` emits at a depth. */
  function IndentOps(l: Layout, depth: nat): seq<StreamOp> {
    if l.indent then [Emit(Repeat(l.indentation, depth * l.tabSize))] else []
  }

  /** What `serializeEOL` emits. */
  function EolOps(l: Layout): seq<StreamOp> {
    if l.indent then [Emit("\n")] else []
  }

  /** What `serializeAttributes` emits: a space and the attribute list, or nothing. */
  function AttributesText(props: PropertyBag): string {
    var attrsStr := AttributeList(props);
    if |attrsStr| > 0 then " " + attrsStr else attrsStr
  }

  /** What `serializeText` emits for a text node's content. */
  function TextOps(content: BasicValue): seq<StreamOp> {
    if Truthy(content) then [Emit(ToJsString(content))] else []
  }

  /** What `serialize(node)` emits at a depth. */
  function Serialized(l: Layout, depth: nat, node: Node): seq<StreamOp>
    decreases node, 0
  {
    match node
    case Document(children) => SerializedAll(l, depth, children) + [Close]
    case Text(content) => IndentOps(l, depth) + TextOps(content) + EolOps(l)
    case Element(name, props, children) =>
      IndentOps(l, depth) + [Emit("<" + name), Emit(AttributesText(props))] + ContentOps(l, depth, name, children) + EolOps(l)
  }

  /** After the start of an element: `>`, the children one level deeper and the end tag; or `/>` when childless. */
  function ContentOps(l: Layout, depth: nat, name: string, children: seq<Node>): seq<StreamOp>
    decreases children, 1
  {
    if |children| > 0
    then [Emit(">")] + EolOps(l) + SerializedAll(l, depth + 1, children) + IndentOps(l, depth) + [Emit("</" + name + ">")]
    else [Emit("/>")]
  }

  /** The children in stored order, each at the same depth. */
  function SerializedAll(l: Layout, depth: nat, children: seq<Node>): seq<StreamOp>
    decreases children, 0
  {
    if children == [] then []
    else SerializedAll(l, depth, children[..|children| - 1]) + Serialized(l, depth, children[|children| - 1])
  }

  lemma ElementOps(l: Layout, depth: nat, name: string, props: PropertyBag, children: seq<Node>)
    ensures Serialized(l, depth, Element(name, props, children))
         == IndentOps(l, depth) + [Emit("<" + name)] + [Emit(AttributesText(props))] + ContentOps(l, depth, name, children) + EolOps(l)
  {
    assert [Emit("<" + name), Emit(AttributesText(props))] == [Emit("<" + name)] + [Emit(AttributesText(props))];
  }

  class XditaSerializer {
    const outputStream: TextStream
    const indent: bool
    const tabSize: nat
    const indentation: string
    const EOL: string := "\n"
    var depth: nat

    function Config(): Layout {
      Layout(indent, indentation, tabSize)
    }

    /** A tab indentation forces one indentation string per level; the line end is always `\n`. */
    constructor(outputStream: TextStream, indent: bool := false, indentation: string := " ", tabSize: nat := 4)
      ensures this.outputStream == outputStream && this.indent == indent && this.indentation == indentation
      ensures this.tabSize == if indentation == "\t" then 1 else tabSize
      ensures depth == 0
    {
      this.outputStream := outputStream;
      this.indent := indent;
      this.indentation := indentation;
      this.tabSize := if indentation == "\t" then 1 else tabSize;
      this.depth := 0;
    }

    /** Emits `indentation` repeated `depth * tabSize` times, only when indenting. */
    method SerializeIndentation()
      modifies outputStream
      ensures outputStream.ops == old(outputStream.ops) + IndentOps(Config(), depth)
    {
      if indent {
        outputStream.Emit(Repeat(indentation, depth * tabSize));
      }
    }

    /** Emits the line end, only when indenting. */
    method SerializeEOL()
      modifies outputStream
      ensures outputStream.ops == old(outputStream.ops) + EolOps(Config())
    {
      if indent {
        outputStream.Emit(EOL);
      }
    }

    method SerializeAttributes(props: PropertyBag)
      modifies outputStream
      ensures outputStream.ops == old(outputStream.ops) + [Emit(AttributesText(props))]
    {
      var attrsStr := AttributeList(props);
      if |attrsStr| > 0 {
        attrsStr := " " + attrsStr;
      }
      outputStream.Emit(attrsStr);
    }

    method SerializeText(content: BasicValue)
      modifies outputStream
      ensures outputStream.ops == old(outputStream.ops) + TextOps(content)
    {
      if Truthy(content) {
        outputStream.Emit(ToJsString(content));
      }
    }

    /** `serialize(node)`: emits the node's markup and leaves `depth` as it found it. */
    method Serialize(node: Node)
      modifies this, outputStream
      ensures depth == old(depth)
      ensures outputStream.ops == old(outputStream.ops) + Serialized(Config(), old(depth), node)
      decreases node, 3
    {
      match node
      case Document(children) =>
        SerializeChildren(children);
        outputStream.Close();
      case Text(content) =>
        SerializeIndentation();
        SerializeText(content);
        SerializeEOL();
      case Element(name, props, children) =>
        SerializeElement(name, props, children);
    }

    /** An element: indentation, `<name`, the attributes, the rest of the element and the line end. */
    method SerializeElement(name: string, props: PropertyBag, children: seq<Node>)
      modifies this, outputStream
      ensures depth == old(depth)
      ensures outputStream.ops == old(outputStream.ops) + Serialized(Config(), old(depth), Element(name, props, children))
      decreases children, 2
    {
      ghost var before, l, d := outputStream.ops, Config(), depth;
      SerializeIndentation();
      outputStream.Emit("<" + name);
      SerializeAttributes(props);
      SerializeContent(name, children);
      SerializeEOL();
      ElementOps(l, d, name, props, children);
      Concat5(before, IndentOps(l, d), [Emit("<" + name)], [Emit(AttributesText(props))], ContentOps(l, d, name, children), EolOps(l));
    }

    /** The rest of an element after its attributes: `>`, the children one level deeper and the end tag, or `/>`. */
    method SerializeContent(name: string, children: seq<Node>)
      modifies this, outputStream
      ensures depth == old(depth)
      ensures outputStream.ops == old(outputStream.ops) + ContentOps(Config(), old(depth), name, children)
      decreases children, 1
    {
      if |children| > 0 {
        ghost var before := outputStream.ops;
        outputStream.Emit(">");
        SerializeEOL();
        depth := depth + 1;
        SerializeChildren(children);
        depth := depth - 1;
        SerializeIndentation();
        outputStream.Emit("</" + name + ">");
        Concat5(before, [Emit(">")], EolOps(Config()), SerializedAll(Config(), depth + 1, children),
                IndentOps(Config(), depth), [Emit("</" + name + ">")]);
      } else {
        outputStream.Emit("/>");
      }
    }

    /** `node.children.forEach(child => this.serialize(child))`. */
    method SerializeChildren(children: seq<Node>)
      modifies this, outputStream
      ensures depth == old(depth)
      ensures outputStream.ops == old(outputStream.ops) + SerializedAll(Config(), old(depth), children)
      decreases children, 0
    {
      var i := 0;
      while i < |children|
        invariant 0 <= i <= |children|
        invariant depth == old(depth)
        invariant outputStream.ops == old(outputStream.ops) + SerializedAll(Config(), depth, children[..i])
      {
        assert children[..i + 1][..i] == children[..i];
        Serialize(children[i]);
        i := i + 1;
      }
      assert children[..|children|] == children;
    }
  }

  /** The attribute text is ` key="value"` for each truthy property, in key order; nothing when none is truthy. */
  lemma AttributesLayout(props: PropertyBag)
    ensures AttributesText(props) == SpacedPairs(TruthyProps(props))
    ensures AttributesText(props) == "" <==> forall i :: 0 <= i < |props| ==> !Truthy(props[i].value)
  {
    AttributeListShape(props);
  }

  /** An independent rendering of a tree as markup without layout whitespace. */
  function Xml(node: Node): string
    decreases node
  {
    match node
    case Document(children) => XmlAll(children)
    case Text(content) => if Truthy(content) then ToJsString(content) else ""
    case Element(name, props, children) =>
      var attrs := SpacedPairs(TruthyProps(props));
      if |children| > 0 then "<" + name + attrs + ">" + XmlAll(children) + "</" + name + ">"
      else "<" + name + attrs + "/>"
  }

  function XmlAll(children: seq<Node>): string
    decreases children
  {
    if children == [] then "" else XmlAll(children[..|children| - 1]) + Xml(children[|children| - 1])
  }

  /**
   * Without indentation the stream holds exactly the markup of the tree: start tags with
   * their truthy attributes, children in stored order, end tags, `<name/>` for childless
   * elements, text by its `String` form; whatever the depth.
   */
  lemma {:induction false} CompactOutput(l: Layout, depth: nat, node: Node)
    requires !l.indent
    ensures StreamText(Serialized(l, depth, node)) == Xml(node)
    decreases node
  {
    match node
    case Document(children) =>
      CompactOutputAll(l, depth, children);
      StreamTextAppend(SerializedAll(l, depth, children), [Close]);
      StreamTextSingle(Close);
    case Text(content) =>
      assert Serialized(l, depth, node) == TextOps(content);
      if Truthy(content) {
        StreamTextSingle(Emit(ToJsString(content)));
      }
    case Element(name, props, children) =>
      if |children| > 0 {
        CompactOutputAll(l, depth + 1, children);
      }
      CompactElement(l, depth, name, props, children);
  }

  lemma StreamTextSingle(op: StreamOp)
    ensures StreamText([op]) == match op case Emit(s) => s case Close => ""
  {
    assert [op][..0] == [];
  }

  lemma CompactElement(l: Layout, depth: nat, name: string, props: PropertyBag, children: seq<Node>)
    requires !l.indent
    requires |children| > 0 ==> StreamText(SerializedAll(l, depth + 1, children)) == XmlAll(children)
    ensures StreamText(Serialized(l, depth, Element(name, props, children))) == Xml(Element(name, props, children))
  {
    var content := ContentOps(l, depth, name, children);
    ElementOps(l, depth, name, props, children);
    CompactStart(l, depth, name, props, content);
    AttributesLayout(props);
    if |children| > 0 {
      CompactContent(l, depth, name, children);
      ElementText(name, AttributesText(props), XmlAll(children));
    } else {
      assert content == [Emit("/>")];
      StreamTextSingle(Emit("/>"));
    }
  }

  lemma ElementText(name: string, attrs: string, inner: string)
    ensures "<" + name + attrs + (">" + inner + ("</" + name + ">")) == "<" + name + attrs + ">" + inner + "</" + name + ">"
  {
  }

  /** Without indentation the start of an element is `<name` and its attribute text, then what follows. */
  lemma CompactStart(l: Layout, depth: nat, name: string, props: PropertyBag, content: seq<StreamOp>)
    requires !l.indent
    ensures StreamText(IndentOps(l, depth) + [Emit("<" + name)] + [Emit(AttributesText(props))] + content + EolOps(l))
         == "<" + name + AttributesText(props) + StreamText(content)
  {
    var a, b := [Emit("<" + name)], [Emit(AttributesText(props))];
    assert IndentOps(l, depth) + a + b + content + EolOps(l) == a + b + content;
    StreamTextAppend(a + b, content);
    StreamTextAppend(a, b);
    StreamTextSingle(Emit("<" + name));
    StreamTextSingle(Emit(AttributesText(props)));
  }

  /** The text of an emitted string, some operations and another emitted string. */
  lemma EmitAround(x: string, ops: seq<StreamOp>, y: string)
    ensures StreamText([Emit(x)] + ops + [Emit(y)]) == x + StreamText(ops) + y
  {
    StreamTextAppend([Emit(x)] + ops, [Emit(y)]);
    StreamTextAppend([Emit(x)], ops);
    StreamTextSingle(Emit(x));
    StreamTextSingle(Emit(y));
  }

  lemma CompactContent(l: Layout, depth: nat, name: string, children: seq<Node>)
    requires !l.indent && |children| > 0
    requires StreamText(SerializedAll(l, depth + 1, children)) == XmlAll(children)
    ensures StreamText(ContentOps(l, depth, name, children)) == ">" + XmlAll(children) + ("</" + name + ">")
  {
    var inner := SerializedAll(l, depth + 1, children);
    assert EolOps(l) == [] && IndentOps(l, depth) == [];
    assert ContentOps(l, depth, name, children) == [Emit(">")] + inner + [Emit("</" + name + ">")];
    EmitAround(">", inner, "</" + name + ">");
  }

  lemma {:induction false} CompactOutputAll(l: Layout, depth: nat, children: seq<Node>)
    requires !l.indent
    ensures StreamText(SerializedAll(l, depth, children)) == XmlAll(children)
    decreases children
  {
    if children != [] {
      var n := |children|;
      CompactOutputAll(l, depth, children[..n - 1]);
      CompactOutput(l, depth, children[n - 1]);
      StreamTextAppend(SerializedAll(l, depth, children[..n - 1]), Serialized(l, depth, children[n - 1]));
    }
  }

  /** Every non-document node, text included, starts with the indentation and ends with the line end. */
  lemma FramedByIndentAndEol(l: Layout, depth: nat, node: Node)
    requires !node.Document?
    ensures exists body :: Serialized(l, depth, node) == IndentOps(l, depth) + body + EolOps(l)
  {
    match node
    case Text(content) =>
      assert Serialized(l, depth, node) == IndentOps(l, depth) + TextOps(content) + EolOps(l);
    case Element(name, props, children) =>
      var rest :=
        [Emit("<" + name), Emit(AttributesText(props))]
        + (if |children| > 0
           then [Emit(">")] + EolOps(l) + SerializedAll(l, depth + 1, children) + IndentOps(l, depth) + [Emit("</" + name + ">")]
           else [Emit("/>")]);
      assert Serialized(l, depth, node) == IndentOps(l, depth) + rest + EolOps(l);
  }

  /** A document contributes no markup of its own and closes the stream after its children. */
  lemma DocumentCloses(l: Layout, depth: nat, children: seq<Node>)
    ensures var ops := Serialized(l, depth, Document(children));
      ops[|ops| - 1] == Close && StreamText(ops) == StreamText(SerializedAll(l, depth, children))
  {
    StreamTextAppend(SerializedAll(l, depth, children), [Close]);
    StreamTextSingle(Close);
  }

  /**
   * The tags the serializer writes are the ones `XMLTag.toString` renders without
   * indentation: a start tag for an element with children, a self-closing tag for one
   * without, and the end tag.
   */
  lemma TagsAgreeWithXmlTag(name: string, props: PropertyBag)
    ensures "<" + name + AttributesText(props) + ">" == XmlVisitor.TagText(XmlVisitor.XmlTag(name, props, 0, false, true, false))
    ensures "<" + name + AttributesText(props) + "/>" == XmlVisitor.TagText(XmlVisitor.XmlTag(name, props, 0, true, true, false))
    ensures "</" + name + ">" == XmlVisitor.TagText(XmlVisitor.XmlTag(name, [], 0, false, false, false))
  {
    AttributesLayout(props);
    XmlVisitor.StartTagLayout(XmlVisitor.XmlTag(name, props, 0, false, true, false));
    XmlVisitor.SelfClosingLayout(XmlVisitor.XmlTag(name, props, 0, true, true, false));
    XmlVisitor.EndTagLayout(XmlVisitor.XmlTag(name, [], 0, false, false, false));
  }
}
