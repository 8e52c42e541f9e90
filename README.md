# jdita core in Dafny

A model of the core of jdita, the converter between LwDITA's XML form (XDITA) and an in-memory
document tree, with proofs about that model. It covers these parts:

- **Content-model grammar** (`ContentModel`, `FieldValidation`; `packages/lwdita-ast/utils.ts`):
  - parsing of compact child-type tokens such as `sthead?`, `%list-blocks*` and `(a|b)+` into
    descriptors `{name, single, required, isGroup}`;
  - the first-match search `acceptsNodeName` over nested descriptor lists;
  - the cardinality queries `isChildTypeRequired` and `isChildTypeSingle`;
  - `areFieldsValid`, the "every field accepted by some validator" check.
- **XML tag renderer and visitor** (`XmlVisitor`; `packages/lwdita-xml/visitor.ts`):
  - `XMLTag.toString`;
  - a `Visitor` class whose methods append tags to an output list and push and pop a stack of tag names.
- **XDITA serializer** (`XditaSerialization`; `packages/lwdita-xdita/xdita-serializer.ts`):
  - a class with a mutable `depth` counter;
  - it walks Document, Text and Element nodes depth first;
  - it emits strings to an append-only stream.
- **Tree builder** (`Converter`; `packages/lwdita-xdita/converter.ts`):
  - the parser callbacks of `xditaToAst` over a stack of open nodes and an error list, driven by
    a sequence of parser events;
  - how the result settles (resolved, rejected or thrown);
  - the indentation decision table of `serializeToXdita`.
- **Attribute traits and node declarations** (`NodeTraits`, `NodeDeclarations`, `LwditaImage`;
  `src/nodes/*.ts`, `packages/lwdita-ast/nodes/*.ts`, `src/lwdita/nodes/image.ts`):
  - the `size`, `display` and `fn-reuse` field lists and switch validators, their `isXNode`
    predicates and their property accessors;
  - thirteen node declarations, each reduced to a record: tag name, concatenated field list,
    ORed trait validator, content-model tokens and DOM name;
  - the light-weight DITA `ImageNode` class.

These JavaScript semantics are written out in `Js`:
- truthiness;
- `String(value)` for strings, booleans, `undefined` and integers;
- `slice` with negative indices;
- `split` and `join`;
- `repeat` and `indexOf`;
- plain objects as property bags listed in key order.

Some code the core relies on is not shown. It is passed in as function-valued parameters:
- the primitive checks (`isCDATA`, `isNMTOKEN`, `isDisplayScale`, …);
- the trait validators and field lists (`filters`, `localization`, `reuse`, `class`, `variable-content`, `reference-content`, boolean `field`);
- node creation and `add`.

**Where the specification and the code disagree, the model follows the code:**
- **A failed open tag.** When creating or adding a node for an open tag fails, the code swallows the exception and records no error. Its closing tag then pops whatever is on top of the stack, so the skipped element's parent is closed early (`converter.ts:84-96`).
- **Text nodes.** A text node's content is emitted only when it is truthy (`xdita-serializer.ts:78`), not always verbatim.
- **The light-weight DITA `image` field list.** It has nine entries: `dir` appears twice and `props` does not appear (`src/lwdita/nodes/image.ts:26-36`).

The operations below are plain definitions without a contract of their own; the lemmas and
methods in the table state what they promise:
- `ContentModel.ParseToken` (`packages/lwdita-ast/utils.ts:190-207`): specified by `QuantifierTable`, `TokenRoundTrip` and `ChildTypeRoundTrip`.
- `ContentModel.StringToChildTypes` (`packages/lwdita-ast/utils.ts:185-215`): specified by `SimpleTokens`, `Descriptors`, `AlternationIsFlat` and `AlternationInArrayNests`.
- `ContentModel.Accepts` and `ContentModel.FirstMatch` (`packages/lwdita-ast/utils.ts:30-50`): specified by `AcceptsNodeName`, `AcceptsIsFirstLeaf`, `AcceptsFirstAccepting`, `LeafMatch` and `NoMissingGroup`.
- `ContentModel.IsChildTypeRequired` and `ContentModel.IsSingle` (`packages/lwdita-ast/utils.ts:96-137`): specified by `RequiredIffSomeLeaf`, `SingleIffAllLeaves`, `IsChildTypeSingle` and `CardinalityOfToken`.
- `Converter.Step` (`packages/lwdita-xdita/converter.ts:52-109`): specified by `TextStep`, `OpenTagStep`, `CloseTagStep`, `StepPreservesWellFormed` and `StepPreservesTree`.
- `Converter.Finish` (`packages/lwdita-xdita/converter.ts:99-105`): specified by `TreeBuilder.Settle` and `OutcomeOfParse`.
- `XditaSerialization.Serialized` (`packages/lwdita-xdita/xdita-serializer.ts:88-125`): specified by `XditaSerializer.Serialize`, `CompactOutput`, `FramedByIndentAndEol` and `DocumentCloses`.
- `XmlVisitor.TagText` (`packages/lwdita-xml/visitor.ts:51-78`): specified by `IndentationWrapsCompactText`, `SelfClosingLayout`, `StartTagLayout`, `EndTagLayout` and `FalsyAttributesIgnored`.

## Model

| member | source | states |
|---|---|---|
| ContentModel.Has | packages/lwdita-ast/utils.ts:83-85 | `has(a, v)` holds iff `v` occurs at some index of `a` |
| FieldValidation.IsOrUndefined | packages/lwdita-ast/utils.ts:146-148 | an absent value always passes; a present one passes iff the check accepts it |
| ContentModel.QuantifierTable | packages/lwdita-ast/utils.ts:190-207 | the quantifier table: no suffix gives exactly one, `?` at most one, `+` at least one and `*` any number; a leading `%` is stripped and marks a group |
| ContentModel.TokenRoundTrip | packages/lwdita-ast/utils.ts:190-207 | writing back the descriptor a token parses to gives that token back, for every string |
| ContentModel.ChildTypeRoundTrip | packages/lwdita-ast/utils.ts:190-207 | every descriptor a token can write parses back to itself |
| ContentModel.SplitTypenames | packages/lwdita-ast/utils.ts:160-170 | no piece produced by `splitTypenames` contains `\|` |
| ContentModel.AlternationSharesQuantifier | packages/lwdita-ast/utils.ts:166-168 | `(a\|b\|…)q` with `q` one of `+*?` yields every alternative followed by `q` |
| ContentModel.AlternationWithoutQuantifier | packages/lwdita-ast/utils.ts:166-169 | `(a\|b\|…)` with no quantifier yields the bare alternatives |
| ContentModel.DropEmpty | packages/lwdita-ast/utils.ts:213 | every entry of the filtered array is a descriptor or a non-empty list |
| ContentModel.DropEmptyMembers | packages/lwdita-ast/utils.ts:213 | a child type is in the filtered array iff it is in the input and is a descriptor or a non-empty list |
| ContentModel.DropEmptyAppend | packages/lwdita-ast/utils.ts:213 | filtering a concatenation is concatenating the filtered parts, so the kept entries stay in order |
| ContentModel.DropEmptyKeepsKept | packages/lwdita-ast/utils.ts:213 | an array with no empty list passes the filter unchanged |
| ContentModel.EmptyTokenDropped | packages/lwdita-ast/utils.ts:213 | in the array `[a, ""]` the empty token becomes an empty list, which is removed, leaving the list of `a`'s descriptor |
| ContentModel.SimpleTokens | packages/lwdita-ast/utils.ts:212-213 | an array of non-empty tokens without `\|` gives one descriptor per token, in order |
| ContentModel.WrittenTokenDenotes | packages/lwdita-ast/utils.ts:187-208 | a non-empty token without `\|` written from a descriptor parses, inside an array, to that descriptor |
| ContentModel.Descriptors | packages/lwdita-ast/utils.ts:212-213 | an array whose tokens each parse to a given descriptor gives the flat list of those descriptors, in order |
| ContentModel.AlternationIsFlat | packages/lwdita-ast/utils.ts:187-210 | a top-level token holding `\|` gives a flat list, with one descriptor per non-empty alternative, in order |
| ContentModel.AlternationInArrayNests | packages/lwdita-ast/utils.ts:208-213 | the same token inside an array gives a list holding that flat list as a single nested entry |
| ContentModel.LeafMatch | packages/lwdita-ast/utils.ts:46-48 | a descriptor accepts a name iff it is a literal with that name, or a group whose table entry holds the name; it returns the descriptor itself; a group missing from the table is the `undefined.indexOf` TypeError |
| ContentModel.AcceptsNodeName | packages/lwdita-ast/utils.ts:30-50 | the method with its `some` loop returns exactly the recursive first-match result |
| ContentModel.AcceptsIsFirstLeaf | packages/lwdita-ast/utils.ts:32-48 | the search on a nested list equals a left-to-right scan of its descriptors, flattened depth first |
| ContentModel.AcceptsFirstAccepting | packages/lwdita-ast/utils.ts:32-41 | an accepted result is the first accepting descriptor and all earlier ones decline; the result is `undefined` iff every descriptor declines (so always for an empty list) |
| ContentModel.NoMissingGroup | packages/lwdita-ast/utils.ts:48 | when every group referenced is in the table, the search never throws |
| ContentModel.RequiredIffSomeLeaf | packages/lwdita-ast/utils.ts:96-108 | a list is required iff some descriptor in it, at any depth, is required |
| ContentModel.SingleIffAllLeaves | packages/lwdita-ast/utils.ts:117-136 | a list is single iff every descriptor in it, at any depth, is single; so the empty list is single |
| ContentModel.IsChildTypeSingle | packages/lwdita-ast/utils.ts:117-137 | the method whose loop stops at the first entry that is not single returns the all-single verdict, after parsing a string argument first |
| ContentModel.CardinalityOfToken | packages/lwdita-ast/utils.ts:96-137 | a token is required iff it ends in `+` or has no quantifier, and single iff it ends in `?` or has no quantifier |
| FieldValidation.AreFieldsValid | packages/lwdita-ast/utils.ts:60-74 | the nested loops with early return give true iff every field is accepted by at least one validator |
| FieldValidation.EmptyFieldsValid | packages/lwdita-ast/utils.ts:60-74 | an empty field list is valid under any validators |
| FieldValidation.NoValidatorsRejects | packages/lwdita-ast/utils.ts:61-71 | a non-empty field list is never valid without validators |
| FieldValidation.SingleValidator | packages/lwdita-ast/utils.ts:60-74 | with one validator, the fields are valid iff it accepts each field with the value the object holds for it |
| FieldValidation.FieldsValidAppend | packages/lwdita-ast/utils.ts:61-73 | a concatenated field list is valid iff each part is |
| FieldValidation.ValidatorOrderIrrelevant | packages/lwdita-ast/utils.ts:63-68 | the order in which validators are tried does not change the verdict |
| FieldValidation.OnlyListedFieldsMatter | packages/lwdita-ast/utils.ts:61-64 | properties not named in the field list never change the verdict |
| XmlVisitor.IndentationWrapsCompactText | packages/lwdita-xml/visitor.ts:59-62 | with `indent`, the text is two spaces per depth level, then the unindented text, then `\n`; without it there is neither prefix nor suffix |
| XmlVisitor.SelfClosingLayout | packages/lwdita-xml/visitor.ts:64-67 | a self-closing tag is `<t`, then ` key="value"` per truthy attribute, then `/>`; being self-closing takes precedence over `isStartTag` |
| XmlVisitor.StartTagLayout | packages/lwdita-xml/visitor.ts:69-72 | a start tag is `<t`, then ` key="value"` per truthy attribute, then `>` |
| XmlVisitor.EndTagLayout | packages/lwdita-xml/visitor.ts:74-77 | an end tag is `</t>` and never shows its attributes |
| XmlVisitor.FalsyAttributesIgnored | packages/lwdita-xml/visitor.ts:53-57 | dropping the attributes with falsy values leaves the text unchanged |
| XmlVisitor.Visitor.constructor | packages/lwdita-xml/visitor.ts:98-101 | the visitor starts with the given output list and an empty stack |
| XmlVisitor.Visitor.Visit | packages/lwdita-xml/visitor.ts:108-110 | the tag is appended and the stack is untouched |
| XmlVisitor.Visitor.StartTag | packages/lwdita-xml/visitor.ts:122-136 | exactly one tag with the given fields is appended and its name is pushed |
| XmlVisitor.Visitor.EndTag | packages/lwdita-xml/visitor.ts:146-158 | the innermost name is popped; a tag with that name (`undefined` on an empty stack) and no attributes is appended |
| XmlVisitor.Visitor.SelfClosingTag | packages/lwdita-xml/visitor.ts:170-182 | one tag is appended and the stack is untouched |
| XmlVisitor.AppendOnly | packages/lwdita-xml/visitor.ts:108-182 | every call appends exactly one tag, and earlier entries never change |
| XmlVisitor.StackDiscipline | packages/lwdita-xml/visitor.ts:130-157 | when no prefix closes more than it opened, the old stack stays underneath, and the stack grows by opens minus closes |
| XmlVisitor.EndClosesMatchingStart | packages/lwdita-xml/visitor.ts:152-157 | a close that follows a start and a balanced inner sequence emits the start's name, and restores the stack: closes come in LIFO order |
| XditaSerialization.XditaSerializer.constructor | packages/lwdita-xdita/xdita-serializer.ts:24-33 | a `\t` indentation forces `tabSize` to 1, otherwise the given `tabSize` is kept; depth starts at 0 (the line end is the class constant `\n`) |
| XditaSerialization.XditaSerializer.SerializeIndentation | packages/lwdita-xdita/xdita-serializer.ts:38-42 | emits `indentation` repeated `depth*tabSize` times iff indenting; otherwise nothing |
| XditaSerialization.XditaSerializer.SerializeEOL | packages/lwdita-xdita/xdita-serializer.ts:47-51 | emits `\n` iff indenting; otherwise nothing |
| XditaSerialization.XditaSerializer.SerializeAttributes | packages/lwdita-xdita/xdita-serializer.ts:58-69 | emits exactly one string, the attribute text of the properties |
| XditaSerialization.AttributesLayout | packages/lwdita-xdita/xdita-serializer.ts:58-69 | the attribute text is ` key="value"` for each truthy property, in key order, separated by single spaces; it is empty iff no value is truthy |
| XditaSerialization.XditaSerializer.SerializeText | packages/lwdita-xdita/xdita-serializer.ts:76-81 | emits `String(content)` iff the content is truthy |
| XditaSerialization.XditaSerializer.Serialize | packages/lwdita-xdita/xdita-serializer.ts:88-125 | appends exactly the node's serialization at the entry depth, and leaves `depth` as it found it |
| XditaSerialization.XditaSerializer.SerializeElement | packages/lwdita-xdita/xdita-serializer.ts:95-123 | an element appends indentation, `<name`, its attribute text, its content and an EOL, and leaves `depth` as it found it |
| XditaSerialization.XditaSerializer.SerializeContent | packages/lwdita-xdita/xdita-serializer.ts:106-121 | with children: `>`, an EOL, the children one level deeper, indentation and `</name>`; without: `/>`; `depth` is restored |
| XditaSerialization.XditaSerializer.SerializeChildren | packages/lwdita-xdita/xdita-serializer.ts:91-113 | the children are serialized in stored order at the current depth, and `depth` is restored |
| XditaSerialization.CompactOutput | packages/lwdita-xdita/xdita-serializer.ts:88-125 | without indentation, the output text equals an independent markup rendering: `<name attrs>children</name>` when there are children, `<name attrs/>` when there are none, and truthy text verbatim |
| XditaSerialization.FramedByIndentAndEol | packages/lwdita-xdita/xdita-serializer.ts:94-124 | every non-document node, text included, starts with indentation and ends with an EOL |
| XditaSerialization.DocumentCloses | packages/lwdita-xdita/xdita-serializer.ts:89-93 | a document emits nothing of its own, serializes its children in order, then closes the stream |
| XditaSerialization.TagsAgreeWithXmlTag | packages/lwdita-xdita/xdita-serializer.ts:103-120 | the serializer's start, self-closing and end tags are the texts that `XMLTag.toString` renders for the same name and attributes |
| Converter.TreeBuilder.constructor | packages/lwdita-xdita/converter.ts:36-48 | the state starts as one document node, a stack holding only it, and no errors |
| Converter.TreeBuilder.AddToTop | packages/lwdita-xdita/converter.ts:54-86 | when `add` succeeds, the node becomes the last child of the stack top; otherwise the state is unchanged |
| Converter.TreeBuilder.OnText | packages/lwdita-xdita/converter.ts:52-55 | the `text` handler performs exactly one builder step; a failure escapes the handler |
| Converter.TreeBuilder.OnOpenTag | packages/lwdita-xdita/converter.ts:83-91 | the `opentag` handler performs exactly one builder step; a failure is caught |
| Converter.TreeBuilder.OnCloseTag | packages/lwdita-xdita/converter.ts:94-96 | the `closetag` handler performs exactly one builder step |
| Converter.TreeBuilder.OnError | packages/lwdita-xdita/converter.ts:107-109 | the `error` handler performs exactly one builder step |
| Converter.StepPreservesWellFormed | packages/lwdita-xdita/converter.ts:48-109 | every handler keeps node 0 the document, each child index after its parent's and inside the arena, and the stack an increasing list of existing nodes |
| Converter.StepPreservesTree | packages/lwdita-xdita/converter.ts:48-109 | every handler keeps the arena a tree rooted at the document: each other node occurs in exactly one children list, once, and the stack is a path from the document down, each entry a child of the one before |
| Converter.AttachKeepsTree | packages/lwdita-xdita/converter.ts:52-91 | adding a node under the stack top keeps the tree invariant, whether or not the new node is then pushed |
| Converter.Run | packages/lwdita-xdita/converter.ts:52-112 | the state after any event sequence is well formed |
| Converter.RunIsTree | packages/lwdita-xdita/converter.ts:44-112 | the state after any event sequence is a tree rooted at the document, with the stack a path from the root |
| Converter.Dispatch | packages/lwdita-xdita/converter.ts:52-109 | each parser event is handed to its own handler, which performs exactly the builder step of that event |
| Converter.Feed | packages/lwdita-xdita/converter.ts:112 | delivering the next event turns the state of a prefix of the events into the state of the prefix one event longer |
| Converter.WriteAll | packages/lwdita-xdita/converter.ts:112 | delivering every event in order, from the initial state, leaves the builder in the state of the whole run |
| Converter.TreeBuilder.Settle | packages/lwdita-xdita/converter.ts:99-105 | the `end` handler rejects with the errors when there are some and `abortOnError` is set, and otherwise resolves with the document; a handler that threw earlier has already settled the promise |
| Converter.XditaToAst | packages/lwdita-xdita/converter.ts:34-114 | the loop over the events settles exactly as the `end` handler does on the folded state |
| Converter.TextStep | packages/lwdita-xdita/converter.ts:52-55 | a `text` event adds one new, childless node as the last child of the stack top, keeps the top's data, changes no other node and leaves the stack and errors unchanged; it throws iff creation or `add` fails or the stack is empty |
| Converter.OpenTagStep | packages/lwdita-xdita/converter.ts:83-91 | a successful `opentag` adds one new, childless node under the old top, keeping the top's data and every other node, and pushes it, so the stack grows by one; on failure nothing changes, and no error is recorded |
| Converter.CloseTagStep | packages/lwdita-xdita/converter.ts:94-96 | a `closetag` pops exactly one entry, whatever node is on top |
| Converter.ErrorsCollected | packages/lwdita-xdita/converter.ts:107-109 | unless a handler threw, the error list holds every `error` event, in order, and later events are still processed |
| Converter.OutcomeOfParse | packages/lwdita-xdita/converter.ts:99-105 | the promise rejects with the errors iff there are some and `abortOnError` is set; otherwise it resolves with the document |
| Converter.SkippedOpenTagPopsParent | packages/lwdita-xdita/converter.ts:84-96 | after a skipped open tag, its close pops the enclosing element, and later text attaches to the document |
| Converter.ExampleTree | packages/lwdita-xdita/converter.ts:45-96 | a concrete run builds the expected document tree |
| Converter.TextAfterEmptyStackThrows | packages/lwdita-xdita/converter.ts:52-96 | once the document itself has been popped, a later text event throws and the parse settles as thrown |
| Converter.SerializeToXdita | packages/lwdita-xdita/converter.ts:159-173 | the returned text is the stream text of the serialization at depth 0 under the chosen settings |
| Converter.IndentationChoice | packages/lwdita-xdita/converter.ts:162-169 | `\t` selects tab indentation with one tab per level; any other non-empty string selects indentation with `tabSize` defaulting to 4 when absent or 0; an absent or empty string selects no indentation |
| Converter.UnindentedText | packages/lwdita-xdita/converter.ts:167-172 | without an indentation string, the text is the tree's markup on one line |
| NodeTraits.IsValidSizeField | src/nodes/size.ts:26-32 | valid iff the field is `width` or `height` and the value is an NMTOKEN or absent |
| NodeTraits.SizeFieldsValid | src/nodes/size.ts:9-44 | `areFieldsValid` over `['width','height']` holds iff both values are NMTOKEN or absent |
| NodeTraits.IsSizeNode | src/nodes/size.ts:43-44 | holds iff the value is an object whose `width` and `height` both validate |
| NodeTraits.IsValidDisplayField | src/nodes/display.ts:28-35 | `scale`, `frame` and `expanse` are each checked by their own predicate, or are absent; any other field is rejected |
| NodeTraits.DisplayFieldsValid | src/nodes/display.ts:9-47 | `areFieldsValid` over `['scale','frame','expanse']` holds iff all three pass their checks |
| NodeTraits.IsDisplayNode | src/nodes/display.ts:46-47 | holds iff the value is an object whose three display fields validate |
| NodeTraits.IsValidFnReuseField | src/nodes/fn-reuse.ts:25-30 | valid iff the field is `conref` and the value is CDATA or absent |
| NodeTraits.IsFnReuseNode | src/nodes/fn-reuse.ts:8-42 | holds iff the value is an object whose `conref` validates |
| NodeTraits.ValidatorsRejectUnlisted | src/nodes/size.ts:30 | a name outside the three field lists is rejected by all three validators |
| NodeTraits.AbsentFieldsValid | src/nodes/size.ts:43-44 | an object with none of the fields set satisfies all three node predicates |
| NodeTraits.PropertyNode.WriteProp | src/nodes/size.ts:60-68 | the written key reads back the new value, every other key reads as before, and a bag with distinct keys keeps them distinct |
| Js.WrittenKeepsUniqueKeys | src/nodes/size.ts:60-62 | writing a property into a bag whose keys are distinct, as an object's own keys are, leaves them distinct |
| NodeTraits.PropertyNode.SetWidth | src/nodes/size.ts:60-62 | the `width` setter writes the `width` entry through `writeProp`: the entry keeps its place, or is added last when new, and no other entry changes |
| NodeTraits.PropertyNode.SetHeight | src/nodes/size.ts:66-68 | the `height` setter writes the `height` entry through `writeProp`: the entry keeps its place, or is added last when new, and no other entry changes |
| NodeTraits.PropertyNode.SetScale | src/nodes/display.ts:63-65 | the `scale` setter writes the `scale` entry through `writeProp`: the entry keeps its place, or is added last when new, and no other entry changes |
| NodeTraits.PropertyNode.SetFrame | src/nodes/display.ts:69-71 | the `frame` setter writes the `frame` entry through `writeProp`: the entry keeps its place, or is added last when new, and no other entry changes |
| NodeTraits.PropertyNode.SetExpanse | src/nodes/display.ts:75-77 | the `expanse` setter writes the `expanse` entry through `writeProp`: the entry keeps its place, or is added last when new, and no other entry changes |
| NodeTraits.PropertyNode.SetConref | src/nodes/fn-reuse.ts:58-60 | the `conref` setter writes the `conref` entry through `writeProp`: the entry keeps its place, or is added last when new, and no other entry changes |
| NodeTraits.PropertyNode.SetType | src/nodes/note.ts:68-70 | the `type` setter writes the `type` entry through `writeProp`: the entry keeps its place, or is added last when new, and no other entry changes |
| NodeTraits.PropertyNode.SetClass | src/nodes/prolog.ts:63-65 | the `class` setter writes the `class` entry through `writeProp`: the entry keeps its place, or is added last when new, and no other entry changes |
| NodeTraits.SizeAfterWrites | src/nodes/size.ts:43-68 | after writing `width` and `height`, the object is a size node iff both written values validate |
| NodeDeclarations.AnyOf | src/nodes/xref.ts:29-33 | a left-to-right short-circuit OR of validators accepts iff one of them accepts |
| NodeDeclarations.IsNode | src/nodes/xref.ts:44-45 | `isXNode` holds iff the value is an object and the declared validator accepts every declared field |
| NodeDeclarations.OrOfValidators | packages/lwdita-ast/utils.ts:60-74 | passing the ORed validator to `areFieldsValid` gives the same verdict as passing the trait validators themselves |
| NodeDeclarations.IsNodeOfTraits | src/nodes/sthead.ts:13-19 | a declaration whose validator ORs some trait validators accepts exactly the objects that `areFieldsValid` accepts with those validators |
| NodeDeclarations.NoteNodeValid | src/nodes/note.ts:13-52 | `isNoteNode` holds iff the value is an object and every note field is accepted by a trait validator or by the `type` case |
| NodeDeclarations.NoteTypeField | src/nodes/note.ts:36-39 | when no trait accepts a field, it is valid only as `type` holding CDATA or nothing |
| NodeDeclarations.NoteContentModel | src/nodes/note.ts:84-86 | `note` holds any number of `simple-blocks` group members |
| NodeDeclarations.PrologNodeValid | src/nodes/prolog.ts:11-47 | `isPrologNode` holds iff the value is an object and every prolog field is accepted by Filters, by Localization or by the `class` case |
| NodeDeclarations.PrologClassField | src/nodes/prolog.ts:31-34 | when neither trait accepts a field, it is valid only as `class` holding CDATA or nothing |
| NodeDeclarations.PrologContentModel | src/nodes/prolog.ts:87-89 | `prolog` holds any number of `data` group members |
| NodeDeclarations.ImageNodeValid | src/nodes/image.ts:15-66 | `isImageNode` holds iff the value is an object and each of the six traits' fields is accepted by one of the six trait validators |
| NodeDeclarations.IsImageNodes | src/nodes/image.ts:35-42 | `isImageNodes` holds only for objects |
| NodeDeclarations.ImageNodesIsImageNode | src/nodes/image.ts:35-66 | an object that satisfies all six trait predicates satisfies `isImageNode` |
| NodeDeclarations.ImageContentModel | src/nodes/image.ts:93 | `image` holds at most one `alt` |
| NodeDeclarations.XRefNodeValid | src/nodes/xref.ts:14-45 | `isXRefNode` holds iff the value is an object and every field is accepted by one of the five trait validators |
| NodeDeclarations.SuperscriptNodeValid | src/nodes/superscript.ts:18-47 | `isSuperscriptNode` holds iff the value is an object and every field is accepted by the VariableContent, Localization or Class validator |
| NodeDeclarations.ItalicNodeValid | src/nodes/italic.ts:11-20 | `isItalicNode` holds iff the value is an object and every field is accepted by one of the three trait validators |
| NodeDeclarations.StHeadNodeValid | src/nodes/sthead.ts:9-19 | `isStHeadNode` holds iff the value is an object and every field is accepted by one of the four trait validators |
| NodeDeclarations.StRowNodeValid | src/nodes/strow.ts:9-19 | `isStRowNode` holds iff the value is an object and every field is accepted by one of the four trait validators |
| NodeDeclarations.DescNodeValid | src/nodes/desc.ts:8-17 | `isDescNode` holds iff the value is an object and every field is accepted by one of the three trait validators |
| NodeDeclarations.MediaLoopNodeValid | src/nodes/media-loop.ts:13-42 | `isMediaLoopNode` holds iff the value is an object and every field is accepted by the Localization, BooleanField or Class validator |
| NodeDeclarations.SimpleTableNodeValid | packages/lwdita-ast/nodes/simple-table.ts:31-61 | `isSimpleTableNode` holds iff the value is an object and every field is accepted by one of the four trait validators |
| NodeDeclarations.DlEntryNodeValid | packages/lwdita-ast/nodes/dl-entry.ts:14-44 | `isDlEntryNode` holds iff the value is an object and every field is accepted by one of the four trait validators |
| NodeDeclarations.BodyNodeValid | packages/lwdita-ast/nodes/body.ts:11-39 | `isBodyNode` holds iff the value is an object and every field is accepted by the Localization or Class validator |
| NodeDeclarations.TestedFieldLists | src/nodes/superscript.spec.ts:3-5 | with the trait lists the node tests expect, `sup` declares exactly `dir, xml:lang, translate, keyref, outputclass, class`, and `body` the same without `keyref` |
| NodeDeclarations.TokensOf | packages/lwdita-ast/utils.ts:190-213 | an array of plain tokens, each written from a descriptor, parses back to those descriptors |
| NodeDeclarations.XRefContentModel | src/nodes/xref.ts:67 | `xref` holds any number of `common-inline` group members |
| NodeDeclarations.DescContentModel | src/nodes/desc.ts:23 | `desc` holds any number of `common-inline` group members |
| NodeDeclarations.SuperscriptContentModel | src/nodes/superscript.ts:69 | `sup` holds any number of `all-inline` group members |
| NodeDeclarations.ItalicContentModel | src/nodes/italic.ts:26 | `i` holds any number of `all-inline` group members |
| NodeDeclarations.StHeadContentModel | src/nodes/sthead.ts:25 | `sthead` holds one or more `stentry`: required, not single |
| NodeDeclarations.StRowContentModel | src/nodes/strow.ts:25 | `strow` holds any number of `stentry` |
| NodeDeclarations.SimpleTableContentModel | packages/lwdita-ast/nodes/simple-table.ts:83-85 | `simpletable` holds an optional single `sthead`, then one or more `strow` |
| NodeDeclarations.DlEntryContentModel | packages/lwdita-ast/nodes/dl-entry.ts:71-73 | `dlentry` holds exactly one `dt` and exactly one `dd` |
| NodeDeclarations.BodyContentModel | packages/lwdita-ast/nodes/body.ts:61-63 | `body` holds any number of `list-blocks` members, `section`s and `fn`s |
| LwditaImage.ImageNode.IsValidField | src/lwdita/nodes/image.ts:37-50 | `height` and `width` are valid iff NMTOKEN or absent; `props`, `dir`, `xml:lang`, `translate`, `keyref`, `outputClass` and `className` are valid iff CDATA or absent; any other field is rejected |
| LwditaImage.ImageNode.constructor | src/lwdita/nodes/image.ts:51-54 | the node's properties are the converted attributes |
| LwditaImage.FieldListShape | src/lwdita/nodes/image.ts:26-36 | the field list has nine entries, repeats `dir`, and omits `props`, which the validator still accepts |
| LwditaImage.FieldsValidIff | src/lwdita/nodes/image.ts:26-50 | validating the field list checks the two sizes as NMTOKEN and the six other distinct names as CDATA |
| LwditaImage.IsImageAttributes | src/lwdita/nodes/image.ts:14-21 | `isImageAttributes` holds only for objects |
| LwditaImage.AttributesAgreeWithFields | src/lwdita/nodes/image.ts:14-47 | what `isImageAttributes` demands of `outputClass` and `className` is what `isValidField` demands |
| LwditaImage.ExactlyOneAlt | src/lwdita/nodes/image.ts:23-24 | `['alt']` has no quantifier, so a light-weight DITA image holds exactly one `alt`, required and single |

## Left out

- **XML tokenizer.** The saxes tokenizer is foreign code. The tree builder takes the sequence of events it would fire instead, and `end` is taken to follow the last event.
- **Promise plumbing.** The Promise wrapper becomes the `Outcome` datatype. `xditaToJdita` (a `then` chain) and `astToJdita` are not modelled: the latter returns `BaseNode.json`, which is not part of this model.
- **Logging.** The `console.log` in the `opentag` handler is output only.
- **Unseen node code.** `createNode`, `BaseNode.add` (with its content-model check), `getProps`, `json` and the output-stream classes are not part of this model:
  - `createNode` and `add` are parameters that may fail;
  - the stream is a list of emit/close operations;
  - `getText` is the concatenation of what was emitted.
- **Unseen traits and primitives.** The trait validators, trait field lists, trait node predicates and primitive checks are not part of this model and become parameters. The trait node predicates used by `isImageNodes` are assumed to have the shape of `isSizeNode`.
- **Decorators and mixins.** `makeComponent`, `makeAll` and the `class extends constructor` mixins are reduced to a registration record per node, plus one accessor class holding the getters and setters.
- **`readProp` and `writeProp`.** These are taken to be a plain read and write of the node's property bag.
- **JavaScript numbers.** `Num` holds an integer, so fractions, NaN, ±Infinity, -0, the rounding of integers above 2^53 and the exponent form of `String` (`1e+21`) are not modelled. This affects the truthiness filter and `${value}` of attribute texts, `serializeText` and `tabSize ? tabSize : 4` only for such values.
- **JavaScript values.** `null`, `typeof` checks on non-objects and the `as unknown as ChildTypes[]` cast are not modelled. `Candidate` distinguishes only objects from other values.
- **Object key order.** Property bags keep insertion order. JavaScript's rule that integer-like keys are listed first is not modelled.
- **Degenerate tokens.** Strings such as a `(` with no `)` are parsed by the same slicing steps as the source, counted in code points (see the next line). No property is claimed about them.
- **UTF-16 code units.** Strings are modelled as sequences of Unicode code points, while JavaScript's `slice`, `indexOf` and `length` count UTF-16 code units. The two agree except when a cut falls next to a character outside the Basic Multilingual Plane; in the content-model parser that only happens in degenerate parenthesised tokens such as `(a|😀`, where the source's `slice(1, -1)` splits a surrogate pair and the model drops the whole character.
- **XmlVisitor.Visitor.StartTag:** the default values of the boolean parameters are not modelled (every caller passes them all). The same holds for `EndTag` and `SelfClosingTag`.
- **XmlVisitor.Visitor.constructor:** the output list is a value, so aliasing of the caller's array is not modelled.
- **XmlVisitor.XmlTag:** `depth` is a natural number, so the RangeError that `repeat` throws for a negative depth when `indent` is set (`visitor.ts:59-62`) is not modelled. The same holds for the `depth` parameters of `StartTag`, `EndTag` and `SelfClosingTag`.
- **XditaSerialization.XditaSerializer.constructor:** `tabSize` and `depth` are natural numbers, so a negative `tabSize` is not modelled.
- **NodeDeclarations.IsImageNodes:** its contract says only that it holds for objects. Its relation to `isImageNode` is stated by `ImageNodesIsImageNode`. The converse does not hold in general, because one trait's validator may accept another trait's field.
- **LwditaImage.IsImageAttributes:** its contract says only that it holds for objects. Its agreement with `isValidField` is stated by `AttributesAgreeWithFields`. The four trait attribute guards are parameters, so nothing more can be said about them.
- **Getters.** The getters of `PropertyNode` and `LwditaImage.ImageNode` are one-line reads of the bag and carry no contract of their own. The setters' contracts state what the getters then return.
