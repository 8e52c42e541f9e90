/**
 * The node declarations built from attribute traits: `note`, `prolog`, `image`, `xref`, `sup`,
 * `i`, `sthead`, `strow`, `desc` and `media-loop` (`src/nodes/`) and `simpletable`, `dlentry`
 * and `body` (`packages/lwdita-ast/nodes/`). Each one concatenates trait field lists, ORs the
 * trait validators, checks a candidate with `areFieldsValid`, and registers a tag name, a
 * content model and a DOM name.
 */
module NodeDeclarations {
  import opened Js
  import opened FieldValidation
  import opened ContentModel
  import opened NodeTraits

  /** A trait whose code is not part of this model: its field list and its `isValidXField`. */
  datatype Trait = Trait(fields: seq<string>, validator: Validator)

  /**
   * The traits the declarations import: `filters`, `localization`, `reuse`, `class`,
   * `variable-content`, `reference-content` and the boolean `field` trait of `media-loop`.
   */
  datatype TraitLibrary = TraitLibrary(
    filters: Trait,
    localization: Trait,
    reuse: Trait,
    classAttributes: Trait,
    variableContent: Trait,
    referenceContent: Trait,
    booleanField: Trait)

  /** What `@makeComponent(…)` and `static domNodeName` register; `None` where nothing is passed. */
  datatype Registration = Registration(
    tag: string,
    fields: seq<string>,
    validator: Validator,
    childTypes: Option<seq<string>>,
    domNodeName: Option<string>)

  /** `v0(field, value) || v1(field, value) || …`, evaluated left to right. */
  function AnyOf(vs: seq<Validator>, field: string, value: BasicValue): (r: bool)
    ensures r <==> exists j :: 0 <= j < |vs| && vs[j](field, value)
  {
    if vs == [] then false
    else if vs[0](field, value) then true
    else
      var rest := AnyOf(vs[1..], field, value);
      assert rest <==> exists j :: 1 <= j < |vs| && vs[j](field, value) by {
        if rest {
          var j :| 0 <= j < |vs[1..]| && vs[1..][j](field, value);
          assert vs[j + 1](field, value);
        }
      }
      rest
  }

  /** The validator `(field, value) => v0(field, value) || v1(field, value) || …`. */
  function Or(vs: seq<Validator>): Validator {
    (field: string, value: BasicValue) => AnyOf(vs, field, value)
  }

  /** A one-case `switch`: `name` takes CDATA or nothing; every other name is rejected. */
  function CdataField(p: Primitives, name: string): Validator {
    (field: string, value: BasicValue) => field == name && IsOrUndefined(p.isCDATA, value)
  }

  /** `isXNode(value)`: an object whose declared fields all pass the declared validator. */
  function IsNode(reg: Registration, value: Candidate): (r: bool)
    ensures r <==> (value.Object?
                    && forall i :: 0 <= i < |reg.fields| ==> reg.validator(reg.fields[i], Lookup(value.bag, reg.fields[i])))
  {
    value.Object? && (SingleValidator(reg.fields, value.bag, reg.validator);
                      FieldsValid(reg.fields, value.bag, [reg.validator]))
  }

  /** The node predicate of a trait (`isClassNode`, `isFiltersNode`, …), of the same shape as `isSizeNode`. */
  function IsTraitNode(t: Trait, value: Candidate): (r: bool)
    ensures r <==> value.Object? && FieldsValid(t.fields, value.bag, [t.validator])
  {
    value.Object? && FieldsValid(t.fields, value.bag, [t.validator])
  }

  /**
   * Passing the ORed validator to `areFieldsValid` is the same as passing the trait
   * validators themselves: each field must be accepted by one of them.
   */
  lemma OrOfValidators(fields: seq<string>, bag: PropertyBag, vs: seq<Validator>)
    ensures FieldsValid(fields, bag, [Or(vs)]) <==> FieldsValid(fields, bag, vs)
  {
    SingleValidator(fields, bag, Or(vs));
    forall i | 0 <= i < |fields|
      ensures Or(vs)(fields[i], Lookup(bag, fields[i])) <==> FieldAccepted(fields[i], bag, vs)
    {
    }
  }

  /** A registration whose validator ORs `vs` accepts exactly the objects `areFieldsValid(fields, value, ...vs)` accepts. */
  lemma IsNodeOfTraits(reg: Registration, vs: seq<Validator>, value: Candidate)
    requires reg.validator == Or(vs)
    ensures IsNode(reg, value) <==> value.Object? && FieldsValid(reg.fields, value.bag, vs)
  {
    if value.Object? {
      SingleValidator(reg.fields, value.bag, reg.validator);
      OrOfValidators(reg.fields, value.bag, vs);
    }
  }

  /** Fields valid under one validator stay valid when more validators are ORed in. */
  lemma Widen(fields: seq<string>, bag: PropertyBag, vs: seq<Validator>, j: nat)
    requires j < |vs| && FieldsValid(fields, bag, [vs[j]])
    ensures FieldsValid(fields, bag, vs)
  {
    forall i | 0 <= i < |fields| ensures FieldAccepted(fields[i], bag, vs) {
      assert FieldAccepted(fields[i], bag, [vs[j]]);
      assert [vs[j]][0] == vs[j];
    }
  }

  // ---------------------------------------------------------------- the declarations

  function NoteNode(lib: TraitLibrary, p: Primitives): Registration {
    Registration("note",
      lib.filters.fields + lib.localization.fields + lib.reuse.fields + lib.classAttributes.fields + ["type"],
      Or([lib.filters.validator, lib.localization.validator, lib.reuse.validator, lib.classAttributes.validator,
          CdataField(p, "type")]),
      Some(["%simple-blocks*"]), Some("div"))
  }

  function PrologNode(lib: TraitLibrary, p: Primitives): Registration {
    Registration("prolog",
      lib.filters.fields + lib.localization.fields + ["class"],
      Or([lib.filters.validator, lib.localization.validator, CdataField(p, "class")]),
      Some(["%data*"]), Some(""))
  }

  function ImageNode(lib: TraitLibrary, p: Primitives): Registration {
    Registration("image",
      lib.filters.fields + lib.localization.fields + lib.variableContent.fields
        + lib.referenceContent.fields + lib.classAttributes.fields + SizeFields,
      Or([lib.localization.validator, lib.classAttributes.validator, lib.referenceContent.validator,
          lib.filters.validator, lib.variableContent.validator, SizeValidator(p)]),
      Some(["alt?"]), None)
  }

  function XRefNode(lib: TraitLibrary): Registration {
    Registration("xref",
      lib.filters.fields + lib.localization.fields + lib.classAttributes.fields
        + lib.referenceContent.fields + lib.variableContent.fields,
      Or([lib.filters.validator, lib.localization.validator, lib.classAttributes.validator,
          lib.referenceContent.validator, lib.variableContent.validator]),
      Some(["%common-inline*"]), Some("a"))
  }

  function SuperscriptNode(lib: TraitLibrary): Registration {
    Registration("sup",
      lib.localization.fields + lib.variableContent.fields + lib.classAttributes.fields,
      Or([lib.variableContent.validator, lib.localization.validator, lib.classAttributes.validator]),
      Some(["%all-inline*"]), Some("sup"))
  }

  function ItalicNode(lib: TraitLibrary): Registration {
    Registration("i",
      lib.localization.fields + lib.variableContent.fields + lib.classAttributes.fields,
      Or([lib.variableContent.validator, lib.localization.validator, lib.classAttributes.validator]),
      Some(["%all-inline*"]), Some("i"))
  }

  function StHeadNode(lib: TraitLibrary): Registration {
    Registration("sthead",
      lib.filters.fields + lib.localization.fields + lib.reuse.fields + lib.classAttributes.fields,
      Or([lib.filters.validator, lib.localization.validator, lib.reuse.validator, lib.classAttributes.validator]),
      Some(["stentry+"]), Some("thead"))
  }

  function StRowNode(lib: TraitLibrary): Registration {
    Registration("strow",
      lib.filters.fields + lib.localization.fields + lib.reuse.fields + lib.classAttributes.fields,
      Or([lib.filters.validator, lib.localization.validator, lib.reuse.validator, lib.classAttributes.validator]),
      Some(["stentry*"]), Some("tr"))
  }

  function DescNode(lib: TraitLibrary): Registration {
    Registration("desc",
      lib.filters.fields + lib.localization.fields + lib.classAttributes.fields,
      Or([lib.filters.validator, lib.localization.validator, lib.classAttributes.validator]),
      Some(["%common-inline*"]), Some("caption"))
  }

  function MediaLoopNode(lib: TraitLibrary): Registration {
    Registration("media-loop",
      lib.localization.fields + lib.booleanField.fields + lib.classAttributes.fields,
      Or([lib.localization.validator, lib.booleanField.validator, lib.classAttributes.validator]),
      None, None)
  }

  function SimpleTableNode(lib: TraitLibrary): Registration {
    Registration("simpletable",
      lib.filters.fields + lib.localization.fields + lib.reuse.fields + lib.classAttributes.fields,
      Or([lib.filters.validator, lib.localization.validator, lib.reuse.validator, lib.classAttributes.validator]),
      Some(["sthead?", "strow+"]), Some("table"))
  }

  function DlEntryNode(lib: TraitLibrary): Registration {
    Registration("dlentry",
      lib.filters.fields + lib.localization.fields + lib.reuse.fields + lib.classAttributes.fields,
      Or([lib.filters.validator, lib.localization.validator, lib.reuse.validator, lib.classAttributes.validator]),
      Some(["dt", "dd"]), Some(""))
  }

  function BodyNode(lib: TraitLibrary): Registration {
    Registration("body",
      lib.localization.fields + lib.classAttributes.fields,
      Or([lib.localization.validator, lib.classAttributes.validator]),
      Some(["%list-blocks*", "section*", "fn*"]), Some("div"))
  }

  // ---------------------------------------------------------------- field validity

  /** `isNoteNode`: every note field is accepted by a trait validator or, for `type`, is CDATA or absent. */
  lemma NoteNodeValid(lib: TraitLibrary, p: Primitives, value: Candidate)
    ensures IsNode(NoteNode(lib, p), value) <==> value.Object? && FieldsValid(NoteNode(lib, p).fields, value.bag,
      [lib.filters.validator, lib.localization.validator, lib.reuse.validator, lib.classAttributes.validator,
       CdataField(p, "type")])
  {
    IsNodeOfTraits(NoteNode(lib, p), [lib.filters.validator, lib.localization.validator, lib.reuse.validator,
      lib.classAttributes.validator, CdataField(p, "type")], value);
  }

  /** The trailing `type` case: a name no trait accepts passes only as `type` holding CDATA or nothing. */
  lemma NoteTypeField(lib: TraitLibrary, p: Primitives, field: string, value: BasicValue)
    requires !lib.filters.validator(field, value) && !lib.localization.validator(field, value)
    requires !lib.reuse.validator(field, value) && !lib.classAttributes.validator(field, value)
    ensures NoteNode(lib, p).validator(field, value) <==> field == "type" && IsOrUndefined(p.isCDATA, value)
  {
    var vs := [lib.filters.validator, lib.localization.validator, lib.reuse.validator,
               lib.classAttributes.validator, CdataField(p, "type")];
    assert AnyOf(vs, field, value) <==> vs[4](field, value);
  }

  lemma PrologNodeValid(lib: TraitLibrary, p: Primitives, value: Candidate)
    ensures IsNode(PrologNode(lib, p), value) <==> value.Object? && FieldsValid(PrologNode(lib, p).fields, value.bag,
      [lib.filters.validator, lib.localization.validator, CdataField(p, "class")])
  {
    IsNodeOfTraits(PrologNode(lib, p), [lib.filters.validator, lib.localization.validator, CdataField(p, "class")], value);
  }

  /** The trailing `class` case: a name neither trait accepts passes only as `class` holding CDATA or nothing. */
  lemma PrologClassField(lib: TraitLibrary, p: Primitives, field: string, value: BasicValue)
    requires !lib.filters.validator(field, value) && !lib.localization.validator(field, value)
    ensures PrologNode(lib, p).validator(field, value) <==> field == "class" && IsOrUndefined(p.isCDATA, value)
  {
    var vs := [lib.filters.validator, lib.localization.validator, CdataField(p, "class")];
    assert AnyOf(vs, field, value) <==> vs[2](field, value);
  }

  lemma ImageNodeValid(lib: TraitLibrary, p: Primitives, value: Candidate)
    ensures IsNode(ImageNode(lib, p), value) <==> value.Object? && FieldsValid(ImageNode(lib, p).fields, value.bag,
      [lib.localization.validator, lib.classAttributes.validator, lib.referenceContent.validator,
       lib.filters.validator, lib.variableContent.validator, SizeValidator(p)])
  {
    IsNodeOfTraits(ImageNode(lib, p), [lib.localization.validator, lib.classAttributes.validator,
      lib.referenceContent.validator, lib.filters.validator, lib.variableContent.validator, SizeValidator(p)], value);
  }

  /** `isImageNodes`: the conjunction of the six trait node predicates. */
  function IsImageNodes(lib: TraitLibrary, p: Primitives, value: Candidate): (r: bool)
    ensures r ==> value.Object?
  {
    && IsTraitNode(lib.classAttributes, value)
    && IsTraitNode(lib.filters, value)
    && IsTraitNode(lib.localization, value)
    && IsTraitNode(lib.referenceContent, value)
    && IsTraitNode(lib.variableContent, value)
    && IsSizeNode(p, value)
  }

  /** An object that satisfies each trait's own predicate satisfies `isImageNode`. */
  lemma ImageNodesIsImageNode(lib: TraitLibrary, p: Primitives, value: Candidate)
    requires IsImageNodes(lib, p, value)
    ensures IsNode(ImageNode(lib, p), value)
  {
    var bag := value.bag;
    var vs := [lib.localization.validator, lib.classAttributes.validator, lib.referenceContent.validator,
               lib.filters.validator, lib.variableContent.validator, SizeValidator(p)];
    Widen(lib.filters.fields, bag, vs, 3);
    Widen(lib.localization.fields, bag, vs, 0);
    Widen(lib.variableContent.fields, bag, vs, 4);
    Widen(lib.referenceContent.fields, bag, vs, 2);
    Widen(lib.classAttributes.fields, bag, vs, 1);
    assert IsSizeNode(p, value);
    SizeFieldsValid(p, bag);
    Widen(SizeFields, bag, vs, 5);
    var f1 := lib.filters.fields + lib.localization.fields;
    var f2 := f1 + lib.variableContent.fields;
    var f3 := f2 + lib.referenceContent.fields;
    var f4 := f3 + lib.classAttributes.fields;
    FieldsValidAppend(lib.filters.fields, lib.localization.fields, bag, vs);
    FieldsValidAppend(f1, lib.variableContent.fields, bag, vs);
    FieldsValidAppend(f2, lib.referenceContent.fields, bag, vs);
    FieldsValidAppend(f3, lib.classAttributes.fields, bag, vs);
    FieldsValidAppend(f4, SizeFields, bag, vs);
    ImageNodeValid(lib, p, value);
  }

  lemma XRefNodeValid(lib: TraitLibrary, value: Candidate)
    ensures IsNode(XRefNode(lib), value) <==> value.Object? && FieldsValid(XRefNode(lib).fields, value.bag,
      [lib.filters.validator, lib.localization.validator, lib.classAttributes.validator,
       lib.referenceContent.validator, lib.variableContent.validator])
  {
    IsNodeOfTraits(XRefNode(lib), [lib.filters.validator, lib.localization.validator, lib.classAttributes.validator,
      lib.referenceContent.validator, lib.variableContent.validator], value);
  }

  lemma SuperscriptNodeValid(lib: TraitLibrary, value: Candidate)
    ensures IsNode(SuperscriptNode(lib), value) <==> value.Object? && FieldsValid(SuperscriptNode(lib).fields, value.bag,
      [lib.variableContent.validator, lib.localization.validator, lib.classAttributes.validator])
  {
    IsNodeOfTraits(SuperscriptNode(lib), [lib.variableContent.validator, lib.localization.validator,
      lib.classAttributes.validator], value);
  }

  lemma ItalicNodeValid(lib: TraitLibrary, value: Candidate)
    ensures IsNode(ItalicNode(lib), value) <==> value.Object? && FieldsValid(ItalicNode(lib).fields, value.bag,
      [lib.variableContent.validator, lib.localization.validator, lib.classAttributes.validator])
  {
    IsNodeOfTraits(ItalicNode(lib), [lib.variableContent.validator, lib.localization.validator,
      lib.classAttributes.validator], value);
  }

  lemma StHeadNodeValid(lib: TraitLibrary, value: Candidate)
    ensures IsNode(StHeadNode(lib), value) <==> value.Object? && FieldsValid(StHeadNode(lib).fields, value.bag,
      [lib.filters.validator, lib.localization.validator, lib.reuse.validator, lib.classAttributes.validator])
  {
    IsNodeOfTraits(StHeadNode(lib), [lib.filters.validator, lib.localization.validator, lib.reuse.validator,
      lib.classAttributes.validator], value);
  }

  lemma StRowNodeValid(lib: TraitLibrary, value: Candidate)
    ensures IsNode(StRowNode(lib), value) <==> value.Object? && FieldsValid(StRowNode(lib).fields, value.bag,
      [lib.filters.validator, lib.localization.validator, lib.reuse.validator, lib.classAttributes.validator])
  {
    IsNodeOfTraits(StRowNode(lib), [lib.filters.validator, lib.localization.validator, lib.reuse.validator,
      lib.classAttributes.validator], value);
  }

  lemma DescNodeValid(lib: TraitLibrary, value: Candidate)
    ensures IsNode(DescNode(lib), value) <==> value.Object? && FieldsValid(DescNode(lib).fields, value.bag,
      [lib.filters.validator, lib.localization.validator, lib.classAttributes.validator])
  {
    IsNodeOfTraits(DescNode(lib), [lib.filters.validator, lib.localization.validator,
      lib.classAttributes.validator], value);
  }

  lemma MediaLoopNodeValid(lib: TraitLibrary, value: Candidate)
    ensures IsNode(MediaLoopNode(lib), value) <==> value.Object? && FieldsValid(MediaLoopNode(lib).fields, value.bag,
      [lib.localization.validator, lib.booleanField.validator, lib.classAttributes.validator])
  {
    IsNodeOfTraits(MediaLoopNode(lib), [lib.localization.validator, lib.booleanField.validator,
      lib.classAttributes.validator], value);
  }

  lemma SimpleTableNodeValid(lib: TraitLibrary, value: Candidate)
    ensures IsNode(SimpleTableNode(lib), value) <==> value.Object? && FieldsValid(SimpleTableNode(lib).fields, value.bag,
      [lib.filters.validator, lib.localization.validator, lib.reuse.validator, lib.classAttributes.validator])
  {
    IsNodeOfTraits(SimpleTableNode(lib), [lib.filters.validator, lib.localization.validator, lib.reuse.validator,
      lib.classAttributes.validator], value);
  }

  lemma DlEntryNodeValid(lib: TraitLibrary, value: Candidate)
    ensures IsNode(DlEntryNode(lib), value) <==> value.Object? && FieldsValid(DlEntryNode(lib).fields, value.bag,
      [lib.filters.validator, lib.localization.validator, lib.reuse.validator, lib.classAttributes.validator])
  {
    IsNodeOfTraits(DlEntryNode(lib), [lib.filters.validator, lib.localization.validator, lib.reuse.validator,
      lib.classAttributes.validator], value);
  }

  lemma BodyNodeValid(lib: TraitLibrary, value: Candidate)
    ensures IsNode(BodyNode(lib), value) <==> value.Object? && FieldsValid(BodyNode(lib).fields, value.bag,
      [lib.localization.validator, lib.classAttributes.validator])
  {
    IsNodeOfTraits(BodyNode(lib), [lib.localization.validator, lib.classAttributes.validator], value);
  }

  /** With the trait field lists the node tests expect, `sup` and `body` declare exactly the tested fields. */
  lemma TestedFieldLists(lib: TraitLibrary)
    requires lib.localization.fields == ["dir", "xml:lang", "translate"]
    requires lib.variableContent.fields == ["keyref"]
    requires lib.classAttributes.fields == ["outputclass", "class"]
    ensures SuperscriptNode(lib).fields == ["dir", "xml:lang", "translate", "keyref", "outputclass", "class"]
    ensures BodyNode(lib).fields == ["dir", "xml:lang", "translate", "outputclass", "class"]
  {
  }

  // ---------------------------------------------------------------- content models

  /** A list of plain tokens, each written from a descriptor, parses back to those descriptors. */
  lemma TokensOf(items: seq<string>, cs: seq<ChildType>)
    requires |items| == |cs|
    requires forall i :: 0 <= i < |cs| ==> Writable(cs[i]) && items[i] == ToToken(cs[i])
    requires forall i :: 0 <= i < |items| ==> items[i] != "" && '|' !in items[i]
    ensures StringToChildTypes(Tokens(items)) == Alt(seq(|cs|, i requires 0 <= i < |cs| => Leaf(cs[i])))
  {
    forall i | 0 <= i < |cs| ensures Denotes(items[i], cs[i]) {
      WrittenTokenDenotes(items[i], cs[i]);
    }
    Descriptors(items, cs);
  }

  /** The tokens the declarations register, each with the descriptor it denotes. */
  lemma SimpleBlocksToken() ensures Denotes("%simple-blocks*", ChildType("simple-blocks", false, false, true)) {
    WrittenTokenDenotes("%simple-blocks*", ChildType("simple-blocks", false, false, true));
  }

  lemma DataToken() ensures Denotes("%data*", ChildType("data", false, false, true)) {
    WrittenTokenDenotes("%data*", ChildType("data", false, false, true));
  }

  lemma OptionalAltToken() ensures Denotes("alt?", ChildType("alt", true, false, false)) {
    WrittenTokenDenotes("alt?", ChildType("alt", true, false, false));
  }

  lemma CommonInlineToken() ensures Denotes("%common-inline*", ChildType("common-inline", false, false, true)) {
    WrittenTokenDenotes("%common-inline*", ChildType("common-inline", false, false, true));
  }

  lemma AllInlineToken() ensures Denotes("%all-inline*", ChildType("all-inline", false, false, true)) {
    WrittenTokenDenotes("%all-inline*", ChildType("all-inline", false, false, true));
  }

  lemma StEntryPlusToken() ensures Denotes("stentry+", ChildType("stentry", false, true, false)) {
    WrittenTokenDenotes("stentry+", ChildType("stentry", false, true, false));
  }

  lemma StEntryStarToken() ensures Denotes("stentry*", ChildType("stentry", false, false, false)) {
    WrittenTokenDenotes("stentry*", ChildType("stentry", false, false, false));
  }

  lemma StHeadToken() ensures Denotes("sthead?", ChildType("sthead", true, false, false)) {
    WrittenTokenDenotes("sthead?", ChildType("sthead", true, false, false));
  }

  lemma StRowToken() ensures Denotes("strow+", ChildType("strow", false, true, false)) {
    WrittenTokenDenotes("strow+", ChildType("strow", false, true, false));
  }

  lemma DtToken() ensures Denotes("dt", ChildType("dt", true, true, false)) {
    WrittenTokenDenotes("dt", ChildType("dt", true, true, false));
  }

  lemma DdToken() ensures Denotes("dd", ChildType("dd", true, true, false)) {
    WrittenTokenDenotes("dd", ChildType("dd", true, true, false));
  }

  lemma ListBlocksToken() ensures Denotes("%list-blocks*", ChildType("list-blocks", false, false, true)) {
    WrittenTokenDenotes("%list-blocks*", ChildType("list-blocks", false, false, true));
  }

  lemma SectionToken() ensures Denotes("section*", ChildType("section", false, false, false)) {
    WrittenTokenDenotes("section*", ChildType("section", false, false, false));
  }

  lemma FnToken() ensures Denotes("fn*", ChildType("fn", false, false, false)) {
    WrittenTokenDenotes("fn*", ChildType("fn", false, false, false));
  }

  /** `note` holds any number of `simple-blocks` group members. */
  lemma NoteContentModel(lib: TraitLibrary, p: Primitives)
    ensures StringToChildTypes(Tokens(NoteNode(lib, p).childTypes.value))
         == Alt([Leaf(ChildType("simple-blocks", false, false, true))])
  {
    SimpleBlocksToken();
    OneDescriptor(NoteNode(lib, p).childTypes.value, ChildType("simple-blocks", false, false, true));
  }

  /** `prolog` holds any number of `data` group members. */
  lemma PrologContentModel(lib: TraitLibrary, p: Primitives)
    ensures StringToChildTypes(Tokens(PrologNode(lib, p).childTypes.value))
         == Alt([Leaf(ChildType("data", false, false, true))])
  {
    DataToken();
    OneDescriptor(PrologNode(lib, p).childTypes.value, ChildType("data", false, false, true));
  }

  /** `image` holds at most one `alt`. */
  lemma ImageContentModel(lib: TraitLibrary, p: Primitives)
    ensures StringToChildTypes(Tokens(ImageNode(lib, p).childTypes.value))
         == Alt([Leaf(ChildType("alt", true, false, false))])
  {
    OptionalAltToken();
    OneDescriptor(ImageNode(lib, p).childTypes.value, ChildType("alt", true, false, false));
  }

  /** `xref` holds any number of `common-inline` members. */
  lemma XRefContentModel(lib: TraitLibrary)
    ensures StringToChildTypes(Tokens(XRefNode(lib).childTypes.value))
         == Alt([Leaf(ChildType("common-inline", false, false, true))])
  {
    CommonInlineToken();
    OneDescriptor(XRefNode(lib).childTypes.value, ChildType("common-inline", false, false, true));
  }

  /** `desc` holds any number of `common-inline` members. */
  lemma DescContentModel(lib: TraitLibrary)
    ensures StringToChildTypes(Tokens(DescNode(lib).childTypes.value))
         == Alt([Leaf(ChildType("common-inline", false, false, true))])
  {
    CommonInlineToken();
    OneDescriptor(DescNode(lib).childTypes.value, ChildType("common-inline", false, false, true));
  }

  /** `sup` holds any number of `all-inline` members. */
  lemma SuperscriptContentModel(lib: TraitLibrary)
    ensures StringToChildTypes(Tokens(SuperscriptNode(lib).childTypes.value))
         == Alt([Leaf(ChildType("all-inline", false, false, true))])
  {
    AllInlineToken();
    OneDescriptor(SuperscriptNode(lib).childTypes.value, ChildType("all-inline", false, false, true));
  }

  /** `i` holds any number of `all-inline` members. */
  lemma ItalicContentModel(lib: TraitLibrary)
    ensures StringToChildTypes(Tokens(ItalicNode(lib).childTypes.value))
         == Alt([Leaf(ChildType("all-inline", false, false, true))])
  {
    AllInlineToken();
    OneDescriptor(ItalicNode(lib).childTypes.value, ChildType("all-inline", false, false, true));
  }

  /** `sthead` holds one or more `stentry`: required, not single. */
  lemma StHeadContentModel(lib: TraitLibrary)
    ensures StringToChildTypes(Tokens(StHeadNode(lib).childTypes.value))
         == Alt([Leaf(ChildType("stentry", false, true, false))])
  {
    StEntryPlusToken();
    OneDescriptor(StHeadNode(lib).childTypes.value, ChildType("stentry", false, true, false));
  }

  /** `strow` holds any number of `stentry`. */
  lemma StRowContentModel(lib: TraitLibrary)
    ensures StringToChildTypes(Tokens(StRowNode(lib).childTypes.value))
         == Alt([Leaf(ChildType("stentry", false, false, false))])
  {
    StEntryStarToken();
    OneDescriptor(StRowNode(lib).childTypes.value, ChildType("stentry", false, false, false));
  }

  /** `simpletable` holds an optional single `sthead`, then one or more `strow`. */
  lemma SimpleTableContentModel(lib: TraitLibrary)
    ensures StringToChildTypes(Tokens(SimpleTableNode(lib).childTypes.value))
         == Alt([Leaf(ChildType("sthead", true, false, false)), Leaf(ChildType("strow", false, true, false))])
  {
    StHeadToken();
    StRowToken();
    TwoDescriptors(SimpleTableNode(lib).childTypes.value, ChildType("sthead", true, false, false), ChildType("strow", false, true, false));
  }

  /** `dlentry` holds exactly one `dt` and exactly one `dd`. */
  lemma DlEntryContentModel(lib: TraitLibrary)
    ensures StringToChildTypes(Tokens(DlEntryNode(lib).childTypes.value))
         == Alt([Leaf(ChildType("dt", true, true, false)), Leaf(ChildType("dd", true, true, false))])
  {
    DtToken();
    DdToken();
    TwoDescriptors(DlEntryNode(lib).childTypes.value, ChildType("dt", true, true, false), ChildType("dd", true, true, false));
  }

  /** `body` holds any number of `list-blocks` members, `section`s and `fn`s. */
  lemma BodyContentModel(lib: TraitLibrary)
    ensures StringToChildTypes(Tokens(BodyNode(lib).childTypes.value))
         == Alt([Leaf(ChildType("list-blocks", false, false, true)), Leaf(ChildType("section", false, false, false)),
                 Leaf(ChildType("fn", false, false, false))])
  {
    ListBlocksToken();
    SectionToken();
    FnToken();
    ThreeDescriptors(BodyNode(lib).childTypes.value, ChildType("list-blocks", false, false, true),
                     ChildType("section", false, false, false), ChildType("fn", false, false, false));
  }
}
