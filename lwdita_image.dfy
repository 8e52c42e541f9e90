/**
 * The light-weight DITA `image` node class of `src/lwdita/nodes/image.ts`: static name, content
 * model, field list and field validator, the `isImageAttributes` guard, and a node object holding
 * its property bag with one read accessor per attribute.
 */
module LwditaImage {
  import opened Js
  import opened FieldValidation
  import opened ContentModel
  import opened NodeTraits

  /** The attribute guards of the four attribute traits, whose code is not part of this model. */
  datatype AttributeChecks = AttributeChecks(
    filters: PropertyBag -> bool,
    localization: PropertyBag -> bool,
    referenceContent: PropertyBag -> bool,
    variableContent: PropertyBag -> bool)

  /** `isImageAttributes`: an object with CDATA-or-absent `outputClass` and `className` that passes the four trait guards. */
  function IsImageAttributes(p: Primitives, a: AttributeChecks, value: Candidate): (r: bool)
    ensures r ==> value.Object?
  {
    && value.Object?
    && IsOrUndefined(p.isCDATA, Lookup(value.bag, "outputClass"))
    && IsOrUndefined(p.isCDATA, Lookup(value.bag, "className"))
    && a.filters(value.bag)
    && a.localization(value.bag)
    && a.referenceContent(value.bag)
    && a.variableContent(value.bag)
  }

  /** The attribute names `isValidField` checks as NMTOKEN. */
  const TokenNames: seq<string> := ["height", "width"]

  /** The attribute names `isValidField` checks as CDATA. */
  const CdataNames: seq<string> := ["props", "dir", "xml:lang", "translate", "keyref", "outputClass", "className"]

  class ImageNode {
    static const NodeName: string := "image"

    /** `childTypes`, written without a quantifier. */
    static const ChildTypeTokens: seq<string> := ["alt"]

    /** `fields`, as written: `dir` twice and no `props`. */
    static const Fields: seq<string> :=
      ["height", "width", "dir", "dir", "xml:lang", "translate", "keyref", "outputClass", "className"]

    /** `isValidField`: sizes take an NMTOKEN or nothing, the other known names CDATA or nothing; anything else fails. */
    static function IsValidField(p: Primitives, field: string, value: BasicValue): (r: bool)
      ensures r <==> ((field in TokenNames && IsOrUndefined(p.isNMTOKEN, value))
                      || (field in CdataNames && IsOrUndefined(p.isCDATA, value)))
    {
      match field
      case "height" => IsOrUndefined(p.isNMTOKEN, value)
      case "width" => IsOrUndefined(p.isNMTOKEN, value)
      case "props" => IsOrUndefined(p.isCDATA, value)
      case "dir" => IsOrUndefined(p.isCDATA, value)
      case "xml:lang" => IsOrUndefined(p.isCDATA, value)
      case "translate" => IsOrUndefined(p.isCDATA, value)
      case "keyref" => IsOrUndefined(p.isCDATA, value)
      case "outputClass" => IsOrUndefined(p.isCDATA, value)
      case "className" => IsOrUndefined(p.isCDATA, value)
      case _ => false
    }

    var props: PropertyBag

    /** `this._props = this.attributesToProps(attributes)`; the conversion is not part of this model. */
    constructor(attributes: PropertyBag, attributesToProps: PropertyBag -> PropertyBag)
      ensures props == attributesToProps(attributes)
    {
      props := attributesToProps(attributes);
    }

    function Height(): BasicValue reads this { Lookup(props, "height") }
    function Width(): BasicValue reads this { Lookup(props, "width") }
    function Props(): BasicValue reads this { Lookup(props, "props") }
    function Dir(): BasicValue reads this { Lookup(props, "dir") }
    function XmlLang(): BasicValue reads this { Lookup(props, "xml:lang") }
    function Translate(): BasicValue reads this { Lookup(props, "translate") }
    function Keyref(): BasicValue reads this { Lookup(props, "keyref") }
    function OutputClass(): BasicValue reads this { Lookup(props, "outputClass") }
    function ClassName(): BasicValue reads this { Lookup(props, "className") }
  }

  function FieldValidator(p: Primitives): Validator {
    (field: string, value: BasicValue) => ImageNode.IsValidField(p, field, value)
  }

  /** The field list has nine entries, repeats `dir`, and leaves out `props`, which `isValidField` still accepts. */
  lemma FieldListShape(p: Primitives)
    ensures |ImageNode.Fields| == 9
    ensures ImageNode.Fields[2] == ImageNode.Fields[3] == "dir"
    ensures "props" !in ImageNode.Fields
    ensures ImageNode.IsValidField(p, "props", Undefined)
  {
    assert "props" in CdataNames;
  }

  /** Validating the field list checks the sizes as NMTOKEN and the six other distinct names as CDATA. */
  lemma FieldsValidIff(p: Primitives, bag: PropertyBag)
    ensures FieldsValid(ImageNode.Fields, bag, [FieldValidator(p)]) <==>
      (&& IsOrUndefined(p.isNMTOKEN, Lookup(bag, "height"))
       && IsOrUndefined(p.isNMTOKEN, Lookup(bag, "width"))
       && IsOrUndefined(p.isCDATA, Lookup(bag, "dir"))
       && IsOrUndefined(p.isCDATA, Lookup(bag, "xml:lang"))
       && IsOrUndefined(p.isCDATA, Lookup(bag, "translate"))
       && IsOrUndefined(p.isCDATA, Lookup(bag, "keyref"))
       && IsOrUndefined(p.isCDATA, Lookup(bag, "outputClass"))
       && IsOrUndefined(p.isCDATA, Lookup(bag, "className")))
  {
    var fs := ImageNode.Fields;
    var v := FieldValidator(p);
    var accepted := (f: string) => v(f, Lookup(bag, f));
    SingleValidator(fs, bag, v);
    FieldEntries();
    AllOfNine(fs, accepted);
    FieldKind(p, bag, "height");
    FieldKind(p, bag, "width");
    FieldKind(p, bag, "dir");
    FieldKind(p, bag, "xml:lang");
    FieldKind(p, bag, "translate");
    FieldKind(p, bag, "keyref");
    FieldKind(p, bag, "outputClass");
    FieldKind(p, bag, "className");
  }

  /** A quantifier over a nine-element sequence is the conjunction of its nine instances. */
  lemma AllOfNine<T>(s: seq<T>, accepted: T -> bool)
    requires |s| == 9
    ensures (forall i :: 0 <= i < |s| ==> accepted(s[i])) <==>
      (accepted(s[0]) && accepted(s[1]) && accepted(s[2]) && accepted(s[3]) && accepted(s[4])
       && accepted(s[5]) && accepted(s[6]) && accepted(s[7]) && accepted(s[8]))
  {
  }

  /** The nine entries of the field list, one by one. */
  lemma FieldEntries()
    ensures |ImageNode.Fields| == 9
    ensures ImageNode.Fields[0] == "height" && ImageNode.Fields[1] == "width"
    ensures ImageNode.Fields[2] == "dir" && ImageNode.Fields[3] == "dir" && ImageNode.Fields[4] == "xml:lang"
    ensures ImageNode.Fields[5] == "translate" && ImageNode.Fields[6] == "keyref"
    ensures ImageNode.Fields[7] == "outputClass" && ImageNode.Fields[8] == "className"
  {
  }

  /** A size name is checked as NMTOKEN, any other known name as CDATA. */
  lemma FieldKind(p: Primitives, bag: PropertyBag, name: string)
    requires name in TokenNames || name in CdataNames
    ensures ImageNode.IsValidField(p, name, Lookup(bag, name))
        == (if name in TokenNames then IsOrUndefined(p.isNMTOKEN, Lookup(bag, name)) else IsOrUndefined(p.isCDATA, Lookup(bag, name)))
  {
    if name in TokenNames {
      assert name !in CdataNames;
    }
  }

  /** What `isImageAttributes` demands of `outputClass` and `className` is what `isValidField` demands. */
  lemma AttributesAgreeWithFields(p: Primitives, a: AttributeChecks, value: Candidate)
    requires IsImageAttributes(p, a, value)
    ensures ImageNode.IsValidField(p, "outputClass", Lookup(value.bag, "outputClass"))
    ensures ImageNode.IsValidField(p, "className", Lookup(value.bag, "className"))
  {
  }

  lemma AltToken() ensures Denotes("alt", ChildType("alt", true, true, false)) {
    WrittenTokenDenotes("alt", ChildType("alt", true, true, false));
  }

  /** `['alt']` has no quantifier, so a light-weight DITA image holds exactly one `alt`. */
  lemma ExactlyOneAlt()
    ensures StringToChildTypes(Tokens(ImageNode.ChildTypeTokens)) == Alt([Leaf(ChildType("alt", true, true, false))])
    ensures IsChildTypeRequired(Parsed(StringToChildTypes(Tokens(ImageNode.ChildTypeTokens))))
    ensures IsSingle(Parsed(StringToChildTypes(Tokens(ImageNode.ChildTypeTokens))))
  {
    var c := ChildType("alt", true, true, false);
    AltToken();
    OneDescriptor(ImageNode.ChildTypeTokens, c);
    assert [Leaf(c)][0] == Leaf(c) && IsChildTypeRequired(Parsed(Leaf(c)));
  }
}
