/**
 * The attribute traits whose code is shown: `size` (`src/nodes/size.ts`), `display`
 * (`src/nodes/display.ts`) and `fn-reuse` (`src/nodes/fn-reuse.ts`). Each declares a field
 * list, a `switch` validator over it and an `isXNode` predicate; the mixins add accessors
 * that read and write the node's property bag.
 */
module NodeTraits {
  import opened Js
  import opened FieldValidation

  /**
   * The primitive value checks of `classes.ts` (`isCDATA`, `isNMTOKEN`, `isDisplayScale`, …).
   * Their definitions are not part of this model, so every operation takes them as parameters.
   */
  datatype Primitives = Primitives(
    isCDATA: Check,
    isNMTOKEN: Check,
    isDisplayScale: Check,
    isDisplayFrame: Check,
    isDisplayExpanse: Check)

  /** The argument of an `isXNode` predicate: an object (its own properties), or any other value. */
  datatype Candidate = Object(bag: PropertyBag) | NonObject

  // ---------------------------------------------------------------- size

  const SizeFields: seq<string> := ["width", "height"]

  /** `isValidSizeField`: `width` and `height` take an NMTOKEN or nothing; other names are rejected. */
  function IsValidSizeField(p: Primitives, field: string, value: BasicValue): (r: bool)
    ensures r <==> field in SizeFields && IsOrUndefined(p.isNMTOKEN, value)
  {
    match field
    case "width" => IsOrUndefined(p.isNMTOKEN, value)
    case "height" => IsOrUndefined(p.isNMTOKEN, value)
    case _ => false
  }

  function SizeValidator(p: Primitives): Validator {
    (field: string, value: BasicValue) => IsValidSizeField(p, field, value)
  }

  /** `isSizeNode`: an object whose `width` and `height` both validate. */
  function IsSizeNode(p: Primitives, value: Candidate): (r: bool)
    ensures r <==> (value.Object?
                    && IsOrUndefined(p.isNMTOKEN, Lookup(value.bag, "width"))
                    && IsOrUndefined(p.isNMTOKEN, Lookup(value.bag, "height")))
  {
    value.Object? && (SizeFieldsValid(p, value.bag);
                      FieldsValid(SizeFields, value.bag, [SizeValidator(p)]))
  }

  lemma SizeFieldsValid(p: Primitives, bag: PropertyBag)
    ensures FieldsValid(SizeFields, bag, [SizeValidator(p)])
        <==> IsOrUndefined(p.isNMTOKEN, Lookup(bag, "width")) && IsOrUndefined(p.isNMTOKEN, Lookup(bag, "height"))
  {
    SingleValidator(SizeFields, bag, SizeValidator(p));
    assert |SizeFields| == 2 && SizeFields[0] == "width" && SizeFields[1] == "height";
    assert SizeValidator(p)("width", Lookup(bag, "width")) == IsOrUndefined(p.isNMTOKEN, Lookup(bag, "width"));
    assert SizeValidator(p)("height", Lookup(bag, "height")) == IsOrUndefined(p.isNMTOKEN, Lookup(bag, "height"));
  }

  // ---------------------------------------------------------------- display

  const DisplayFields: seq<string> := ["scale", "frame", "expanse"]

  /** `isValidDisplayField`: each display field has its own check; other names are rejected. */
  function IsValidDisplayField(p: Primitives, field: string, value: BasicValue): (r: bool)
    ensures field == "scale" ==> (r <==> IsOrUndefined(p.isDisplayScale, value))
    ensures field == "frame" ==> (r <==> IsOrUndefined(p.isDisplayFrame, value))
    ensures field == "expanse" ==> (r <==> IsOrUndefined(p.isDisplayExpanse, value))
    ensures field !in DisplayFields ==> !r
  {
    match field
    case "scale" => IsOrUndefined(p.isDisplayScale, value)
    case "frame" => IsOrUndefined(p.isDisplayFrame, value)
    case "expanse" => IsOrUndefined(p.isDisplayExpanse, value)
    case _ => false
  }

  function DisplayValidator(p: Primitives): Validator {
    (field: string, value: BasicValue) => IsValidDisplayField(p, field, value)
  }

  /** `isDisplayNode`: an object whose `scale`, `frame` and `expanse` all validate. */
  function IsDisplayNode(p: Primitives, value: Candidate): (r: bool)
    ensures r <==> (value.Object?
                    && IsOrUndefined(p.isDisplayScale, Lookup(value.bag, "scale"))
                    && IsOrUndefined(p.isDisplayFrame, Lookup(value.bag, "frame"))
                    && IsOrUndefined(p.isDisplayExpanse, Lookup(value.bag, "expanse")))
  {
    value.Object? && (DisplayFieldsValid(p, value.bag);
                      FieldsValid(DisplayFields, value.bag, [DisplayValidator(p)]))
  }

  lemma DisplayFieldsValid(p: Primitives, bag: PropertyBag)
    ensures FieldsValid(DisplayFields, bag, [DisplayValidator(p)])
        <==> (IsOrUndefined(p.isDisplayScale, Lookup(bag, "scale"))
              && IsOrUndefined(p.isDisplayFrame, Lookup(bag, "frame"))
              && IsOrUndefined(p.isDisplayExpanse, Lookup(bag, "expanse")))
  {
    SingleValidator(DisplayFields, bag, DisplayValidator(p));
    assert |DisplayFields| == 3 && DisplayFields[0] == "scale" && DisplayFields[1] == "frame" && DisplayFields[2] == "expanse";
    assert DisplayValidator(p)("scale", Lookup(bag, "scale")) == IsOrUndefined(p.isDisplayScale, Lookup(bag, "scale"));
    assert DisplayValidator(p)("frame", Lookup(bag, "frame")) == IsOrUndefined(p.isDisplayFrame, Lookup(bag, "frame"));
    assert DisplayValidator(p)("expanse", Lookup(bag, "expanse")) == IsOrUndefined(p.isDisplayExpanse, Lookup(bag, "expanse"));
  }

  // ---------------------------------------------------------------- fn-reuse

  const FnReuseFields: seq<string> := ["conref"]

  /** `isValidFnReuseField`: `conref` takes CDATA or nothing; other names are rejected. */
  function IsValidFnReuseField(p: Primitives, field: string, value: BasicValue): (r: bool)
    ensures r <==> field == "conref" && IsOrUndefined(p.isCDATA, value)
  {
    match field
    case "conref" => IsOrUndefined(p.isCDATA, value)
    case _ => false
  }

  function FnReuseValidator(p: Primitives): Validator {
    (field: string, value: BasicValue) => IsValidFnReuseField(p, field, value)
  }

  /** `isFnReuseNode`: an object whose `conref` validates. */
  function IsFnReuseNode(p: Primitives, value: Candidate): (r: bool)
    ensures r <==> value.Object? && IsOrUndefined(p.isCDATA, Lookup(value.bag, "conref"))
  {
    value.Object? && (SingleValidator(FnReuseFields, value.bag, FnReuseValidator(p));
                      assert FnReuseFields[0] == "conref";
                      FieldsValid(FnReuseFields, value.bag, [FnReuseValidator(p)]))
  }

  /** Only the listed field names can ever be accepted by these three validators. */
  lemma ValidatorsRejectUnlisted(p: Primitives, field: string, value: BasicValue)
    requires field !in SizeFields + DisplayFields + FnReuseFields
    ensures !IsValidSizeField(p, field, value)
    ensures !IsValidDisplayField(p, field, value)
    ensures !IsValidFnReuseField(p, field, value)
  {
    assert field !in SizeFields && field !in DisplayFields by {
      assert forall i :: 0 <= i < |SizeFields| ==> (SizeFields + DisplayFields + FnReuseFields)[i] == SizeFields[i];
      assert forall i :: 0 <= i < |DisplayFields| ==> (SizeFields + DisplayFields + FnReuseFields)[|SizeFields| + i] == DisplayFields[i];
    }
    assert field != (SizeFields + DisplayFields + FnReuseFields)[5];
  }

  /** An object with none of the fields set satisfies all three node predicates. */
  lemma AbsentFieldsValid(p: Primitives)
    ensures IsSizeNode(p, Object([]))
    ensures IsDisplayNode(p, Object([]))
    ensures IsFnReuseNode(p, Object([]))
  {
  }

  /**
   * A node's property bag, as read and written by `readProp`/`writeProp`, with the accessors
   * the `makeSize`, `makeDisplay`, `makeFnReuse`, `makeNote` and `makeProlog` mixins add.
   */
  class PropertyNode {
    var props: PropertyBag

    constructor(props: PropertyBag)
      ensures this.props == props
    {
      this.props := props;
    }

    function ReadProp(key: string): BasicValue
      reads this
    {
      Lookup(props, key)
    }

    /** `writeProp(key, value)`: the entry takes the new value; every other key reads as before. */
    method WriteProp(key: string, value: BasicValue)
      modifies this
      ensures props == Written(old(props), key, value)
      ensures ReadProp(key) == value
      ensures forall k :: k != key ==> ReadProp(k) == old(ReadProp(k))
      ensures UniqueKeys(old(props)) ==> UniqueKeys(props)
    {
      if UniqueKeys(props) {
        WrittenKeepsUniqueKeys(props, key, value);
      }
      props := Written(props, key, value);
    }

    function Width(): BasicValue reads this { ReadProp("width") }
    function Height(): BasicValue reads this { ReadProp("height") }
    function Scale(): BasicValue reads this { ReadProp("scale") }
    function Frame(): BasicValue reads this { ReadProp("frame") }
    function Expanse(): BasicValue reads this { ReadProp("expanse") }
    function Conref(): BasicValue reads this { ReadProp("conref") }
    function Type(): BasicValue reads this { ReadProp("type") }
    function Class(): BasicValue reads this { ReadProp("class") }

    method SetWidth(value: BasicValue)
      modifies this
      ensures Width() == value
      ensures props == Written(old(props), "width", value)
      ensures forall k :: k != "width" ==> ReadProp(k) == old(ReadProp(k))
    {
      WriteProp("width", value);
    }

    method SetHeight(value: BasicValue)
      modifies this
      ensures Height() == value
      ensures props == Written(old(props), "height", value)
      ensures forall k :: k != "height" ==> ReadProp(k) == old(ReadProp(k))
    {
      WriteProp("height", value);
    }

    method SetScale(value: BasicValue)
      modifies this
      ensures Scale() == value
      ensures props == Written(old(props), "scale", value)
      ensures forall k :: k != "scale" ==> ReadProp(k) == old(ReadProp(k))
    {
      WriteProp("scale", value);
    }

    method SetFrame(value: BasicValue)
      modifies this
      ensures Frame() == value
      ensures props == Written(old(props), "frame", value)
      ensures forall k :: k != "frame" ==> ReadProp(k) == old(ReadProp(k))
    {
      WriteProp("frame", value);
    }

    method SetExpanse(value: BasicValue)
      modifies this
      ensures Expanse() == value
      ensures props == Written(old(props), "expanse", value)
      ensures forall k :: k != "expanse" ==> ReadProp(k) == old(ReadProp(k))
    {
      WriteProp("expanse", value);
    }

    method SetConref(value: BasicValue)
      modifies this
      ensures Conref() == value
      ensures props == Written(old(props), "conref", value)
      ensures forall k :: k != "conref" ==> ReadProp(k) == old(ReadProp(k))
    {
      WriteProp("conref", value);
    }

    method SetType(value: BasicValue)
      modifies this
      ensures Type() == value
      ensures props == Written(old(props), "type", value)
      ensures forall k :: k != "type" ==> ReadProp(k) == old(ReadProp(k))
    {
      WriteProp("type", value);
    }

    method SetClass(value: BasicValue)
      modifies this
      ensures Class() == value
      ensures props == Written(old(props), "class", value)
      ensures forall k :: k != "class" ==> ReadProp(k) == old(ReadProp(k))
    {
      WriteProp("class", value);
    }
  }

  /** After the `width` and `height` setters, the object is a size node exactly when both written values validate. */
  lemma SizeAfterWrites(p: Primitives, bag: PropertyBag, w: BasicValue, h: BasicValue)
    ensures IsSizeNode(p, Object(Written(Written(bag, "width", w), "height", h)))
        <==> IsOrUndefined(p.isNMTOKEN, w) && IsOrUndefined(p.isNMTOKEN, h)
  {
    var after := Written(Written(bag, "width", w), "height", h);
    assert Lookup(after, "width") == w;
  }
}
