/**
 * The attribute validation of `packages/lwdita-ast/utils.ts`: a node's field list is valid
 * when every field is accepted by at least one validator, the "OR of trait validators"
 * that every node declaration uses.
 */
module FieldValidation {
  import opened Js

  /** `(field, value) => boolean`. */
  type Validator = (string, BasicValue) -> bool

  /** `(value?) => boolean`, a check on a present value. */
  type Check = BasicValue -> bool

  /** `isOrUndefined(check, value)`: an absent value always passes, a present one passes `check`. */
  function IsOrUndefined(check: Check, v: BasicValue): (r: bool)
    ensures v.Undefined? ==> r
    ensures !v.Undefined? ==> r == check(v)
  {
    v.Undefined? || check(v)
  }

  /** Some validator accepts `field` with the value the bag holds for it. */
  predicate FieldAccepted(field: string, bag: PropertyBag, validators: seq<Validator>) {
    exists j :: 0 <= j < |validators| && validators[j](field, Lookup(bag, field))
  }

  /** Every field is accepted by at least one validator. */
  predicate FieldsValid(fields: seq<string>, bag: PropertyBag, validators: seq<Validator>) {
    forall i :: 0 <= i < |fields| ==> FieldAccepted(fields[i], bag, validators)
  }

  /**
   * `areFieldsValid(fields, value, ...validations)`: for each field in order, the validators
   * are tried in order until one accepts; the first field none accepts ends the scan with false.
   */
  method AreFieldsValid(fields: seq<string>, bag: PropertyBag, validators: seq<Validator>) returns (result: bool)
    ensures result == FieldsValid(fields, bag, validators)
  {
    var i := 0;
    while i < |fields|
      invariant 0 <= i <= |fields|
      invariant forall k :: 0 <= k < i ==> FieldAccepted(fields[k], bag, validators)
    {
      var field := fields[i];
      var valid := false;
      var j := 0;
      while j < |validators|
        invariant 0 <= j <= |validators|
        invariant !valid
        invariant forall m :: 0 <= m < j ==> !validators[m](field, Lookup(bag, field))
      {
        if validators[j](field, Lookup(bag, field)) {
          valid := true;
          break;
        }
        j := j + 1;
      }
      if !valid {
        return false;
      }
      i := i + 1;
    }
    return true;
  }

  /** An empty field list is valid under any validators. */
  lemma EmptyFieldsValid(bag: PropertyBag, validators: seq<Validator>)
    ensures FieldsValid([], bag, validators)
  {
  }

  /** With one validator, a field list is valid when that validator accepts every field. */
  lemma SingleValidator(fields: seq<string>, bag: PropertyBag, v: Validator)
    ensures FieldsValid(fields, bag, [v]) <==> forall i :: 0 <= i < |fields| ==> v(fields[i], Lookup(bag, fields[i]))
  {
    if forall i :: 0 <= i < |fields| ==> v(fields[i], Lookup(bag, fields[i])) {
      forall i | 0 <= i < |fields| ensures FieldAccepted(fields[i], bag, [v]) {
        assert [v][0](fields[i], Lookup(bag, fields[i]));
      }
    }
  }

  /** A non-empty field list is never valid without validators. */
  lemma NoValidatorsRejects(fields: seq<string>, bag: PropertyBag)
    requires fields != []
    ensures !FieldsValid(fields, bag, [])
  {
    assert !FieldAccepted(fields[0], bag, []);
  }

  /** Validity of a concatenated field list is validity of each part. */
  lemma FieldsValidAppend(a: seq<string>, b: seq<string>, bag: PropertyBag, validators: seq<Validator>)
    ensures FieldsValid(a + b, bag, validators) <==> FieldsValid(a, bag, validators) && FieldsValid(b, bag, validators)
  {
    if FieldsValid(a, bag, validators) && FieldsValid(b, bag, validators) {
      forall i | 0 <= i < |a + b| ensures FieldAccepted((a + b)[i], bag, validators) {
        if i >= |a| { assert (a + b)[i] == b[i - |a|]; }
      }
    }
    if FieldsValid(a + b, bag, validators) {
      forall i | 0 <= i < |b| ensures FieldAccepted(b[i], bag, validators) {
        assert (a + b)[|a| + i] == b[i];
      }
      forall i | 0 <= i < |a| ensures FieldAccepted(a[i], bag, validators) {
        assert (a + b)[i] == a[i];
      }
    }
  }

  /** The order in which validators are OR-ed does not change the verdict. */
  lemma ValidatorOrderIrrelevant(fields: seq<string>, bag: PropertyBag, v1: seq<Validator>, v2: seq<Validator>)
    ensures FieldsValid(fields, bag, v1 + v2) <==> FieldsValid(fields, bag, v2 + v1)
  {
    forall f | true
      ensures FieldAccepted(f, bag, v1 + v2) <==> FieldAccepted(f, bag, v2 + v1)
    {
      OrSplit(f, bag, v1, v2);
      OrSplit(f, bag, v2, v1);
    }
  }

  lemma OrSplit(f: string, bag: PropertyBag, v1: seq<Validator>, v2: seq<Validator>)
    ensures FieldAccepted(f, bag, v1 + v2) <==> FieldAccepted(f, bag, v1) || FieldAccepted(f, bag, v2)
  {
    var x := Lookup(bag, f);
    if FieldAccepted(f, bag, v1 + v2) {
      var j :| 0 <= j < |v1 + v2| && (v1 + v2)[j](f, x);
      if j < |v1| { assert v1[j](f, x); } else { assert v2[j - |v1|](f, x); }
    }
    if FieldAccepted(f, bag, v2) {
      var j :| 0 <= j < |v2| && v2[j](f, x);
      assert (v1 + v2)[|v1| + j] == v2[j];
    }
    if FieldAccepted(f, bag, v1) {
      var j :| 0 <= j < |v1| && v1[j](f, x);
      assert (v1 + v2)[j] == v1[j];
    }
  }

  /** Only the values of the listed fields matter: entries for other keys never change the verdict. */
  lemma OnlyListedFieldsMatter(fields: seq<string>, bag1: PropertyBag, bag2: PropertyBag, validators: seq<Validator>)
    requires forall i :: 0 <= i < |fields| ==> Lookup(bag1, fields[i]) == Lookup(bag2, fields[i])
    ensures FieldsValid(fields, bag1, validators) <==> FieldsValid(fields, bag2, validators)
  {
  }
}
