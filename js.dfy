/**
 * The pieces of the JavaScript runtime that the modelled code leans on:
 * scalar values and their truthiness, `String(v)`, `slice`, `split`, `join`,
 * `repeat`, `indexOf`, and the property bag (a plain object read with
 * `obj[key]` and written with `obj[key] = v`).
 */
module Js {

  datatype Option<T> = None | Some(value: T)

  /** A scalar as stored in a property bag; `Undefined` is also what reading a missing key gives. */
  datatype BasicValue = Undefined | Str(s: string) | Num(n: int) | Bool(b: bool)

  /** JavaScript truthiness of a scalar. */
  predicate Truthy(v: BasicValue) {
    match v
    case Undefined => false
    case Str(s) => s != ""
    case Num(n) => n != 0
    case Bool(b) => b
  }

  function Digit(d: nat): char
    requires d < 10
  {
    "0123456789"[d]
  }

  function NatToDecimal(n: nat): (r: string)
    ensures |r| > 0
  {
    if n < 10 then [Digit(n)] else NatToDecimal(n / 10) + [Digit(n % 10)]
  }

  /** `String(v)`, which is also what a template literal `${v}` inserts. */
  function ToJsString(v: BasicValue): string {
    match v
    case Undefined => "undefined"
    case Str(s) => s
    case Num(n) => if n < 0 then "-" + NatToDecimal(-n) else NatToDecimal(n)
    case Bool(b) => if b then "true" else "false"
  }

  /** One own property of a plain object; a bag lists them in `Object.keys` order. */
  datatype Prop = Prop(key: string, value: BasicValue)

  type PropertyBag = seq<Prop>

  predicate HasKey(bag: PropertyBag, key: string) {
    exists i :: 0 <= i < |bag| && bag[i].key == key
  }

  /** `bag[key]`: the value of the entry with that key, or `Undefined` when there is none. */
  function Lookup(bag: PropertyBag, key: string): (v: BasicValue)
    ensures !HasKey(bag, key) ==> v == Undefined
  {
    if bag == [] then Undefined
    else if bag[0].key == key then bag[0].value
    else Lookup(bag[1..], key)
  }

  /**
   * `bag[key] = value`: an existing key keeps its place and takes the new value,
   * a new key is added last; every other key reads as before.
   */
  function Written(bag: PropertyBag, key: string, value: BasicValue): (r: PropertyBag)
    ensures Lookup(r, key) == value
    ensures forall k :: k != key ==> Lookup(r, k) == Lookup(bag, k)
    ensures !HasKey(bag, key) ==> r == bag + [Prop(key, value)]
    ensures HasKey(bag, key) ==> |r| == |bag| && forall i :: 0 <= i < |r| ==> r[i].key == bag[i].key
  {
    if bag == [] then [Prop(key, value)]
    else if bag[0].key == key then [Prop(key, value)] + bag[1..]
    else
      var rest := Written(bag[1..], key, value);
      HasKeyInTail(bag, key);
      [bag[0]] + rest
  }

  /** A plain object never holds two own properties with the same key. */
  predicate UniqueKeys(bag: PropertyBag) {
    forall i, j :: 0 <= i < j < |bag| ==> bag[i].key != bag[j].key
  }

  /** Writing a property keeps the keys of a bag distinct. */
  lemma WrittenKeepsUniqueKeys(bag: PropertyBag, key: string, value: BasicValue)
    requires UniqueKeys(bag)
    ensures UniqueKeys(Written(bag, key, value))
  {
    var r := Written(bag, key, value);
    if !HasKey(bag, key) {
      forall i, j | 0 <= i < j < |r|
        ensures r[i].key != r[j].key
      {
        if j == |bag| {
          assert r[i] == bag[i];
        }
      }
    }
  }

  /** A key the first entry does not have is in the bag exactly when it is in the rest. */
  lemma HasKeyInTail(bag: PropertyBag, key: string)
    requires bag != [] && bag[0].key != key
    ensures HasKey(bag, key) <==> HasKey(bag[1..], key)
  {
    if HasKey(bag, key) {
      var i :| 0 <= i < |bag| && bag[i].key == key;
      assert bag[1..][i - 1].key == key;
    }
    if HasKey(bag[1..], key) {
      var i :| 0 <= i < |bag[1..]| && bag[1..][i].key == key;
      assert bag[i + 1].key == key;
    }
  }

  /** Position translation of `String.prototype.slice`: negative counts from the end, clamped to the string. */
  function SliceIndex(len: nat, i: int): (k: nat)
    ensures k <= len
  {
    if i < 0 then (if len + i < 0 then 0 else len + i)
    else if i > len then len
    else i
  }

  /** `s.slice(start, end)`. */
  function Slice(s: string, start: int, end: int): string {
    var b := SliceIndex(|s|, start);
    var e := SliceIndex(|s|, end);
    if b < e then s[b..e] else ""
  }

  /** `s.split(sep)` for a one-character separator: never empty, no piece holds `sep`. */
  function Split(s: string, sep: char): (parts: seq<string>)
    ensures |parts| >= 1
    ensures forall i :: 0 <= i < |parts| ==> sep !in parts[i]
  {
    if s == [] then [""]
    else
      var rest := Split(s[1..], sep);
      if s[0] == sep then [""] + rest
      else [[s[0]] + rest[0]] + rest[1..]
  }

  /** `parts.join(sep)`; the empty array joins to the empty string. */
  function JoinWith(parts: seq<string>, sep: string): string {
    if |parts| == 0 then ""
    else if |parts| == 1 then parts[0]
    else parts[0] + sep + JoinWith(parts[1..], sep)
  }

  /** Joining the pieces of a split gives back the string. */
  lemma {:induction false} SplitJoin(s: string, sep: char)
    ensures JoinWith(Split(s, sep), [sep]) == s
  {
    if s != [] {
      var rest := Split(s[1..], sep);
      SplitJoin(s[1..], sep);
      if s[0] == sep {
        assert Split(s, sep) == [""] + rest;
        assert ([""] + rest)[1..] == rest;
      } else {
        var parts := Split(s, sep);
        assert parts == [[s[0]] + rest[0]] + rest[1..];
        if |rest| > 1 {
          assert parts[1..] == rest[1..];
        }
      }
    }
  }

  lemma {:induction false} SplitNoSeparator(x: string, sep: char)
    requires sep !in x
    ensures Split(x, sep) == [x]
  {
    if x != [] {
      assert x[0] == x[0] && x[0] != sep;
      SplitNoSeparator(x[1..], sep);
      assert [x[0]] + x[1..] == x;
    }
  }

  lemma {:induction false} SplitFirstPiece(x: string, sep: char, y: string)
    requires sep !in x
    ensures Split(x + [sep] + y, sep) == [x] + Split(y, sep)
  {
    var s := x + [sep] + y;
    if x == [] {
      assert s[1..] == y;
    } else {
      assert s[1..] == x[1..] + [sep] + y;
      SplitFirstPiece(x[1..], sep, y);
      assert [x[0]] + x[1..] == x;
    }
  }

  /** Splitting a join of separator-free pieces gives back the pieces. */
  lemma {:induction false} JoinSplit(parts: seq<string>, sep: char)
    requires |parts| >= 1
    requires forall i :: 0 <= i < |parts| ==> sep !in parts[i]
    ensures Split(JoinWith(parts, [sep]), sep) == parts
  {
    if |parts| == 1 {
      SplitNoSeparator(parts[0], sep);
    } else {
      JoinSplit(parts[1..], sep);
      SplitFirstPiece(parts[0], sep, JoinWith(parts[1..], [sep]));
      assert [parts[0]] + parts[1..] == parts;
    }
  }

  /** `s.repeat(n)`. */
  function Repeat(s: string, n: nat): string {
    if n == 0 then "" else s + Repeat(s, n - 1)
  }

  /** `a.indexOf(v)`: the first index holding `v`, or -1. */
  function IndexOf<T(==)>(a: seq<T>, v: T): (k: int)
    ensures -1 <= k < |a|
    ensures 0 <= k ==> a[k] == v && forall j :: 0 <= j < k ==> a[j] != v
    ensures k < 0 <==> v !in a
  {
    if a == [] then -1
    else if a[0] == v then 0
    else
      var k := IndexOf(a[1..], v);
      if k < 0 then -1 else k + 1
  }

  /** The entries of a bag whose value is truthy, in order. */
  function TruthyProps(bag: PropertyBag): (r: PropertyBag)
    ensures forall i :: 0 <= i < |r| ==> Truthy(r[i].value)
    ensures r == [] <==> forall i :: 0 <= i < |bag| ==> !Truthy(bag[i].value)
  {
    if bag == [] then []
    else if Truthy(bag[0].value) then [bag[0]] + TruthyProps(bag[1..])
    else
      assert forall i :: 1 <= i < |bag| ==> bag[i] == bag[1..][i - 1];
      TruthyProps(bag[1..])
  }

  /** `key="value"` as both renderers write one attribute. */
  function AttributePair(p: Prop): (r: string)
    ensures |r| >= 3
  {
    p.key + "=\"" + ToJsString(p.value) + "\""
  }

  function Pairs(bag: PropertyBag): (r: seq<string>)
    ensures |r| == |bag|
    ensures forall i :: 0 <= i < |bag| ==> r[i] == AttributePair(bag[i])
  {
    if bag == [] then [] else [AttributePair(bag[0])] + Pairs(bag[1..])
  }

  /**
   * `Object.keys(props).filter(key => attr[key]).map(key => `${key}="${attr[key]}"`).join(' ')`,
   * the attribute text shared by the XDITA serializer and `XMLTag.toString`.
   */
  function AttributeList(bag: PropertyBag): string {
    JoinWith(Pairs(TruthyProps(bag)), " ")
  }

  /** The same text as a concatenation in which every pair is preceded by one space. */
  function SpacedPairs(bag: PropertyBag): string {
    if bag == [] then "" else " " + AttributePair(bag[0]) + SpacedPairs(bag[1..])
  }

  /**
   * The attribute list is empty exactly when no value is truthy, and a space
   * followed by it is every truthy entry written ` key="value"`, in key order.
   */
  lemma {:induction false} AttributeListShape(bag: PropertyBag)
    ensures AttributeList(bag) == "" <==> forall i :: 0 <= i < |bag| ==> !Truthy(bag[i].value)
    ensures AttributeList(bag) != "" ==> " " + AttributeList(bag) == SpacedPairs(TruthyProps(bag))
  {
    SpacedJoin(TruthyProps(bag));
  }

  lemma {:induction false} SpacedJoin(bag: PropertyBag)
    ensures JoinWith(Pairs(bag), " ") == "" <==> bag == []
    ensures bag != [] ==> " " + JoinWith(Pairs(bag), " ") == SpacedPairs(bag)
  {
    if |bag| == 1 {
      assert Pairs(bag) == [AttributePair(bag[0])];
      assert SpacedPairs(bag[1..]) == "";
    } else if |bag| > 1 {
      SpacedJoin(bag[1..]);
      var head, tail := AttributePair(bag[0]), JoinWith(Pairs(bag[1..]), " ");
      assert Pairs(bag)[1..] == Pairs(bag[1..]);
      assert JoinWith(Pairs(bag), " ") == head + " " + tail;
      assert " " + (head + " " + tail) == " " + head + (" " + tail);
    }
  }
}
