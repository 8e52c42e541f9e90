/**
 * The content-model grammar of `packages/lwdita-ast/utils.ts`: compact tokens such as
 * `%all-inline*`, `sthead?` or `(b|i)+` are parsed into child-type descriptors, and a tag
 * name is matched against a (possibly nested) list of descriptors and a table of node groups.
 */
module ContentModel {
  import opened Js

  /** `{name, single, required, isGroup}`: `single` bounds the count by one, `required` asks for at least one. */
  datatype ChildType = ChildType(name: string, single: bool, required: bool, isGroup: bool)

  /** `ChildTypes = ChildType | ChildTypes[]`: a descriptor, or a list of such values. */
  datatype ChildTypes = Leaf(childType: ChildType) | Alt(items: seq<ChildTypes>)

  /** `OrArray<string>`: one token, or an array of tokens. */
  datatype Spec = Token(s: string) | Tokens(items: seq<string>)

  /** The node-group table: group name to its member tag names. */
  type NodeGroups = map<string, seq<string>>

  /** `has(array, value)`: `array.indexOf(value) >= 0`. */
  function Has<T(==)>(a: seq<T>, v: T): (r: bool)
    ensures r <==> exists i :: 0 <= i < |a| && a[i] == v
  {
    IndexOf(a, v) >= 0
  }

  const Quantifiers: seq<string> := ["+", "*", "?"]

  /** The descriptor denoted by one token that holds no `|`. */
  function ParseToken(value: string): ChildType {
    var last := Slice(value, -1, |value|);
    var result :=
      if Has(Quantifiers, last)
      then ChildType(Slice(value, 0, -1), last == "?", last == "+", false)
      else ChildType(value, true, true, false);
    if |result.name| > 0 && result.name[0] == '%'
    then result.(name := result.name[1..], isGroup := true)
    else result
  }

  /** The token without its quantifier, if it ends in one. */
  function Body(value: string): string {
    if value != [] && value[|value| - 1] in "+*?" then value[..|value| - 1] else value
  }

  /**
   * The quantifier table: no suffix gives exactly one, `?` at most one, `+` at least one,
   * `*` any number; a leading `%` on what remains is stripped and marks a group.
   */
  lemma QuantifierTable(value: string)
    requires value != ""
    ensures var q, r := value[|value| - 1], ParseToken(value);
      && (q == '?' ==> r.single && !r.required)
      && (q == '+' ==> !r.single && r.required)
      && (q == '*' ==> !r.single && !r.required)
      && (q !in "+*?" ==> r.single && r.required)
    ensures var b, r := Body(value), ParseToken(value);
      && (r.isGroup <==> b != "" && b[0] == '%')
      && (r.isGroup ==> r.name == b[1..])
      && (!r.isGroup ==> r.name == b)
  {
    var last := Slice(value, -1, |value|);
    assert last == [value[|value| - 1]];
    assert Has(Quantifiers, last) <==> value[|value| - 1] in "+*?" by {
      assert Quantifiers[0] == "+" && Quantifiers[1] == "*" && Quantifiers[2] == "?";
    }
  }

  /** The suffix that writes a cardinality. */
  function Suffix(single: bool, required: bool): string {
    if single && required then "" else if single then "?" else if required then "+" else "*"
  }

  /** The token that writes a descriptor: the inverse of `ParseToken`. */
  function ToToken(c: ChildType): string {
    (if c.isGroup then "%" else "") + c.name + Suffix(c.single, c.required)
  }

  /** Every token is given back by writing the descriptor it parses to. */
  lemma TokenRoundTrip(value: string)
    ensures ToToken(ParseToken(value)) == value
  {
    if value == "" {
      assert Slice(value, -1, 0) == "";
      return;
    }
    ParsedPrefixAndName(value);
    ParsedSuffix(value);
  }

  /** The group mark and the name of a parsed token spell its body. */
  lemma ParsedPrefixAndName(value: string)
    requires value != ""
    ensures var r := ParseToken(value); (if r.isGroup then "%" else "") + r.name == Body(value)
  {
    QuantifierTable(value);
    var b := Body(value);
    if ParseToken(value).isGroup {
      assert "%" + b[1..] == b;
    }
  }

  /** The cardinality of a parsed token writes the quantifier its body was cut from. */
  lemma ParsedSuffix(value: string)
    requires value != ""
    ensures var r := ParseToken(value); value == Body(value) + Suffix(r.single, r.required)
  {
    QuantifierTable(value);
    var q, r := value[|value| - 1], ParseToken(value);
    SuffixWritesQuantifier(q, r.single, r.required);
    BodyAndQuantifier(value);
  }

  /** A token is its body followed by its quantifier, if it has one. */
  lemma BodyAndQuantifier(value: string)
    requires value != ""
    ensures var q := value[|value| - 1]; value == Body(value) + if q in "+*?" then [q] else ""
  {
    var q := value[|value| - 1];
    if q in "+*?" {
      assert value == value[..|value| - 1] + [q];
    } else {
      assert value == value + "";
    }
  }

  /** A cardinality read from the quantifier table is written back as that quantifier. */
  lemma SuffixWritesQuantifier(q: char, single: bool, required: bool)
    requires q == '?' ==> single && !required
    requires q == '+' ==> !single && required
    requires q == '*' ==> !single && !required
    requires q !in "+*?" ==> single && required
    ensures Suffix(single, required) == if q in "+*?" then [q] else ""
  {
  }

  lemma LastIsQuantifier(value: string)
    requires value != ""
    ensures Slice(value, -1, |value|) == [value[|value| - 1]]
    ensures Has(Quantifiers, Slice(value, -1, |value|)) <==> value[|value| - 1] in "+*?"
    ensures Slice(value, 0, -1) == value[..|value| - 1]
  {
    assert Quantifiers[0] == "+" && Quantifiers[1] == "*" && Quantifiers[2] == "?";
  }

  /** A descriptor some token writes: a literal name does not start with `%`, and an unsuffixed name does not end in a quantifier. */
  predicate Writable(c: ChildType) {
    && (!c.isGroup && c.name != "" ==> c.name[0] != '%')
    && (c.single && c.required && c.name != "" ==> c.name[|c.name| - 1] !in "+*?")
  }

  /** Every writable descriptor is given back by parsing its token. */
  lemma ChildTypeRoundTrip(c: ChildType)
    requires Writable(c)
    ensures ParseToken(ToToken(c)) == c
  {
    var t := ToToken(c);
    var body := (if c.isGroup then "%" else "") + c.name;
    assert t == body + Suffix(c.single, c.required);
    if t != "" {
      QuantifierTable(t);
      if c.single && c.required {
        assert t == body;
        assert Body(t) == body;
      } else {
        assert t[|t| - 1] in "+*?";
        assert Body(t) == body;
      }
      if c.isGroup {
        assert body[1..] == c.name;
      }
    } else {
      assert Slice(t, -1, 0) == "";
    }
  }

  /** `splitTypenames`: a plain split on `|`, or the pieces of `(a|b)` each given the quantifier that follows `)`. */
  function SplitTypenames(value: string): (r: seq<string>)
    ensures forall i :: 0 <= i < |r| ==> '|' !in r[i]
  {
    if |value| == 0 || value[0] != '(' then Split(value, '|')
    else
      var last := Slice(value, -1, |value|);
      if Has(Quantifiers, last) then
        var pieces := Split(Slice(value, 1, -2), '|');
        assert '|' !in last by {
          assert Quantifiers[0] == "+" && Quantifiers[1] == "*" && Quantifiers[2] == "?";
        }
        seq(|pieces|, i requires 0 <= i < |pieces| => pieces[i] + last)
      else Split(Slice(value, 1, -1), '|')
  }

  /** `(j)q`: the inside of the parentheses is split, and each piece takes the quantifier. */
  lemma ParenthesisedWithQuantifier(j: string, q: char)
    requires q in "+*?"
    ensures var pieces := Split(j, '|');
      SplitTypenames("(" + j + ")" + [q]) == seq(|pieces|, i requires 0 <= i < |pieces| => pieces[i] + [q])
  {
    var v := "(" + j + ")" + [q];
    assert v[0] == '(';
    assert Slice(v, -1, |v|) == [q];
    assert Has(Quantifiers, [q]) by {
      assert Quantifiers[0] == "+" && Quantifiers[1] == "*" && Quantifiers[2] == "?";
    }
    assert v[1..|v| - 2] == j;
  }

  /** `(j)`: the inside of the parentheses is split. */
  lemma ParenthesisedBare(j: string)
    ensures SplitTypenames("(" + j + ")") == Split(j, '|')
  {
    var v := "(" + j + ")";
    assert v[0] == '(';
    assert Slice(v, -1, |v|) == ")";
    assert !Has(Quantifiers, ")") by {
      assert Quantifiers[0] == "+" && Quantifiers[1] == "*" && Quantifiers[2] == "?";
    }
    assert v[1..|v| - 1] == j;
  }

  /** `(a|b|…)q` with a quantifier `q` gives every alternative followed by `q`. */
  lemma AlternationSharesQuantifier(parts: seq<string>, q: char)
    requires |parts| >= 1 && forall i :: 0 <= i < |parts| ==> '|' !in parts[i]
    requires q in "+*?"
    ensures SplitTypenames("(" + JoinWith(parts, "|") + ")" + [q]) == seq(|parts|, i requires 0 <= i < |parts| => parts[i] + [q])
  {
    ParenthesisedWithQuantifier(JoinWith(parts, "|"), q);
    JoinSplit(parts, '|');
  }

  /** `(a|b|…)` with no quantifier gives the bare alternatives. */
  lemma AlternationWithoutQuantifier(parts: seq<string>)
    requires |parts| >= 1 && forall i :: 0 <= i < |parts| ==> '|' !in parts[i]
    ensures SplitTypenames("(" + JoinWith(parts, "|") + ")") == parts
  {
    ParenthesisedBare(JoinWith(parts, "|"));
    JoinSplit(parts, '|');
  }

  predicate NoBar(items: seq<string>) {
    forall i :: 0 <= i < |items| ==> '|' !in items[i]
  }

  /** The filter of line 213: empty lists are dropped, descriptors and non-empty lists kept. */
  function DropEmpty(xs: seq<ChildTypes>): (r: seq<ChildTypes>)
    ensures forall i :: 0 <= i < |r| ==> r[i].Leaf? || r[i].items != []
  {
    if xs == [] then []
    else if xs[0].Alt? && xs[0].items == [] then DropEmpty(xs[1..])
    else [xs[0]] + DropEmpty(xs[1..])
  }

  /** `stringToChildTypes(value, topLevel)` on one string. */
  function TokenToChildTypes(value: string, topLevel: bool): ChildTypes
    decreases if '|' in value then 2 else 0
  {
    if value == "" then Alt([])
    else if '|' !in value then
      (if topLevel then Alt([Leaf(ParseToken(value))]) else Leaf(ParseToken(value)))
    else ListToChildTypes(SplitTypenames(value))
  }

  /** `stringToChildTypes(value, false)` on an array: each element converted, empty results dropped. */
  function ListToChildTypes(items: seq<string>): ChildTypes
    decreases if NoBar(items) then 1 else 3
  {
    Alt(DropEmpty(seq(|items|, i requires 0 <= i < |items| => TokenToChildTypes(items[i], false))))
  }

  /** `stringToChildTypes(value, topLevel = true)`. */
  function StringToChildTypes(value: Spec, topLevel: bool := true): ChildTypes {
    match value
    case Token(s) => TokenToChildTypes(s, topLevel)
    case Tokens(items) => ListToChildTypes(items)
  }

  /** What the filter of line 213 keeps: a descriptor, or a list that is not empty. */
  predicate Kept(x: ChildTypes) {
    x.Leaf? || x.items != []
  }

  /** The filter keeps exactly the descriptors and non-empty lists of its input. */
  lemma {:induction false} DropEmptyMembers(xs: seq<ChildTypes>)
    ensures forall x :: x in DropEmpty(xs) <==> x in xs && Kept(x)
  {
    if xs != [] {
      DropEmptyMembers(xs[1..]);
      assert xs == [xs[0]] + xs[1..];
    }
  }

  /** The filter works entry by entry, so it keeps the order of what it keeps. */
  lemma {:induction false} DropEmptyAppend(a: seq<ChildTypes>, b: seq<ChildTypes>)
    ensures DropEmpty(a + b) == DropEmpty(a) + DropEmpty(b)
  {
    if a == [] {
      assert a + b == b;
    } else {
      assert (a + b)[0] == a[0] && (a + b)[1..] == a[1..] + b;
      DropEmptyAppend(a[1..], b);
    }
  }

  /** An input whose entries are all kept passes the filter unchanged. */
  lemma {:induction false} DropEmptyKeepsKept(xs: seq<ChildTypes>)
    requires forall i :: 0 <= i < |xs| ==> Kept(xs[i])
    ensures DropEmpty(xs) == xs
  {
    if xs != [] {
      DropEmptyKeepsKept(xs[1..]);
    }
  }

  /** An empty token in an array converts to an empty list, which the filter drops. */
  lemma EmptyTokenDropped(a: string)
    requires a != "" && '|' !in a
    ensures StringToChildTypes(Tokens([a, ""])) == Alt([Leaf(ParseToken(a))])
  {
    var xs := seq(2, i requires 0 <= i < 2 => TokenToChildTypes([a, ""][i], false));
    assert xs == [Leaf(ParseToken(a))] + [Alt([])];
    DropEmptyAppend([Leaf(ParseToken(a))], [Alt([])]);
    assert DropEmpty([Alt([])]) == [];
    assert DropEmpty([Leaf(ParseToken(a))]) == [Leaf(ParseToken(a))] + DropEmpty([]);
  }

  /** An array of non-empty tokens without `|` gives one descriptor per token, in order. */
  lemma SimpleTokens(items: seq<string>)
    requires forall i :: 0 <= i < |items| ==> items[i] != "" && '|' !in items[i]
    ensures StringToChildTypes(Tokens(items)) == Alt(seq(|items|, i requires 0 <= i < |items| => Leaf(ParseToken(items[i]))))
  {
    var xs := seq(|items|, i requires 0 <= i < |items| => TokenToChildTypes(items[i], false));
    assert xs == seq(|items|, i requires 0 <= i < |items| => Leaf(ParseToken(items[i])));
    DropEmptyKeepsKept(xs);
  }

  /**
   * A token that, as an element of an array, converts to exactly the given descriptor: it is
   * non-empty, holds no `|`, and parses to that descriptor.
   */
  predicate Denotes(t: string, c: ChildType) {
    TokenToChildTypes(t, false) == Leaf(c)
  }

  /** A plain token written from a writable descriptor denotes it. */
  lemma WrittenTokenDenotes(t: string, c: ChildType)
    requires Writable(c) && t == ToToken(c) && t != "" && '|' !in t
    ensures Denotes(t, c)
  {
    ChildTypeRoundTrip(c);
  }

  /** An array of tokens, each denoting a descriptor, converts to those descriptors in order. */
  lemma Descriptors(items: seq<string>, cs: seq<ChildType>)
    requires |items| == |cs| && forall i :: 0 <= i < |items| ==> Denotes(items[i], cs[i])
    ensures StringToChildTypes(Tokens(items)) == Alt(seq(|cs|, i requires 0 <= i < |cs| => Leaf(cs[i])))
  {
    var xs := seq(|items|, i requires 0 <= i < |items| => TokenToChildTypes(items[i], false));
    assert xs == seq(|cs|, i requires 0 <= i < |cs| => Leaf(cs[i]));
    DropEmptyKeepsKept(xs);
  }

  lemma OneDescriptor(items: seq<string>, c: ChildType)
    requires |items| == 1 && Denotes(items[0], c)
    ensures StringToChildTypes(Tokens(items)) == Alt([Leaf(c)])
  {
    Descriptors(items, [c]);
    assert seq(1, i requires 0 <= i < 1 => Leaf([c][i])) == [Leaf(c)];
  }

  lemma TwoDescriptors(items: seq<string>, c0: ChildType, c1: ChildType)
    requires |items| == 2 && Denotes(items[0], c0) && Denotes(items[1], c1)
    ensures StringToChildTypes(Tokens(items)) == Alt([Leaf(c0), Leaf(c1)])
  {
    var cs := [c0, c1];
    forall i | 0 <= i < 2 ensures Denotes(items[i], cs[i]) {
      if i == 0 { assert cs[0] == c0; } else { assert cs[1] == c1; }
    }
    Descriptors(items, cs);
    assert seq(2, i requires 0 <= i < 2 => Leaf(cs[i])) == [Leaf(c0), Leaf(c1)];
  }

  lemma ThreeDescriptors(items: seq<string>, c0: ChildType, c1: ChildType, c2: ChildType)
    requires |items| == 3 && Denotes(items[0], c0) && Denotes(items[1], c1) && Denotes(items[2], c2)
    ensures StringToChildTypes(Tokens(items)) == Alt([Leaf(c0), Leaf(c1), Leaf(c2)])
  {
    var cs := [c0, c1, c2];
    forall i | 0 <= i < 3 ensures Denotes(items[i], cs[i]) {
      if i == 0 { assert cs[0] == c0; } else if i == 1 { assert cs[1] == c1; } else { assert cs[2] == c2; }
    }
    Descriptors(items, cs);
    assert seq(3, i requires 0 <= i < 3 => Leaf(cs[i])) == [Leaf(c0), Leaf(c1), Leaf(c2)];
  }

  /** The non-empty alternatives of a token with `|`, in order. */
  function NonEmpty(pieces: seq<string>): (r: seq<string>)
    ensures forall i :: 0 <= i < |r| ==> r[i] != ""
    ensures forall i :: 0 <= i < |r| ==> r[i] in pieces
  {
    if pieces == [] then []
    else if pieces[0] == "" then NonEmpty(pieces[1..])
    else [pieces[0]] + NonEmpty(pieces[1..])
  }

  lemma {:induction false} DropEmptyOfPieces(pieces: seq<string>)
    requires NoBar(pieces)
    ensures DropEmpty(seq(|pieces|, i requires 0 <= i < |pieces| => TokenToChildTypes(pieces[i], false)))
         == seq(|NonEmpty(pieces)|, i requires 0 <= i < |NonEmpty(pieces)| => Leaf(ParseToken(NonEmpty(pieces)[i])))
  {
    var xs := seq(|pieces|, i requires 0 <= i < |pieces| => TokenToChildTypes(pieces[i], false));
    if pieces != [] {
      var tail := seq(|pieces| - 1, i requires 0 <= i < |pieces| - 1 => TokenToChildTypes(pieces[1..][i], false));
      assert xs[1..] == tail;
      DropEmptyOfPieces(pieces[1..]);
      if pieces[0] == "" {
        assert xs[0] == Alt([]);
      } else {
        assert xs[0] == Leaf(ParseToken(pieces[0]));
        LeavesCons(pieces[0], NonEmpty(pieces[1..]));
      }
    }
  }

  lemma LeavesCons(p: string, rest: seq<string>)
    ensures seq(|[p] + rest|, i requires 0 <= i < |[p] + rest| => Leaf(ParseToken(([p] + rest)[i])))
         == [Leaf(ParseToken(p))] + seq(|rest|, i requires 0 <= i < |rest| => Leaf(ParseToken(rest[i])))
  {
  }

  /**
   * A single token holding `|` gives a flat list: one descriptor per non-empty
   * alternative of `splitTypenames`, in order.
   */
  lemma AlternationIsFlat(value: string)
    requires '|' in value
    ensures StringToChildTypes(Token(value)) == Alt(
      seq(|NonEmpty(SplitTypenames(value))|, i requires 0 <= i < |NonEmpty(SplitTypenames(value))| =>
        Leaf(ParseToken(NonEmpty(SplitTypenames(value))[i]))))
  {
    assert StringToChildTypes(Token(value)) == ListToChildTypes(SplitTypenames(value));
    DropEmptyOfPieces(SplitTypenames(value));
  }

  /** The same token inside an array gives a list holding that flat list as one nested entry. */
  lemma AlternationInArrayNests(value: string)
    requires '|' in value && NonEmpty(SplitTypenames(value)) != []
    ensures StringToChildTypes(Tokens([value])) == Alt([StringToChildTypes(Token(value))])
  {
    AlternationIsFlat(value);
    var xs := seq(1, i requires 0 <= i < 1 => TokenToChildTypes([value][i], false));
    assert xs == [TokenToChildTypes(value, false)];
    assert DropEmpty(xs) == [xs[0]] + DropEmpty([]);
  }

  /** The outcome of `acceptsNodeName`; `MissingGroup` is the TypeError thrown by `undefined.indexOf`. */
  datatype Match = Accepted(childType: ChildType) | NotAccepted | MissingGroup(group: string)

  /** One descriptor: literal names by equality, group names by membership in the group table. */
  function LeafMatch(value: string, c: ChildType, groups: NodeGroups): (m: Match)
    ensures m.Accepted? <==> (!c.isGroup && c.name == value) || (c.isGroup && c.name in groups && value in groups[c.name])
    ensures m.Accepted? ==> m.childType == c
    ensures m.MissingGroup? <==> c.isGroup && c.name !in groups
    ensures m.MissingGroup? ==> m.group == c.name
  {
    if !c.isGroup then (if c.name == value then Accepted(c) else NotAccepted)
    else if c.name !in groups then MissingGroup(c.name)
    else if Has(groups[c.name], value) then Accepted(c) else NotAccepted
  }

  /** What `acceptsNodeName` returns. */
  function Accepts(value: string, ct: ChildTypes, groups: NodeGroups): Match
    decreases ct
  {
    match ct
    case Leaf(c) => LeafMatch(value, c, groups)
    case Alt(items) => FirstMatch(value, items, groups)
  }

  /** The `some` scan of lines 34-40: the first entry whose outcome is not `NotAccepted`. */
  function FirstMatch(value: string, items: seq<ChildTypes>, groups: NodeGroups): Match
    decreases items
  {
    if items == [] then NotAccepted
    else
      var m := Accepts(value, items[0], groups);
      if m.NotAccepted? then FirstMatch(value, items[1..], groups) else m
  }

  /** `acceptsNodeName(value, childType, nodeGroups)`. */
  method AcceptsNodeName(value: string, ct: ChildTypes, groups: NodeGroups) returns (r: Match)
    ensures r == Accepts(value, ct, groups)
    decreases ct
  {
    match ct
    case Leaf(c) =>
      r := LeafMatch(value, c, groups);
    case Alt(items) =>
      r := NotAccepted;
      var i := 0;
      while i < |items|
        invariant 0 <= i <= |items|
        invariant r == NotAccepted
        invariant FirstMatch(value, items, groups) == FirstMatch(value, items[i..], groups)
      {
        r := AcceptsNodeName(value, items[i], groups);
        if !r.NotAccepted? {
          return;
        }
        assert items[i..][1..] == items[i + 1..];
        i := i + 1;
      }
  }

  /** The descriptors of a nested list, left to right. */
  function Leaves(ct: ChildTypes): seq<ChildType>
    decreases ct
  {
    match ct
    case Leaf(c) => [c]
    case Alt(items) => LeavesOf(items)
  }

  function LeavesOf(items: seq<ChildTypes>): seq<ChildType>
    decreases items
  {
    if items == [] then [] else Leaves(items[0]) + LeavesOf(items[1..])
  }

  /** A left-to-right scan over flat descriptors: the reference for `Accepts`. */
  function FirstLeafMatch(value: string, leaves: seq<ChildType>, groups: NodeGroups): Match {
    if leaves == [] then NotAccepted
    else
      var m := LeafMatch(value, leaves[0], groups);
      if m.NotAccepted? then FirstLeafMatch(value, leaves[1..], groups) else m
  }

  lemma {:induction false} FirstLeafMatchAppend(value: string, a: seq<ChildType>, b: seq<ChildType>, groups: NodeGroups)
    ensures FirstLeafMatch(value, a + b, groups) ==
      (var m := FirstLeafMatch(value, a, groups); if m.NotAccepted? then FirstLeafMatch(value, b, groups) else m)
  {
    if a != [] {
      assert (a + b)[1..] == a[1..] + b;
      FirstLeafMatchAppend(value, a[1..], b, groups);
    } else {
      assert a + b == b;
    }
  }

  /** Matching a nested list is scanning its descriptors left to right. */
  lemma {:induction false} AcceptsIsFirstLeaf(value: string, ct: ChildTypes, groups: NodeGroups)
    ensures Accepts(value, ct, groups) == FirstLeafMatch(value, Leaves(ct), groups)
    decreases ct
  {
    match ct
    case Leaf(c) =>
    case Alt(items) => FirstMatchIsFirstLeaf(value, items, groups);
  }

  lemma {:induction false} FirstMatchIsFirstLeaf(value: string, items: seq<ChildTypes>, groups: NodeGroups)
    ensures FirstMatch(value, items, groups) == FirstLeafMatch(value, LeavesOf(items), groups)
    decreases items
  {
    if items != [] {
      AcceptsIsFirstLeaf(value, items[0], groups);
      FirstMatchIsFirstLeaf(value, items[1..], groups);
      FirstLeafMatchAppend(value, Leaves(items[0]), LeavesOf(items[1..]), groups);
    }
  }

  lemma {:induction false} FirstLeafMatchShape(value: string, leaves: seq<ChildType>, groups: NodeGroups)
    ensures FirstLeafMatch(value, leaves, groups).NotAccepted?
        <==> forall i :: 0 <= i < |leaves| ==> LeafMatch(value, leaves[i], groups).NotAccepted?
    ensures !FirstLeafMatch(value, leaves, groups).NotAccepted? ==>
      exists i :: 0 <= i < |leaves| && FirstLeafMatch(value, leaves, groups) == LeafMatch(value, leaves[i], groups)
        && forall j :: 0 <= j < i ==> LeafMatch(value, leaves[j], groups).NotAccepted?
  {
    if leaves != [] {
      FirstLeafMatchShape(value, leaves[1..], groups);
      var m := LeafMatch(value, leaves[0], groups);
      if m.NotAccepted? {
        assert forall i :: 1 <= i < |leaves| ==> leaves[i] == leaves[1..][i - 1];
        if !FirstLeafMatch(value, leaves[1..], groups).NotAccepted? {
          var i :| 0 <= i < |leaves[1..]| && FirstLeafMatch(value, leaves[1..], groups) == LeafMatch(value, leaves[1..][i], groups)
            && forall j :: 0 <= j < i ==> LeafMatch(value, leaves[1..][j], groups).NotAccepted?;
          assert forall j :: 0 <= j < i + 1 ==> LeafMatch(value, leaves[j], groups).NotAccepted? by {
            forall j | 0 <= j < i + 1 ensures LeafMatch(value, leaves[j], groups).NotAccepted? {
              if j > 0 { assert leaves[j] == leaves[1..][j - 1]; }
            }
          }
        }
      }
    }
  }

  /**
   * `acceptsNodeName` returns the first descriptor, in left-to-right order of the nested
   * list, that accepts the name; it comes back not accepted (`undefined`) exactly when no
   * descriptor accepts it and none names a missing group, the empty list included.
   */
  lemma AcceptsFirstAccepting(value: string, ct: ChildTypes, groups: NodeGroups)
    ensures var m, leaves := Accepts(value, ct, groups), Leaves(ct);
      m.Accepted? ==>
        exists i :: 0 <= i < |leaves| && leaves[i] == m.childType && LeafMatch(value, leaves[i], groups).Accepted?
          && forall j :: 0 <= j < i ==> LeafMatch(value, leaves[j], groups).NotAccepted?
    ensures var m, leaves := Accepts(value, ct, groups), Leaves(ct);
      m.NotAccepted? <==> forall i :: 0 <= i < |leaves| ==> LeafMatch(value, leaves[i], groups).NotAccepted?
  {
    AcceptsIsFirstLeaf(value, ct, groups);
    FirstLeafMatchShape(value, Leaves(ct), groups);
  }

  /** Every group the descriptors name is in the table. */
  predicate GroupsDefined(ct: ChildTypes, groups: NodeGroups) {
    forall c :: c in Leaves(ct) && c.isGroup ==> c.name in groups
  }

  /** With every referenced group defined, `acceptsNodeName` never throws. */
  lemma NoMissingGroup(value: string, ct: ChildTypes, groups: NodeGroups)
    requires GroupsDefined(ct, groups)
    ensures !Accepts(value, ct, groups).MissingGroup?
  {
    AcceptsIsFirstLeaf(value, ct, groups);
    var leaves := Leaves(ct);
    FirstLeafMatchShape(value, leaves, groups);
  }

  /** An argument of `isChildTypeRequired` / `isChildTypeSingle`: a token, or parsed descriptors. */
  datatype ChildTypeArg = Unparsed(s: string) | Parsed(ct: ChildTypes)

  /** `isChildTypeRequired`: a list is required when some entry is; a token is parsed first. */
  function IsChildTypeRequired(arg: ChildTypeArg): bool
    decreases if arg.Unparsed? then 1 else 0, if arg.Parsed? then arg.ct else Alt([])
  {
    match arg
    case Unparsed(s) => IsChildTypeRequired(Parsed(StringToChildTypes(Token(s))))
    case Parsed(ct) =>
      match ct
      case Leaf(c) => c.required
      case Alt(items) => exists i | 0 <= i < |items| :: IsChildTypeRequired(Parsed(items[i]))
  }

  /** What `isChildTypeSingle` returns: a list is single when every entry is; a token is parsed first. */
  function IsSingle(arg: ChildTypeArg): bool
    decreases if arg.Unparsed? then 1 else 0, if arg.Parsed? then arg.ct else Alt([])
  {
    match arg
    case Unparsed(s) => IsSingle(Parsed(StringToChildTypes(Token(s))))
    case Parsed(ct) =>
      match ct
      case Leaf(c) => c.single
      case Alt(items) => forall i | 0 <= i < |items| :: IsSingle(Parsed(items[i]))
  }

  /** `isChildTypeSingle`, with the `some` scan that stops at the first entry that is not single. */
  method IsChildTypeSingle(arg: ChildTypeArg) returns (result: bool)
    ensures result == IsSingle(arg)
    decreases if arg.Unparsed? then 1 else 0, if arg.Parsed? then arg.ct else Alt([])
  {
    match arg
    case Unparsed(s) =>
      result := IsChildTypeSingle(Parsed(StringToChildTypes(Token(s))));
    case Parsed(ct) =>
      match ct
      case Leaf(c) =>
        result := c.single;
      case Alt(items) =>
        result := true;
        var i := 0;
        while i < |items|
          invariant 0 <= i <= |items|
          invariant result
          invariant forall j :: 0 <= j < i ==> IsSingle(Parsed(items[j]))
        {
          result := IsChildTypeSingle(Parsed(items[i]));
          if !result {
            return;
          }
          i := i + 1;
        }
  }

  lemma {:induction false} LeavesOfIndex(items: seq<ChildTypes>, i: nat)
    requires i < |items|
    ensures exists pre, post :: LeavesOf(items) == pre + Leaves(items[i]) + post
  {
    if i == 0 {
      assert LeavesOf(items) == [] + Leaves(items[0]) + LeavesOf(items[1..]);
    } else {
      LeavesOfIndex(items[1..], i - 1);
      var pre, post :| LeavesOf(items[1..]) == pre + Leaves(items[1..][i - 1]) + post;
      assert LeavesOf(items) == (Leaves(items[0]) + pre) + Leaves(items[i]) + post;
    }
  }

  /** A list is required exactly when one of its descriptors, at any depth, is. */
  lemma {:induction false} RequiredIffSomeLeaf(ct: ChildTypes)
    ensures IsChildTypeRequired(Parsed(ct)) <==> exists c :: c in Leaves(ct) && c.required
    decreases ct
  {
    match ct
    case Leaf(c) =>
    case Alt(items) => RequiredIffSomeLeafOf(items);
  }

  lemma {:induction false} RequiredIffSomeLeafOf(items: seq<ChildTypes>)
    ensures (exists i | 0 <= i < |items| :: IsChildTypeRequired(Parsed(items[i])))
        <==> exists c :: c in LeavesOf(items) && c.required
    decreases items
  {
    if items != [] {
      RequiredIffSomeLeaf(items[0]);
      RequiredIffSomeLeafOf(items[1..]);
      assert forall i :: 1 <= i < |items| ==> items[i] == items[1..][i - 1];
      if exists i | 0 <= i < |items| :: IsChildTypeRequired(Parsed(items[i])) {
        var i :| 0 <= i < |items| && IsChildTypeRequired(Parsed(items[i]));
        if i > 0 { assert IsChildTypeRequired(Parsed(items[1..][i - 1])); }
      }
      if exists c :: c in LeavesOf(items[1..]) && c.required {
        var c :| c in LeavesOf(items[1..]) && c.required;
        assert c in LeavesOf(items);
        var k :| 0 <= k < |LeavesOf(items[1..])| && LeavesOf(items[1..])[k] == c;
        var j :| 0 <= j < |items[1..]| && IsChildTypeRequired(Parsed(items[1..][j]));
        assert IsChildTypeRequired(Parsed(items[j + 1]));
      }
    }
  }

  /** A list is single exactly when every one of its descriptors, at any depth, is; the empty list is. */
  lemma {:induction false} SingleIffAllLeaves(ct: ChildTypes)
    ensures IsSingle(Parsed(ct)) <==> forall c :: c in Leaves(ct) ==> c.single
    decreases ct
  {
    match ct
    case Leaf(c) =>
    case Alt(items) => SingleIffAllLeavesOf(items);
  }

  lemma {:induction false} SingleIffAllLeavesOf(items: seq<ChildTypes>)
    ensures (forall i | 0 <= i < |items| :: IsSingle(Parsed(items[i])))
        <==> forall c :: c in LeavesOf(items) ==> c.single
    decreases items
  {
    if items != [] {
      SingleIffAllLeaves(items[0]);
      SingleIffAllLeavesOf(items[1..]);
      assert forall i :: 1 <= i < |items| ==> items[i] == items[1..][i - 1];
      if !forall i | 0 <= i < |items| :: IsSingle(Parsed(items[i])) {
        var i :| 0 <= i < |items| && !IsSingle(Parsed(items[i]));
        if i > 0 { assert !IsSingle(Parsed(items[1..][i - 1])); }
      }
    }
  }

  /** On a single non-empty token without `|` the two predicates read its quantifier. */
  lemma CardinalityOfToken(value: string)
    requires value != "" && '|' !in value
    ensures IsChildTypeRequired(Unparsed(value)) <==> value[|value| - 1] == '+' || value[|value| - 1] !in "+*?"
    ensures IsSingle(Unparsed(value)) <==> value[|value| - 1] == '?' || value[|value| - 1] !in "+*?"
  {
    QuantifierTable(value);
    var parsed := StringToChildTypes(Token(value));
    assert parsed == Alt([Leaf(ParseToken(value))]);
    assert parsed.items[1..] == [];
    assert LeavesOf(parsed.items) == Leaves(parsed.items[0]) + LeavesOf([]);
    assert Leaves(parsed) == [ParseToken(value)];
    RequiredIffSomeLeaf(parsed);
    SingleIffAllLeaves(parsed);
  }
}
