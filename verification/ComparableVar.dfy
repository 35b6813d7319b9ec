/** `Var.ToComparableString`, the text that route ids are derived from, and a decoder for it. */
module ComparableVar {
  import opened GoTypes
  import opened Apisix
  import opened Strings

  /** Dots are doubled. */
  function Escape(s: string): string {
    if s == [] then [] else (if s[0] == '.' then ".." else [s[0]]) + Escape(s[1..])
  }

  function Comparable(v: Var): string
    decreases v, 1
  {
    ComparableItems(v.items)
  }

  function ComparableItems(items: seq<VarItem>): string
    decreases items, 0
  {
    if items == [] then ""
    else ComparableItems(Init(items)) + ItemText(items[|items| - 1])
  }

  function ItemText(item: VarItem): string
    decreases item, 0
  {
    match item
    case Str(s) => Escape(s) + "."
    case Nested(v) => Comparable(v) + "."
  }

  method ToComparableString(v: Var) returns (s: string)
    ensures s == Comparable(v)
    decreases v
  {
    s := "";
    for i := 0 to |v.items|
      invariant s == ComparableItems(v.items[..i])
    {
      Snoc(v.items, i);
      match v.items[i] {
        case Str(value) => s := s + Escape(value) + ".";
        case Nested(w) =>
          var t := ToComparableString(w);
          s := s + t + ".";
      }
    }
    assert v.items[..|v.items|] == v.items;
  }

  /** A matcher as the route translator builds it. */
  datatype Matcher = Matcher(name: string, negated: bool, op: string, value: string)

  predicate IsOp(op: string) {
    op == "~~" || op == "~*"
  }

  function MatcherVar(m: Matcher): Var {
    if m.negated then Var([Str(m.name), Str("!"), Str(m.op), Str(m.value)])
    else Var([Str(m.name), Str(m.op), Str(m.value)])
  }

  /** Reads an escaped text up to its separator, a single dot; gives the text and what follows. */
  function ReadSegment(s: string): (string, string) {
    if s == [] then ([], [])
    else if s[0] != '.' then
      var (text, rest) := ReadSegment(s[1..]);
      ([s[0]] + text, rest)
    else if |s| > 1 && s[1] == '.' then
      var (text, rest) := ReadSegment(s[2..]);
      (['.'] + text, rest)
    else ([], s[1..])
  }

  /** Reads a matcher off the front of a text; gives the matcher and what follows. */
  function Decode(s: string): Option<(Matcher, string)> {
    var (name, rest) := ReadSegment(s);
    var negated := "!." <= rest;
    var rest' := if negated then rest[2..] else rest;
    if |rest'| < 3 then None
    else
      var (value, left) := ReadSegment(rest'[3..]);
      Some((Matcher(name, negated, rest'[..2], value), left))
  }

  lemma {:induction false} ReadEscaped(x: string, t: string)
    requires t == [] || t[0] != '.'
    ensures ReadSegment(Escape(x) + "." + t) == (x, t)
  {
    var s := Escape(x) + "." + t;
    if x == [] {
      assert s == ['.'] + t && s[1..] == t;
    } else {
      var s' := Escape(x[1..]) + "." + t;
      ReadEscaped(x[1..], t);
      if x[0] == '.' {
        assert s == ".." + s' && s[2..] == s';
      } else {
        assert s == [x[0]] + s' && s[1..] == s';
      }
      assert x == [x[0]] + x[1..];
    }
  }

  /** What follows the name and its separator in the text of a matcher. */
  function Tail(m: Matcher): string {
    m.op + "." + Escape(m.value) + "."
  }

  function AfterName(m: Matcher): string {
    if m.negated then "!." + Tail(m) else Tail(m)
  }

  lemma MatcherText(m: Matcher)
    requires IsOp(m.op)
    ensures Comparable(MatcherVar(m)) == Escape(m.name) + "." + AfterName(m)
  {
    var a, b, c, d := Str(m.name), Str("!"), Str(m.op), Str(m.value);
    EscapeOp(m.op);
    assert Escape("!") == "!";
    if m.negated {
      FourItems(a, b, c, d);
    } else {
      ThreeItems(a, c, d);
    }
  }

  lemma TwoItems(a: VarItem, b: VarItem)
    ensures ComparableItems([a, b]) == ItemText(a) + ItemText(b)
  {
    hide ItemText;
    Push([], a);
    Push([a], b);
    assert [a] + [b] == [a, b] && ComparableItems([]) == "";
    assert "" + ItemText(a) == ItemText(a);
  }

  lemma ThreeItems(a: VarItem, b: VarItem, c: VarItem)
    ensures ComparableItems([a, b, c]) == ItemText(a) + (ItemText(b) + ItemText(c))
  {
    hide ItemText, ComparableItems;
    TwoItems(a, b);
    Push([a, b], c);
    assert [a, b] + [c] == [a, b, c];
    Regroup(ItemText(a), ItemText(b), ItemText(c));
  }

  lemma FourItems(a: VarItem, b: VarItem, c: VarItem, d: VarItem)
    ensures ComparableItems([a, b, c, d]) == ItemText(a) + (ItemText(b) + (ItemText(c) + ItemText(d)))
  {
    hide ItemText, ComparableItems;
    ThreeItems(a, b, c);
    Push([a, b, c], d);
    assert [a, b, c] + [d] == [a, b, c, d];
    Regroup(ItemText(a), ItemText(b) + ItemText(c), ItemText(d));
    Regroup(ItemText(b), ItemText(c), ItemText(d));
  }

  lemma EscapeOp(op: string)
    requires IsOp(op)
    ensures Escape(op) == op
  {
    assert op[1..] == [op[1]];
    assert Escape([op[1]]) == [op[1]] + Escape([]);
    assert op == [op[0]] + [op[1]];
  }

  lemma Push(items: seq<VarItem>, x: VarItem)
    ensures ComparableItems(items + [x]) == ComparableItems(items) + ItemText(x)
    ensures [] + [x] == [x]
  {
    assert Init(items + [x]) == items && Last(items + [x]) == x;
  }

  /**
   Round trip: whatever the name and the value, dots at their ends included, the matcher is
   recovered from its comparable text, whatever text without a leading dot follows it. So two
   different matchers never share one.
   */
  lemma DecodeComparable(m: Matcher, t: string)
    requires IsOp(m.op) && (t == [] || t[0] != '.')
    ensures Decode(Comparable(MatcherVar(m)) + t) == Some((m, t))
  {
    hide Comparable, MatcherVar, Escape, Tail, Decode, ReadSegment, AfterName;
    MatcherText(m);
    Regroup(Escape(m.name) + ".", AfterName(m), t);
    AfterNameShape(m, t);
    ReadEscaped(m.name, AfterName(m) + t);
    DecodeTail(m, t);
    DecodeRest(Comparable(MatcherVar(m)) + t, m, t);
  }

  /** What follows the name: the negation, if there is one, and the rest. */
  lemma AfterNameShape(m: Matcher, t: string)
    requires IsOp(m.op)
    ensures AfterName(m) != [] && AfterName(m)[0] != '.'
    ensures "!." <= AfterName(m) + t <==> m.negated
    ensures (if m.negated then (AfterName(m) + t)[2..] else AfterName(m) + t) == Tail(m) + t
  {
    assert Tail(m)[0] == '~';
    if m.negated {
      assert AfterName(m) + t == "!." + (Tail(m) + t);
    } else {
      assert (AfterName(m) + t)[0] == '~';
    }
  }

  lemma DecodeRest(s: string, m: Matcher, t: string)
    requires ReadSegment(s) == (m.name, AfterName(m) + t)
    requires "!." <= AfterName(m) + t <==> m.negated
    requires (if m.negated then (AfterName(m) + t)[2..] else AfterName(m) + t) == Tail(m) + t
    requires |Tail(m)| >= 3 && (Tail(m) + t)[..2] == m.op && ReadSegment((Tail(m) + t)[3..]) == (m.value, t)
    ensures Decode(s) == Some((m, t))
  {
    hide ReadSegment, AfterName, Tail;
  }

  lemma DecodeTail(m: Matcher, t: string)
    requires IsOp(m.op) && (t == [] || t[0] != '.')
    ensures |Tail(m)| >= 3 && Tail(m)[0] == '~' && (Tail(m) + t)[..2] == m.op
    ensures ReadSegment((Tail(m) + t)[3..]) == (m.value, t)
  {
    assert (Tail(m) + t)[3..] == Escape(m.value) + "." + t;
    ReadEscaped(m.value, t);
  }

  lemma ComparableInjective(m: Matcher, n: Matcher)
    requires IsOp(m.op) && IsOp(n.op)
    requires Comparable(MatcherVar(m)) == Comparable(MatcherVar(n))
    ensures m == n
  {
    DecodeComparable(m, "");
    DecodeComparable(n, "");
    assert Comparable(MatcherVar(m)) + "" == Comparable(MatcherVar(m));
    assert Comparable(MatcherVar(n)) + "" == Comparable(MatcherVar(n));
  }

  /** Arbitrary string lists do collide: the separator and a doubled dot run together. */
  lemma ListsCollide()
    ensures Comparable(Var([Str("a"), Str(".b")])) == Comparable(Var([Str("a."), Str("b")]))
  {
    var a, b, c, d := Str("a"), Str(".b"), Str("a."), Str("b");
    hide Comparable, ComparableItems;
    TwoItems(a, b);
    TwoItems(c, d);
    assert Comparable(Var([a, b])) == ComparableItems([a, b]) by { Unfold(Var([a, b])); }
    assert Comparable(Var([c, d])) == ComparableItems([c, d]) by { Unfold(Var([c, d])); }
    EscapeCons('a', "");
    EscapeCons('b', "");
    EscapeCons('.', "b");
    EscapeCons('a', ".");
    EscapeCons('.', "");
    assert ItemText(a) == "a." && ItemText(b) == "..b." && ItemText(c) == "a..." && ItemText(d) == "b.";
  }

  lemma Unfold(v: Var)
    ensures Comparable(v) == ComparableItems(v.items)
  {
  }

  lemma EscapeCons(c: char, s: string)
    ensures Escape([c] + s) == (if c == '.' then ".." else [c]) + Escape(s)
    ensures Escape("") == ""
  {
    assert ([c] + s)[1..] == s;
  }
}
