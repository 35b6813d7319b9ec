/** The functions of Go's `strings` package that Amesh uses, and string sets with their sorted listing. */
module Strings {

  /** Go's `<` on strings. */
  predicate Less(a: string, b: string) {
    b != [] && (a == [] || a[0] < b[0] || (a[0] == b[0] && Less(a[1..], b[1..])))
  }

  lemma LessTrichotomy(a: string, b: string)
    ensures !(Less(a, b) && Less(b, a)) && !Less(a, a)
    ensures a == b || Less(a, b) || Less(b, a)
  {
    if a != [] && b != [] && a[0] == b[0] {
      LessTrichotomy(a[1..], b[1..]);
      assert a == [a[0]] + a[1..] && b == [b[0]] + b[1..];
    }
    if a != [] {
      LessTrichotomy(a[1..], a[1..]);
    }
  }

  lemma LessTransitive(a: string, b: string, c: string)
    requires Less(a, b) && Less(b, c)
    ensures Less(a, c)
  {
    if a != [] && a[0] == b[0] && b[0] == c[0] {
      LessTransitive(a[1..], b[1..], c[1..]);
    }
  }

  /** `strings.Contains`. */
  predicate Contains(s: string, sub: string) {
    exists i :: 0 <= i <= |s| && sub <= s[i..]
  }

  function TrimPrefix(s: string, p: string): string {
    if p <= s then s[|p|..] else s
  }

  /** What precedes the first `c`, or all of `s` if there is none: `strings.Split(s, c)[0]`. */
  function Before(s: string, c: char): string {
    if s == [] || s[0] == c then [] else [s[0]] + Before(s[1..], c)
  }

  /** `strings.Replace(s, from, to, -1)` for a non-empty `from`. */
  function ReplaceAll(s: string, from: string, to: string): string
    requires from != []
  {
    if s == [] then []
    else if from <= s then to + ReplaceAll(s[|from|..], from, to)
    else [s[0]] + ReplaceAll(s[1..], from, to)
  }

  /** `strings.ToLower` on ASCII text. */
  function ToLower(s: string): string {
    if s == [] then [] else [if 'A' <= s[0] <= 'Z' then s[0] + ' ' else s[0]] + ToLower(s[1..])
  }

  function Join(xs: seq<string>, sep: string): string {
    if xs == [] then "" else if |xs| == 1 then xs[0] else xs[0] + sep + Join(xs[1..], sep)
  }

  /** `strings.Split(s, c)` for a separator of one character. */
  function SplitAt(s: string, c: char): (parts: seq<string>)
    ensures |parts| > 0
  {
    if s == "" then [""]
    else if s[0] == c then [""] + SplitAt(s[1..], c)
    else
      var rest := SplitAt(s[1..], c);
      [[s[0]] + rest[0]] + rest[1..]
  }

  lemma JoinCons(part: string, parts: seq<string>, sep: string)
    requires |parts| > 0
    ensures Join([part] + parts, sep) == part + sep + Join(parts, sep)
  {
    assert ([part] + parts)[1..] == parts;
  }

  lemma JoinHead(c: char, parts: seq<string>, sep: string)
    requires |parts| > 0
    ensures Join([[c] + parts[0]] + parts[1..], sep) == [c] + Join(parts, sep)
  {
    var head, rest := parts[0], parts[1..];
    if rest == [] {
      assert [[c] + head] + rest == [[c] + head];
    } else {
      JoinCons([c] + head, rest, sep);
      JoinCons(head, rest, sep);
      assert [head] + rest == parts;
      assert [c] + head + sep + Join(rest, sep) == [c] + (head + sep + Join(rest, sep));
    }
  }

  /** Splitting loses nothing: the parts joined again are the text, and no part holds the separator. */
  lemma {:induction false} SplitJoin(s: string, c: char)
    ensures Join(SplitAt(s, c), [c]) == s
    ensures forall part :: part in SplitAt(s, c) ==> c !in part
  {
    if s != "" {
      var rest := SplitAt(s[1..], c);
      SplitJoin(s[1..], c);
      if s[0] == c {
        JoinCons("", rest, [c]);
      } else {
        JoinHead(s[0], rest, [c]);
        assert rest[0] in rest;
      }
      assert s == [s[0]] + s[1..];
    }
  }

  lemma SplitInjective(s: string, t: string, c: char)
    ensures SplitAt(s, c) == SplitAt(t, c) <==> s == t
  {
    SplitJoin(s, c);
    SplitJoin(t, c);
  }

  lemma SplitFirst(s: string, c: char)
    requires s != ""
    ensures SplitAt(s, c) ==
            if s[0] == c then [""] + SplitAt(s[1..], c)
            else [[s[0]] + SplitAt(s[1..], c)[0]] + SplitAt(s[1..], c)[1..]
  {
  }

  lemma HeadConcat(x: string, a: seq<string>, b: seq<string>)
    requires |a| > 0
    ensures [x + (a + b)[0]] + (a + b)[1..] == [x + a[0]] + a[1..] + b
  {
    assert (a + b)[1..] == a[1..] + b;
  }

  lemma {:induction false} SplitConcat(s: string, c: char, t: string)
    ensures SplitAt(s + [c] + t, c) == SplitAt(s, c) + SplitAt(t, c)
  {
    hide SplitAt;
    var whole := s + [c] + t;
    SplitFirst(whole, c);
    if s == "" {
      assert whole == [c] + t && whole[1..] == t;
      SplitEmpty(c);
    } else {
      assert whole[1..] == s[1..] + [c] + t && whole[0] == s[0];
      SplitFirst(s, c);
      SplitConcat(s[1..], c, t);
      HeadConcat([s[0]], SplitAt(s[1..], c), SplitAt(t, c));
    }
  }

  lemma SplitEmpty(c: char)
    ensures SplitAt("", c) == [""]
  {
  }

  lemma {:induction false} SplitWhole(s: string, c: char)
    requires c !in s
    ensures SplitAt(s, c) == [s]
  {
    if s != "" {
      SplitWhole(s[1..], c);
      assert s == [s[0]] + s[1..];
    }
  }

  /** The text `t`, itself without the separator, stands at `i` between two separators or ends of `s`. */
  ghost predicate PartAt(s: string, c: char, t: string, i: nat) {
    && i + |t| <= |s| && s[i..i + |t|] == t && c !in t
    && (i == 0 || s[i - 1] == c) && (i + |t| == |s| || s[i + |t|] == c)
  }

  lemma PartAfter(s: string, c: char, t: string, i: nat)
    requires s != "" && (i == 0 ==> s[0] == c)
    ensures PartAt(s, c, t, i + 1) <==> PartAt(s[1..], c, t, i)
  {
    if i + |t| < |s| {
      SliceOfRest(s, i, |t|);
    }
  }

  lemma SliceOfRest(s: string, i: nat, n: nat)
    requires i + n < |s|
    ensures s[i + 1..i + 1 + n] == s[1..][i..i + n]
  {
    var a, b := s[i + 1..i + 1 + n], s[1..][i..i + n];
    assert |a| == |b| && forall k :: 0 <= k < n ==> a[k] == b[k];
  }

  lemma {:induction false} FirstPart(s: string, c: char, t: string)
    ensures SplitAt(s, c)[0] == t <==> PartAt(s, c, t, 0)
  {
    if s == "" {
      assert t == "" ==> s[0..0] == t;
    } else if s[0] == c {
      SplitFirst(s, c);
      if |t| == 0 {
        assert s[0..0] == t;
      } else if |t| <= |s| {
        assert t[0] in t && s[0..|t|][0] == s[0];
      }
    } else {
      SplitFirst(s, c);
      if t != "" {
        FirstPart(s[1..], c, t[1..]);
        assert t == [t[0]] + t[1..];
        if |t| <= |s| {
          assert s[0..|t|] == [s[0]] + s[1..][0..|t| - 1];
        }
        assert c in t <==> t[0] == c || c in t[1..];
      }
    }
  }

  lemma {:induction false} LaterPart(s: string, c: char, t: string)
    ensures t in SplitAt(s, c)[1..] <==> exists i: nat :: i > 0 && PartAt(s, c, t, i)
  {
    hide PartAt, SplitAt;
    if s == "" {
      SplitEmpty(c);
      NoPartAfterEnd(c, t);
    } else {
      var parts := SplitAt(s[1..], c);
      SplitFirst(s, c);
      LaterPart(s[1..], c, t);
      FirstPart(s[1..], c, t);
      assert t in parts <==> t == parts[0] || t in parts[1..] by { HeadOrTail(parts, t); }
      forall i: nat | i > 0 || s[0] == c ensures PartAt(s, c, t, i + 1) <==> PartAt(s[1..], c, t, i) {
        PartAfter(s, c, t, i);
      }
      if s[0] == c {
        assert SplitAt(s, c)[1..] == parts;
        LaterPlaces(s, c, t);
      } else {
        assert SplitAt(s, c)[1..] == parts[1..];
        NotAfterOther(s, c, t);
        LaterPlaces(s, c, t);
      }
    }
  }

  lemma NoPartAfterEnd(c: char, t: string)
    ensures !exists i: nat :: i > 0 && PartAt("", c, t, i)
  {
  }

  lemma NotAfterOther(s: string, c: char, t: string)
    requires s != "" && s[0] != c
    ensures !PartAt(s, c, t, 1)
  {
  }

  lemma HeadOrTail(parts: seq<string>, t: string)
    requires parts != []
    ensures t in parts <==> t == parts[0] || t in parts[1..]
  {
    assert parts == [parts[0]] + parts[1..];
  }

  /** Places in a text and in its rest. */
  lemma LaterPlaces(s: string, c: char, t: string)
    requires s != ""
    requires forall i: nat :: i > 0 || s[0] == c ==> (PartAt(s, c, t, i + 1) <==> PartAt(s[1..], c, t, i))
    ensures s[0] == c ==>
              ((exists i: nat :: i > 0 && PartAt(s, c, t, i)) <==> exists i: nat :: PartAt(s[1..], c, t, i))
    ensures s[0] != c ==>
              ((exists i: nat :: i > 0 && PartAt(s, c, t, i)) <==> exists i: nat :: i > 0 && PartAt(s[1..], c, t, i))
  {
    if i: nat :| i > 0 && PartAt(s, c, t, i) {
      if s[0] != c && i == 1 {
        NotAfterOther(s, c, t);
      } else {
        var j: nat := i - 1;
        assert PartAt(s, c, t, j + 1) <==> PartAt(s[1..], c, t, j);
      }
    }
    if i: nat :| (i > 0 || s[0] == c) && PartAt(s[1..], c, t, i) {
      assert PartAt(s, c, t, i + 1);
    }
  }

  /** The parts of a split text are exactly what stands between separators or ends. */
  lemma SplitMember(s: string, c: char, t: string)
    ensures t in SplitAt(s, c) <==> exists i: nat :: PartAt(s, c, t, i)
  {
    hide PartAt, SplitAt;
    HeadOrTail(SplitAt(s, c), t);
    FirstPart(s, c, t);
    LaterPart(s, c, t);
  }

  /** What precedes a separator that may be missing. */
  lemma {:induction false} BeforeExact(s: string, c: char, t: string)
    ensures Before(s, c) == t <==> c !in t && (s == t || t + [c] <= s)
  {
    if s != [] && s[0] != c {
      if t != [] {
        BeforeExact(s[1..], c, t[1..]);
        assert t == [t[0]] + t[1..] && s == [s[0]] + s[1..];
        assert (t + [c])[1..] == t[1..] + [c];
        assert t + [c] == [t[0]] + (t[1..] + [c]);
        assert s[0] == t[0] ==> (t + [c] <= s <==> t[1..] + [c] <= s[1..]);
      } else {
        assert !([c] <= s);
      }
    } else if s != [] && t != [] && t + [c] <= s {
      assert t[0] == s[0] && t[0] in t;
    } else if s != [] {
      assert [c] <= s;
    }
  }

  lemma Regroup(x: string, y: string, z: string)
    ensures x + y + z == x + (y + z)
  {
  }

  ghost function Elements(xs: seq<string>): set<string> {
    set x | x in xs
  }

  ghost predicate StrictlySorted(xs: seq<string>) {
    forall i, j :: 0 <= i < j < |xs| ==> Less(xs[i], xs[j])
  }

  /** `x` put at its place in a strictly sorted list. */
  function Insert(xs: seq<string>, x: string): seq<string> {
    if xs == [] || Less(x, xs[0]) then [x] + xs
    else if x == xs[0] then xs
    else [xs[0]] + Insert(xs[1..], x)
  }

  lemma {:induction false} InsertElements(xs: seq<string>, x: string, y: string)
    ensures y in Insert(xs, x) <==> y in xs || y == x
  {
    if xs != [] && !Less(x, xs[0]) && x != xs[0] {
      InsertElements(xs[1..], x, y);
      assert xs == [xs[0]] + xs[1..];
    }
  }

  lemma {:induction false} InsertSorted(xs: seq<string>, x: string)
    requires StrictlySorted(xs)
    ensures StrictlySorted(Insert(xs, x)) && Elements(Insert(xs, x)) == Elements(xs) + {x}
  {
    forall y ensures y in Insert(xs, x) <==> y in xs || y == x { InsertElements(xs, x, y); }
    if xs != [] && Less(x, xs[0]) {
      forall j | 0 < j < |xs| ensures Less(x, xs[j]) { LessTransitive(x, xs[0], xs[j]); }
    } else if xs != [] && x != xs[0] {
      LessTrichotomy(x, xs[0]);
      InsertSorted(xs[1..], x);
      SortedCons(xs, x, Insert(xs[1..], x));
    }
  }

  lemma SortedCons(xs: seq<string>, x: string, rest: seq<string>)
    requires xs != [] && StrictlySorted(xs) && Less(xs[0], x)
    requires StrictlySorted(rest) && Elements(rest) == Elements(xs[1..]) + {x}
    ensures StrictlySorted([xs[0]] + rest)
  {
    forall j | 0 <= j < |rest| ensures Less(xs[0], rest[j]) {
      assert rest[j] in Elements(rest);
    }
  }

  /** There is only one strictly sorted listing of a set. */
  lemma {:induction false} SortedUnique(xs: seq<string>, ys: seq<string>)
    requires StrictlySorted(xs) && StrictlySorted(ys) && Elements(xs) == Elements(ys)
    ensures xs == ys
  {
    NoElements(xs);
    NoElements(ys);
    if xs != [] {
      assert xs[0] in Elements(ys);
      var j :| 0 <= j < |ys| && ys[j] == xs[0];
      assert ys[0] in Elements(xs);
      var i :| 0 <= i < |xs| && xs[i] == ys[0];
      LessTrichotomy(xs[0], ys[0]);
      assert xs[0] == ys[0];
      TailElements(xs);
      TailElements(ys);
      SortedUnique(xs[1..], ys[1..]);
      assert xs == [xs[0]] + xs[1..] && ys == [ys[0]] + ys[1..];
    }
  }

  lemma NoElements(xs: seq<string>)
    ensures Elements(xs) == {} <==> xs == []
  {
    if xs != [] {
      assert xs[0] in Elements(xs);
    }
  }

  lemma TailElements(xs: seq<string>)
    requires StrictlySorted(xs) && xs != []
    ensures Elements(xs[1..]) == Elements(xs) - {xs[0]}
  {
    assert xs == [xs[0]] + xs[1..];
    LessTrichotomy(xs[0], xs[0]);
  }

  /** The strictly sorted listing of a set. */
  ghost function Ordered(s: set<string>): (r: seq<string>)
    ensures StrictlySorted(r) && Elements(r) == s
  {
    if s == {} then []
    else
      var x :| x in s;
      InsertSorted(Ordered(s - {x}), x);
      Insert(Ordered(s - {x}), x)
  }

  /** `StringSet.Strings`: the elements in the order Go's map iteration happens to give. */
  method ListSet(s: set<string>) returns (xs: seq<string>)
    ensures Elements(xs) == s && |xs| == |s|
  {
    xs := [];
    var rest := s;
    while rest != {}
      invariant rest <= s && Elements(xs) == s - rest && |xs| + |rest| == |s|
    {
      var e :| e in rest;
      assert Elements(xs + [e]) == Elements(xs) + {e};
      xs := xs + [e];
      rest := rest - {e};
    }
  }

  /** `StringSet.OrderedStrings`. */
  method OrderedStrings(s: set<string>) returns (r: seq<string>)
    ensures r == Ordered(s)
  {
    var xs := ListSet(s);
    r := [];
    for i := 0 to |xs|
      invariant StrictlySorted(r) && Elements(r) == Elements(xs[..i])
    {
      InsertSorted(r, xs[i]);
      r := Insert(r, xs[i]);
      assert xs[..i + 1] == xs[..i] + [xs[i]];
    }
    assert xs[..|xs|] == xs;
    SortedUnique(r, Ordered(s));
  }
}
