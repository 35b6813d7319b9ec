/**
 Route ids. Two routes of one name are told apart by a text of their path, case sensitivity and
 expressions; this module says exactly when that text tells them apart.
 */
module RouteIds {
  import opened GoTypes
  import opened Apisix
  import opened Agreement
  import opened ComparableVar
  import opened Matchers
  import opened Plugins
  import opened RouteNames
  import opened RouteTranslator
  import opened Strings

  const NO_EXPRESSION := Var([])

  /** The expressions of a route, as a set; an unknown query matcher contributes the empty one. */
  ghost function Expressions(r: XdsRoute): set<Var>
    requires Supported(r)
  {
    set v | v in RouteVars(r)
  }

  /** The same expressions, or none on either side except for the empty one. */
  ghost predicate SameExpressions(r: XdsRoute, r': XdsRoute)
    requires Supported(r) && Supported(r')
  {
    || Expressions(r) == Expressions(r')
    || (Expressions(r) <= {NO_EXPRESSION} && Expressions(r') <= {NO_EXPRESSION})
  }

  /** An expression the translator builds for a matcher it knows. */
  ghost predicate Known(v: Var) {
    && Comparable(v) != "" && Comparable(v)[0] in {'h', 'r', 'a'}
    && exists m :: v == MatcherVar(m) && IsOp(m.op)
  }

  /** The text of such an expression. */
  ghost predicate KnownText(x: string) {
    exists v :: x == Comparable(v) && Known(v)
  }

  ghost predicate KnownTexts(xs: seq<string>) {
    forall i :: 0 <= i < |xs| ==> KnownText(xs[i])
  }

  // Every expression of a route is known or empty.

  lemma KnownMatcher(m: Matcher)
    requires IsOp(m.op) && m.name != "" && m.name[0] in {'h', 'r', 'a'}
    ensures Known(MatcherVar(m))
  {
    hide MatcherVar, Comparable;
    MatcherText(m);
    assert Escape(m.name)[0] == m.name[0];
  }

  lemma HeaderKnown(h: HeaderMatcher)
    requires HeaderPattern(h.specifier).Some?
    ensures Known(HeaderVar(h))
  {
    hide Known, MatcherVar, HeaderPattern;
    VariableStart(h.name);
    KnownMatcher(Matcher(VariableName(h.name), h.invertMatch, "~~", HeaderPattern(h.specifier).value));
  }

  lemma VariableStart(header: string)
    ensures VariableName(header) != "" && VariableName(header)[0] in {'h', 'r'}
  {
  }

  lemma QueryKnown(q: QueryMatcher)
    requires QuerySupported(q)
    ensures QueryVar(q) == NO_EXPRESSION || Known(QueryVar(q))
  {
    hide Known, MatcherVar, StringMatchValue;
    var name := "arg_" + q.name;
    assert name[0] == 'a';
    match q.specifier {
      case QueryPresent => KnownMatcher(Matcher(name, true, "~~", "^$"));
      case QueryString(m) =>
        KnownMatcher(Matcher(name, false, if m.ignoreCase then "~*" else "~~", StringMatchValue(m).value));
      case UnknownQueryMatch =>
    }
  }

  lemma ExpressionsKnown(r: XdsRoute, v: Var)
    requires Supported(r) && v in Expressions(r)
    ensures v == NO_EXPRESSION || Known(v)
  {
    hide Known, HeaderVar, QueryVar, HeaderPattern, QuerySupported;
    var i :| 0 <= i < |RouteVars(r)| && RouteVars(r)[i] == v;
    if i < |r.headers| {
      HeaderKnown(r.headers[i]);
    } else {
      QueryKnown(r.queries[i - |r.headers|]);
    }
  }

  // Joined texts can be taken apart again.

  lemma KnownDecodes(x: string, t: string) returns (m: Matcher)
    requires KnownText(x) && (t == [] || t[0] != '.')
    ensures x == Comparable(MatcherVar(m)) && Decode(x + t) == Some((m, t)) && x != "" && x[0] != '-'
  {
    hide MatcherVar, Comparable, Decode;
    var v :| x == Comparable(v) && Known(v);
    m :| v == MatcherVar(m) && IsOp(m.op);
    DecodeComparable(m, t);
  }

  /** What follows the first of some joined texts. */
  function Following(xs: seq<string>): string
    requires xs != []
  {
    if |xs| == 1 then "" else "-" + Join(xs[1..], "-")
  }

  lemma JoinFirst(xs: seq<string>)
    requires xs != []
    ensures Join(xs, "-") == xs[0] + Following(xs)
    ensures Following(xs) == "" || Following(xs)[0] == '-'
    ensures Following(xs) == "" <==> |xs| == 1
  {
    if |xs| > 1 {
      Regroup(xs[0], "-", Join(xs[1..], "-"));
    }
  }

  lemma {:induction false} JoinDecodes(xs: seq<string>, ys: seq<string>)
    requires KnownTexts(xs) && KnownTexts(ys) && Join(xs, "-") == Join(ys, "-")
    ensures xs == ys
  {
    hide KnownText, Decode, Following;
    if xs == [] || ys == [] {
      JoinNothing(xs);
      JoinNothing(ys);
    } else {
      JoinFirst(xs);
      JoinFirst(ys);
      var m := KnownDecodes(xs[0], Following(xs));
      var n := KnownDecodes(ys[0], Following(ys));
      assert xs[0] == ys[0] && Following(xs) == Following(ys);
      if |xs| > 1 {
        FollowingRest(xs);
        FollowingRest(ys);
        JoinDecodes(xs[1..], ys[1..]);
        assert xs == [xs[0]] + xs[1..] && ys == [ys[0]] + ys[1..];
      }
    }
  }

  lemma FollowingRest(xs: seq<string>)
    requires |xs| > 1
    ensures Following(xs)[1..] == Join(xs[1..], "-")
  {
  }

  lemma JoinNothing(xs: seq<string>)
    requires KnownTexts(xs)
    ensures Join(xs, "-") == "" <==> xs == []
    ensures xs != [] ==> Join(xs, "-")[0] in {'h', 'r', 'a'}
  {
    if xs != [] {
      assert KnownText(xs[0]);
      var v :| xs[0] == Comparable(v) && Known(v);
      JoinFirst(xs);
    }
  }

  /** The joined listing of a set of texts, split into the known ones and the empty one. */
  lemma EmptyFirst(texts: set<string>)
    ensures "" in texts ==> Ordered(texts) == [""] + Ordered(texts - {""})
  {
    hide Ordered;
    if "" in texts {
      var rest := Ordered(texts - {""});
      assert forall i :: 0 <= i < |rest| ==> rest[i] in Elements(rest);
      assert forall i :: 0 <= i < |rest| ==> Less("", rest[i]);
      assert StrictlySorted([""] + rest);
      assert Elements([""] + rest) == {""} + Elements(rest);
      SortedUnique(Ordered(texts), [""] + rest);
    }
  }

  lemma OrderedInjective(a: set<string>, b: set<string>)
    ensures Ordered(a) == Ordered(b) <==> a == b
  {
    hide Ordered;
    assert Elements(Ordered(a)) == a && Elements(Ordered(b)) == b;
  }

  ghost function Listed(texts: set<string>): string {
    Join(Ordered(texts), "-")
  }

  lemma OrderedKnown(texts: set<string>)
    requires forall x :: x in texts ==> KnownText(x)
    ensures KnownTexts(Ordered(texts))
  {
    hide Ordered, KnownText;
    var xs := Ordered(texts);
    assert forall i :: 0 <= i < |xs| ==> xs[i] in Elements(xs);
  }

  lemma OrderedNone(texts: set<string>)
    ensures Ordered(texts) == [] <==> texts == {}
  {
    hide Ordered;
    NoElements(Ordered(texts));
  }

  /** The listing with an empty text in it: only the empty text itself leaves no trace. */
  lemma ListedEmpty(texts: set<string>)
    requires "" in texts
    ensures var known := texts - {""};
            Listed(texts) == if known == {} then "" else "-" + Listed(known)
  {
    hide Ordered;
    var known := texts - {""};
    EmptyFirst(texts);
    OrderedNone(known);
    assert ([""] + Ordered(known))[1..] == Ordered(known);
  }

  ghost predicate Readable(texts: set<string>) {
    forall x :: x in texts - {""} ==> KnownText(x)
  }

  /** The listings of two sets of texts agree if and only if the sets do, up to a lone empty text. */
  lemma ListedIff(a: set<string>, b: set<string>)
    requires Readable(a) && Readable(b)
    ensures Listed(a) == Listed(b) <==> a == b || (a <= {""} && b <= {""})
    ensures a <= {""} ==> Listed(a) == ""
  {
    hide Ordered, KnownText, Join, Listed;
    var a', b' := a - {""}, b - {""};
    ListedParts(a);
    ListedParts(b);
    KnownIff(a', b');
    PrefixInjective("-", Listed(a'), Listed(b'));
    var x, y := Listed(a'), Listed(b');
    assert a' != {} && b' != {} ==>
        (Listed(a) == Listed(b) <==> x == y && ("" in a <==> "" in b)) by {
      if a' != {} && b' != {} {
        DashFirst(x, y);
        DashFirst(y, x);
        assert "" + x == x && "" + y == y;
      }
    }
    assert a == b <==> a' == b' && ("" in a <==> "" in b) by { WithoutEmpty(a, b); }
    assert (a <= {""} <==> a' == {}) && (b <= {""} <==> b' == {});
  }

  lemma DashFirst(x: string, y: string)
    requires y == "" || y[0] != '-'
    ensures "-" + x != y
  {
    assert ("-" + x)[0] == '-';
  }

  lemma WithoutEmpty(a: set<string>, b: set<string>)
    ensures a == b <==> a - {""} == b - {""} && ("" in a <==> "" in b)
  {
    if a - {""} == b - {""} && ("" in a <==> "" in b) {
      forall x ensures x in a <==> x in b {
        assert x in a - {""} <==> x in b - {""};
      }
    }
  }

  lemma ListedParts(a: set<string>)
    requires Readable(a)
    ensures var known := a - {""};
            && Listed(a) == (if known == {} then "" else (if "" in a then "-" else "") + Listed(known))
            && (known != {} ==> Listed(known) != "" && Listed(known)[0] != '-')
  {
    hide Ordered, KnownText, Join;
    var known := a - {""};
    OrderedKnown(known);
    OrderedNone(known);
    JoinNothing(Ordered(known));
    if "" in a {
      ListedEmpty(a);
    } else {
      assert known == a;
    }
  }

  lemma KnownIff(a: set<string>, b: set<string>)
    requires (forall x :: x in a ==> KnownText(x)) && (forall x :: x in b ==> KnownText(x))
    ensures Listed(a) == Listed(b) <==> a == b
  {
    hide Ordered, KnownText, Join;
    OrderedKnown(a);
    OrderedKnown(b);
    if Listed(a) == Listed(b) {
      JoinDecodes(Ordered(a), Ordered(b));
      OrderedInjective(a, b);
    }
  }

  // From texts back to expressions.

  ghost function TextsOf(r: XdsRoute): set<string>
    requires Supported(r)
  {
    Texts(RouteVars(r))
  }

  lemma TextOfKnown(v: Var, w: Var)
    requires (v == NO_EXPRESSION || Known(v)) && (w == NO_EXPRESSION || Known(w))
    ensures Comparable(v) == Comparable(w) <==> v == w
    ensures Comparable(v) == "" <==> v == NO_EXPRESSION
    ensures v == NO_EXPRESSION || KnownText(Comparable(v))
  {
    hide MatcherVar;
    assert Comparable(NO_EXPRESSION) == "";
    if v != NO_EXPRESSION && w != NO_EXPRESSION && Comparable(v) == Comparable(w) {
      var m :| v == MatcherVar(m) && IsOp(m.op);
      var n :| w == MatcherVar(n) && IsOp(n.op);
      ComparableInjective(m, n);
    }
  }

  lemma TextsReadable(r: XdsRoute)
    requires Supported(r)
    ensures Readable(TextsOf(r)) && (TextsOf(r) <= {""} <==> Expressions(r) <= {NO_EXPRESSION})
  {
    hide Known, KnownText, RouteVars, Comparable, Supported;
    forall v | v in Expressions(r)
      ensures (Comparable(v) == "" <==> v == NO_EXPRESSION) && (v == NO_EXPRESSION || KnownText(Comparable(v)))
    {
      ExpressionsKnown(r, v);
      TextOfKnown(v, v);
    }
    if TextsOf(r) <= {""} {
      forall v | v in Expressions(r) ensures v == NO_EXPRESSION {
        assert Comparable(v) in TextsOf(r);
      }
    }
    forall x | x in TextsOf(r) ensures exists v :: v in Expressions(r) && x == Comparable(v) {
      var v :| v in RouteVars(r) && x == Comparable(v);
      assert v in Expressions(r);
    }
  }

  lemma TextsWithin(r: XdsRoute, r': XdsRoute)
    requires Supported(r) && Supported(r')
    ensures TextsOf(r) <= TextsOf(r') <==> Expressions(r) <= Expressions(r')
  {
    hide Known, KnownText, RouteVars, Comparable, Supported;
    if TextsOf(r) <= TextsOf(r') {
      forall v | v in Expressions(r) ensures v in Expressions(r') {
        assert Comparable(v) in TextsOf(r);
        var w :| w in RouteVars(r') && Comparable(w) == Comparable(v);
        assert w in Expressions(r');
        ExpressionsKnown(r, v);
        ExpressionsKnown(r', w);
        TextOfKnown(v, w);
      }
    }
    if Expressions(r) <= Expressions(r') {
      forall x | x in TextsOf(r) ensures x in TextsOf(r') {
        var v :| v in RouteVars(r) && Comparable(v) == x;
        assert v in Expressions(r);
        assert v in Expressions(r');
      }
    }
  }

  lemma ExpressionsIff(r: XdsRoute, r': XdsRoute)
    requires Supported(r) && Supported(r')
    ensures Listed(TextsOf(r)) == Listed(TextsOf(r')) <==> SameExpressions(r, r')
    ensures StartsAside(Listed(TextsOf(r)))
  {
    hide Listed, TextsOf, Expressions, Readable, Supported;
    TextsReadable(r);
    TextsReadable(r');
    TextsWithin(r, r');
    TextsWithin(r', r);
    ListedIff(TextsOf(r), TextsOf(r'));
    ListedStart(TextsOf(r));
  }

  // The path and the case sensitivity in front of the listing.

  ghost predicate StartsAside(s: string) {
    s == "" || s[0] in {'-', 'h', 'r', 'a'}
  }

  lemma ListedStart(a: set<string>)
    requires Readable(a)
    ensures StartsAside(Listed(a))
  {
    hide Ordered, KnownText, Join;
    var known := a - {""};
    OrderedKnown(known);
    OrderedNone(known);
    JoinNothing(Ordered(known));
    ListedParts(a);
    if "" !in a {
      assert known == a;
    }
  }

  /** The case sensitivity of a route that is not neglected. */
  predicate Sensitive(b: Option<bool>) {
    b == None || b == Some(true)
  }

  lemma KeptSensitive(r: XdsRoute)
    requires !Neglected(r)
    ensures Sensitive(r.caseSensitive)
  {
    if r.caseSensitive.Some? {
      assert r.caseSensitive.value || r.caseSensitive == Some(false);
    }
  }

  function Marker(b: Option<bool>): string {
    "-" + ShowSensitive(b) + "-"
  }

  lemma MarkerShape(b: Option<bool>)
    requires Sensitive(b)
    ensures |Marker(b)| > 2 && Marker(b)[0] == '-' && Marker(b)[|Marker(b)| - 1] == '-'
    ensures forall i :: 0 < i < |Marker(b)| - 1 ==> Marker(b)[i] != '-'
    ensures Marker(b)[1] == if b.None? then '<' else 'v'
  {
  }

  /** The second path goes on where the first one ends, through its mark, and the rest is listed by the first. */
  ghost predicate GoesOn(u: string, b: Option<bool>, j: string, u': string, b': Option<bool>, j': string) {
    u + Marker(b) <= u' && j == u'[|u| + |Marker(b)|..] + Marker(b') + j'
  }

  /** A longer path gives the same text only if it goes on where the shorter one ends. */
  lemma Overlap(u: string, b: Option<bool>, j: string, u': string, b': Option<bool>, j': string)
    requires Sensitive(b) && Sensitive(b') && |u| < |u'| && StartsAside(j)
    ensures u + Marker(b) + j == u' + Marker(b') + j' <==> GoesOn(u, b, j, u', b', j')
  {
    hide Marker;
    var s, s', n := u + Marker(b) + j, u' + Marker(b') + j', |Marker(b)|;
    if |u'| - |u| < n {
      NoRoom(u, b, j, u', b', j');
    } else {
      assert u'[..|u| + n] == s'[..|u| + n] && s[..|u| + n] == u + Marker(b);
      assert s[|u| + n..] == j;
      assert s'[|u| + n..] == u'[|u| + n..] + Marker(b') + j';
      assert s == s[..|u| + n] + s[|u| + n..] && s' == s'[..|u| + n] + s'[|u| + n..];
    }
  }

  /** The two marks cannot overlap. */
  lemma NoRoom(u: string, b: Option<bool>, j: string, u': string, b': Option<bool>, j': string)
    requires Sensitive(b) && Sensitive(b') && |u| < |u'| < |u| + |Marker(b)| && StartsAside(j)
    ensures u + Marker(b) + j != u' + Marker(b') + j'
  {
    hide Marker;
    MarkerShape(b);
    MarkerShape(b');
    var s, s', n := u + Marker(b) + j, u' + Marker(b') + j', |Marker(b)|;
    assert s[|u'|] == Marker(b)[|u'| - |u|] && s'[|u'|] == '-' && s'[|u'| + 1] == Marker(b')[1];
    if |u'| - |u| == n - 1 && j != "" {
      assert s[|u'| + 1] == j[0];
    }
  }

  lemma SamePath(u: string, b: Option<bool>, j: string, b': Option<bool>, j': string)
    requires Sensitive(b) && Sensitive(b')
    ensures u + Marker(b) + j == u + Marker(b') + j' <==> b == b' && j == j'
  {
    hide Marker;
    MarkerShape(b);
    MarkerShape(b');
    var s, s' := u + Marker(b) + j, u + Marker(b') + j';
    assert s[|u| + 1] == Marker(b)[1] && s'[|u| + 1] == Marker(b')[1];
    if b == b' {
      PrefixInjective(u + Marker(b), j, j');
    }
  }

  lemma SameText(u: string, b: Option<bool>, j: string, u': string, b': Option<bool>, j': string)
    requires Sensitive(b) && Sensitive(b') && StartsAside(j) && StartsAside(j')
    ensures u + Marker(b) + j == u' + Marker(b') + j' <==>
            || (u == u' && b == b' && j == j')
            || GoesOn(u, b, j, u', b', j') || GoesOn(u', b', j', u, b, j)
  {
    hide Marker, StartsAside;
    MarkerShape(b);
    MarkerShape(b');
    var s, s' := u + Marker(b) + j, u' + Marker(b') + j';
    if |u| < |u'| {
      Overlap(u, b, j, u', b', j');
    } else if |u'| < |u| {
      Overlap(u', b', j', u, b, j);
    } else {
      assert s[..|u|] == u && s'[..|u|] == u';
      if u == u' {
        SamePath(u, b, j, b', j');
      }
    }
  }

  lemma ConditionsShape(r: XdsRoute)
    requires Supported(r)
    ensures MatchConditions(r) == Url(r).value + Marker(r.caseSensitive) + Listed(TextsOf(r))
  {
    hide Ordered, RouteVars, Join, Texts;
    var u, c, j := Url(r).value, ShowSensitive(r.caseSensitive), Join(Ordered(TextsOf(r)), "-");
    assert u + "-" + c + "-" + j == u + ("-" + c + "-") + j;
  }

  /** What the expressions of a route contribute to its condition text. */
  ghost function Listing(r: XdsRoute): string
    requires Supported(r)
  {
    Listed(TextsOf(r))
  }

  /** The path of `r'` continues that of `r` with its mark and with text that the expressions of `r` begin with. */
  ghost predicate RunsOver(r: XdsRoute, r': XdsRoute)
    requires Supported(r) && Supported(r')
  {
    GoesOn(Url(r).value, r.caseSensitive, Listing(r), Url(r').value, r'.caseSensitive, Listing(r'))
  }

  ghost predicate SameMatching(r: XdsRoute, r': XdsRoute)
    requires Supported(r) && Supported(r')
  {
    Url(r) == Url(r') && r.caseSensitive == r'.caseSensitive && SameExpressions(r, r')
  }

  /** The conditions that the text does not tell apart. */
  ghost predicate Confused(r: XdsRoute, r': XdsRoute)
    requires Supported(r) && Supported(r')
  {
    SameMatching(r, r') || RunsOver(r, r') || RunsOver(r', r)
  }

  /**
   Exactly when two routes have the same condition text: same path, same case sensitivity and
   the same expressions as a set, where routes with no expression but the empty one count as
   the same; or one path runs over the mark of the other into its expressions.
   */
  lemma ConditionsIff(r: XdsRoute, r': XdsRoute)
    requires Supported(r) && Supported(r') && !Neglected(r) && !Neglected(r')
    ensures MatchConditions(r) == MatchConditions(r') <==> Confused(r, r')
  {
    hide Listed, TextsOf, SameExpressions, MatchConditions, Marker, HeadersSupported, QueriesSupported, StartsAside,
         GoesOn;
    KeptSensitive(r);
    KeptSensitive(r');
    ConditionsShape(r);
    ConditionsShape(r');
    ExpressionsIff(r, r');
    ExpressionsIff(r', r);
    SameText(Url(r).value, r.caseSensitive, Listing(r), Url(r').value, r'.caseSensitive, Listing(r'));
    assert Url(r) == Url(r') <==> Url(r).value == Url(r').value;
  }

  /** The path of `r'` begins with that of `r` followed by its mark; few paths do. */
  predicate Continues(r: XdsRoute, r': XdsRoute)
    requires Url(r).Some? && Url(r').Some?
  {
    Url(r).value + Marker(r.caseSensitive) <= Url(r').value
  }

  /** Unless one path continues the other in this way, the text tells different conditions apart. */
  lemma ConditionsToldApart(r: XdsRoute, r': XdsRoute)
    requires Supported(r) && Supported(r') && !Neglected(r) && !Neglected(r')
    requires !Continues(r, r') && !Continues(r', r)
    ensures MatchConditions(r) == MatchConditions(r') <==> SameMatching(r, r')
  {
    hide MatchConditions, SameMatching, Listing, Marker;
    ConditionsIff(r, r');
  }

  lemma Underscored(a: string, b: string, c: string, d: string)
    requires '_' !in a && '_' !in c
    ensures a + "_" + b == c + "_" + d <==> a == c && b == d
  {
    var s, t := a + "_" + b, c + "_" + d;
    assert s[|a|] == '_' && t[|c|] == '_';
    assert |a| < |c| && |a| < |t| ==> t[|a|] == c[|a|];
    assert |c| < |a| && |c| < |s| ==> s[|c|] == a[|c|];
    if s == t && |a| == |c| {
      assert s[..|a|] == a && t[..|c|] == c && s[|a| + 1..] == b && t[|c| + 1..] == d;
    }
  }

  /**
   The ids of two routes, of whatever virtual hosts and configurations and with whatever plugins:
   they coincide if and only if the names list the same segments and the conditions are confused.
   Generated ids are asked to tell the texts involved apart and to hold no underscore.
   */
  lemma SameIdIff(genId: string -> string, plugins: PluginMap, order: seq<ApisixPlugin>, config: string,
                  vh: VirtualHost, r: XdsRoute, plugins': PluginMap, order': seq<ApisixPlugin>, config': string,
                  vh': VirtualHost, r': XdsRoute)
    requires Supported(r) && Supported(r') && !Neglected(r) && !Neglected(r')
    requires var names := {RouteName(config, vh.name, r), RouteName(config', vh'.name, r')};
             InjectiveOn(genId, names) && forall n :: n in names ==> '_' !in genId(n)
    requires InjectiveOn(genId, {MatchConditions(r), MatchConditions(r')})
    ensures Build(genId, plugins, order, config, vh, r).id == Build(genId, plugins', order', config', vh', r').id <==>
            && NameSegments(config, vh.name, r) == NameSegments(config', vh'.name, r')
            && Confused(r, r')
  {
    hide RouteName, RoutePlugins, Description, RouteVars, MatchConditions, HostSet, Confused, Url, Supported,
         NameSegments;
    ConditionsIff(r, r');
    SameNameIff(config, vh.name, r, config', vh'.name, r');
    Underscored(genId(RouteName(config, vh.name, r)), genId(MatchConditions(r)),
                genId(RouteName(config', vh'.name, r')), genId(MatchConditions(r')));
  }

  /** A route that matches on nothing but its path, and one that has an unknown query matcher besides, share an id. */
  lemma UnknownQueryCollides(genId: string -> string, plugins: PluginMap, order: seq<ApisixPlugin>, config: string,
                             vh: VirtualHost, r: XdsRoute, name: string)
    requires Supported(r) && r.headers == [] && r.queries == []
    ensures var r' := r.(queries := [QueryMatcher(name, UnknownQueryMatch)]);
            && Supported(r') && RouteVars(r) != RouteVars(r')
            && Build(genId, plugins, order, config, vh, r).id == Build(genId, plugins, order, config, vh, r').id
  {
    hide RouteName, RoutePlugins, Description, HostSet, Ordered, Join;
    var r' := r.(queries := [QueryMatcher(name, UnknownQueryMatch)]);
    assert RouteVars(r) == [] && RouteVars(r') == [NO_EXPRESSION];
    assert forall v :: v in [NO_EXPRESSION] <==> v == NO_EXPRESSION;
    assert Comparable(NO_EXPRESSION) == "";
    assert Texts([]) == {} && Texts([NO_EXPRESSION]) == {""};
    ListedIff({}, {""});
    assert Listed({}) == Listed({""});
    SameRouteName(config, vh.name, r, r');
  }

  lemma {:induction false} EscapeDotless(s: string)
    requires '.' !in s
    ensures Escape(s) == s
  {
    if s != "" {
      EscapeDotless(s[1..]);
      assert s == [s[0]] + s[1..];
    }
  }

  /** The listing of one known expression is its text. */
  lemma ListedOne(r: XdsRoute, m: Matcher)
    requires Supported(r) && RouteVars(r) == [MatcherVar(m)] && IsOp(m.op)
    ensures Listed(TextsOf(r)) == Escape(m.name) + "." + AfterName(m)
  {
    hide Ordered, Comparable, RouteVars, Escape, AfterName, Supported, MatcherVar;
    var x := Comparable(MatcherVar(m));
    assert forall v :: v in RouteVars(r) <==> v == MatcherVar(m);
    assert TextsOf(r) == {x} == Elements([x]);
    SortedUnique(Ordered({x}), [x]);
    MatcherText(m);
  }

  /**
   An instance with different paths: a query parameter called `a-<nil>-http_y` on path `u`, and
   header `y` on path `u-<nil>-arg_a`.
   */
  lemma PathsCollide(r: XdsRoute, u: string, p: StringPattern)
    requires WellFormed(r) && ClusterName(r).Some? && r.caseSensitive == None && p.ExactPattern?
    ensures var m := StringMatcher(p, false);
            var a :=
              r.(path := ExactPath(u), headers := [], queries := [QueryMatcher("a-<nil>-http_y", QueryString(m))]);
            var b :=
              r.(path := ExactPath(u + "-<nil>-arg_a"), headers := [HeaderMatcher("y", StringMatch(m), false)],
                 queries := []);
            && Supported(a) && Supported(b) && Url(a) != Url(b)
            && RunsOver(a, b) && MatchConditions(a) == MatchConditions(b)
  {
    hide MatchConditions, Listed, Texts, Escape, ReplaceAll, ToLower;
    var m, pattern := StringMatcher(p, false), "^" + p.s + "$";
    var name, name' := "arg_" + "a-<nil>-http_y", "http_y";
    var a := r.(path := ExactPath(u), headers := [], queries := [QueryMatcher("a-<nil>-http_y", QueryString(m))]);
    var b := r.(path := ExactPath(u + "-<nil>-arg_a"), headers := [HeaderMatcher("y", StringMatch(m), false)],
                queries := []);
    var x, y := Matcher(name, false, "~~", pattern), Matcher(name', false, "~~", pattern);
    HeaderY();
    assert RouteVars(a) == [MatcherVar(x)] && RouteVars(b) == [MatcherVar(y)];
    ListedOne(a, x);
    ListedOne(b, y);
    EscapeDotless(name);
    EscapeDotless(name');
    assert AfterName(x) == AfterName(y);
    Interchange(u, AfterName(x));
    ConditionsIff(a, b);
  }

  lemma HeaderY()
    ensures VariableName("y") == "http_y"
  {
    assert "y"[1..] == "";
    assert ToLower("y") == "y" + ToLower("") == "y";
    assert ReplaceAll("y", "-", "_") == "y" + ReplaceAll("", "-", "_") == "y";
  }

  lemma Interchange(u: string, t: string)
    ensures GoesOn(u, None, "arg_" + "a-<nil>-http_y" + "." + t, u + "-<nil>-arg_a", None, "http_y" + "." + t)
  {
    var m, u' := "-<nil>-", u + "-<nil>-arg_a";
    assert Marker(None) == m && u' == u + m + "arg_a" && u'[|u + m|..] == "arg_a";
    assert "arg_" + "a-<nil>-http_y" == "arg_a" + m + "http_y";
  }
}
