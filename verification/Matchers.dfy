/** Envoy header and query matchers, their translation to APISIX expressions, and what both mean. */
module Matchers {
  import opened GoTypes
  import opened Apisix
  import opened ComparableVar
  import Strings

  datatype StringPattern =
    | ExactPattern(s: string) | ContainsPattern(s: string) | PrefixPattern(s: string)
    | SuffixPattern(s: string) | RegexPattern(s: string) | UnknownPattern
  datatype StringMatcher = StringMatcher(pattern: StringPattern, ignoreCase: bool)

  datatype HeaderSpecifier =
    | StringMatch(matcher: StringMatcher) | ContainsMatch(s: string) | ExactMatch(s: string)
    | PrefixMatch(s: string) | PresentMatch(present: bool) | SafeRegexMatch(s: string)
    | SuffixMatch(s: string) | UnknownHeaderMatch
  datatype HeaderMatcher = HeaderMatcher(name: string, specifier: HeaderSpecifier, invertMatch: bool)

  datatype QuerySpecifier = QueryPresent | QueryString(matcher: StringMatcher) | UnknownQueryMatch
  datatype QueryMatcher = QueryMatcher(name: string, specifier: QuerySpecifier)

  /** `getStringMatchValue`. */
  function StringMatchValue(m: StringMatcher): Option<string> {
    match m.pattern
    case ExactPattern(s) => Some("^" + s + "$")
    case ContainsPattern(s) => Some(s)
    case PrefixPattern(s) => Some("^" + s)
    case SuffixPattern(s) => Some(s + "$")
    case RegexPattern(s) => Some(s)
    case UnknownPattern => None
  }

  /** The regular expression that stands for a header matcher; there is none for an unknown one. */
  function HeaderPattern(h: HeaderSpecifier): Option<string> {
    match h
    case StringMatch(m) => StringMatchValue(m)
    case ContainsMatch(s) => Some(s)
    case ExactMatch(s) => Some("^" + s + "$")
    case PrefixMatch(s) => Some("^" + s)
    case PresentMatch(_) => Some("")
    case SafeRegexMatch(s) => Some(s)
    case SuffixMatch(s) => Some(s + "$")
    case UnknownHeaderMatch => None
  }

  /** The nginx variable a header is read from. */
  function VariableName(header: string): string {
    if header == ":method" then "request_method"
    else if header == ":authority" then "http_host"
    else "http_" + Strings.ReplaceAll(Strings.ToLower(header), "-", "_")
  }

  function HeaderVar(h: HeaderMatcher): Var
    requires HeaderPattern(h.specifier).Some?
  {
    MatcherVar(Matcher(VariableName(h.name), h.invertMatch, "~~", HeaderPattern(h.specifier).value))
  }

  ghost predicate HeadersSupported(hs: seq<HeaderMatcher>) {
    forall i :: 0 <= i < |hs| ==> HeaderPattern(hs[i].specifier).Some?
  }

  /** `getHeadersMatchVars`: one expression per matcher in order, or an error if some matcher is unknown. */
  method GetHeadersMatchVars(hs: seq<HeaderMatcher>) returns (r: Option<seq<Var>>)
    ensures r.Some? <==> HeadersSupported(hs)
    ensures r.Some? ==> |r.value| == |hs| && forall i :: 0 <= i < |hs| ==> r.value[i] == HeaderVar(hs[i])
  {
    var vars := [];
    for i := 0 to |hs|
      invariant HeadersSupported(hs[..i]) && |vars| == i
      invariant forall j :: 0 <= j < i ==> HeaderPattern(hs[j].specifier).Some? && vars[j] == HeaderVar(hs[j])
    {
      var pattern := HeaderPattern(hs[i].specifier);
      if pattern.None? {
        return None;
      }
      vars := vars + [if hs[i].invertMatch
                      then Var([Str(VariableName(hs[i].name)), Str("!"), Str("~~"), Str(pattern.value)])
                      else Var([Str(VariableName(hs[i].name)), Str("~~"), Str(pattern.value)])];
    }
    r := Some(vars);
  }

  predicate QuerySupported(q: QueryMatcher) {
    q.specifier.QueryString? ==> StringMatchValue(q.specifier.matcher).Some?
  }

  /** A matcher of an unknown kind gives an empty expression, not an error. */
  function QueryVar(q: QueryMatcher): Var
    requires QuerySupported(q)
  {
    match q.specifier
    case QueryPresent => MatcherVar(Matcher("arg_" + q.name, true, "~~", "^$"))
    case QueryString(m) =>
      MatcherVar(Matcher("arg_" + q.name, false, if m.ignoreCase then "~*" else "~~", StringMatchValue(m).value))
    case UnknownQueryMatch => Var([])
  }

  ghost predicate QueriesSupported(qs: seq<QueryMatcher>) {
    forall i :: 0 <= i < |qs| ==> QuerySupported(qs[i])
  }

  /** `getParametersMatchVars`. */
  method GetParametersMatchVars(qs: seq<QueryMatcher>) returns (r: Option<seq<Var>>)
    ensures r.Some? <==> QueriesSupported(qs)
    ensures r.Some? ==> |r.value| == |qs| && forall i :: 0 <= i < |qs| ==> r.value[i] == QueryVar(qs[i])
  {
    var vars := [];
    for i := 0 to |qs|
      invariant |vars| == i
      invariant forall j :: 0 <= j < i ==> QuerySupported(qs[j]) && vars[j] == QueryVar(qs[j])
    {
      var name := "arg_" + qs[i].name;
      var expr := Var([]);
      match qs[i].specifier {
        case QueryPresent => expr := Var([Str(name), Str("!"), Str("~~"), Str("^$")]);
        case QueryString(m) =>
          var value := StringMatchValue(m);
          if value.None? {
            return None;
          }
          expr := Var([Str(name), Str(if m.ignoreCase then "~*" else "~~"), Str(value.value)]);
        case UnknownQueryMatch =>
      }
      vars := vars + [expr];
    }
    r := Some(vars);
  }

  /** The characters that are not literal in a regular expression. */
  const METACHARACTERS := "\\^$.|?*+()[]{}"

  ghost predicate Literal(s: string) {
    forall i :: 0 <= i < |s| ==> s[i] !in METACHARACTERS
  }

  /** Regular expressions made of literal characters and the two anchors. */
  ghost predicate Anchored(p: string) {
    forall i :: 0 <= i < |p| ==> p[i] !in METACHARACTERS || p[i] == '^' || p[i] == '$'
  }

  /** Does `p` match in `s` from position `i`? As in PCRE, `$` also matches before a final newline. */
  ghost predicate MatchAt(p: string, s: string, i: nat)
    requires Anchored(p) && i <= |s|
  {
    if p == [] then true
    else if p[0] == '^' then i == 0 && MatchAt(p[1..], s, i)
    else if p[0] == '$' then (i == |s| || (i == |s| - 1 && s[i] == '\n')) && MatchAt(p[1..], s, i)
    else i < |s| && s[i] == p[0] && MatchAt(p[1..], s, i + 1)
  }

  /** The operator `~~` of APISIX expressions: the pattern matches somewhere. */
  ghost predicate Search(p: string, s: string)
    requires Anchored(p)
  {
    exists i: nat :: i <= |s| && MatchAt(p, s, i)
  }

  lemma {:induction false} MatchLiteral(l: string, tail: string, s: string, i: nat)
    requires Literal(l) && Anchored(tail) && i <= |s|
    ensures Anchored(l + tail)
    ensures MatchAt(l + tail, s, i) <==> l <= s[i..] && MatchAt(tail, s, i + |l|)
  {
    if l == [] {
      assert l + tail == tail;
    } else {
      assert (l + tail)[1..] == l[1..] + tail;
      assert l[0] !in METACHARACTERS && l[0] != '^' && l[0] != '$';
      if i < |s| {
        MatchLiteral(l[1..], tail, s, i + 1);
        assert s[i..][1..] == s[i + 1..];
        assert s[i] == l[0] && l[1..] <= s[i + 1..] <==> l <= s[i..];
      } else {
        assert Anchored(l[1..] + tail) by { MatchLiteral(l[1..], tail, s, i); }
      }
    }
  }

  /** An exact pattern matches its own text and nothing else. */
  lemma SearchExact(l: string, s: string)
    requires Literal(l) && '\n' !in s
    ensures Anchored("^" + l + "$") && (Search("^" + l + "$", s) <==> s == l)
  {
    var p := "^" + l + "$";
    assert p[1..] == l + "$";
    MatchLiteral(l, "$", s, 0);
    assert Search(p, s) <==> MatchAt(p, s, 0);
    assert s[0..] == s;
  }

  lemma SearchPrefix(l: string, s: string)
    requires Literal(l)
    ensures Anchored("^" + l) && (Search("^" + l, s) <==> l <= s)
  {
    var p := "^" + l;
    assert p[1..] == l + [] && l + [] == l;
    MatchLiteral(l, [], s, 0);
    assert Search(p, s) <==> MatchAt(p, s, 0);
    assert s[0..] == s;
  }

  ghost predicate HasSuffix(s: string, l: string) {
    |l| <= |s| && s[|s| - |l|..] == l
  }

  lemma SearchSuffix(l: string, s: string)
    requires Literal(l) && '\n' !in s
    ensures Anchored(l + "$") && (Search(l + "$", s) <==> HasSuffix(s, l))
  {
    var p := l + "$";
    forall i: nat | i <= |s|
      ensures Anchored(p) && (MatchAt(p, s, i) <==> i + |l| == |s| && s[i..] == l)
    {
      MatchLiteral(l, "$", s, i);
    }
    assert Anchored(p) by { MatchLiteral(l, "$", s, 0); }
    if HasSuffix(s, l) {
      assert MatchAt(p, s, |s| - |l|);
    }
  }

  lemma SearchContains(l: string, s: string)
    requires Literal(l)
    ensures Anchored(l) && (Search(l, s) <==> Strings.Contains(s, l))
  {
    assert l + [] == l;
    assert Anchored(l) by { MatchLiteral(l, [], s, 0); }
    forall i: nat | i <= |s| ensures MatchAt(l, s, i) <==> l <= s[i..] {
      MatchLiteral(l, [], s, i);
    }
  }

  /** What Envoy means by a string pattern. */
  ghost predicate PatternHolds(p: StringPattern, v: string)
    requires !p.RegexPattern? && !p.UnknownPattern?
  {
    match p
    case ExactPattern(s) => v == s
    case ContainsPattern(s) => Strings.Contains(v, s)
    case PrefixPattern(s) => s <= v
    case SuffixPattern(s) => HasSuffix(v, s)
  }

  /** The literal matchers: no regular expression, no case folding, and a pattern without metacharacters. */
  ghost predicate LiteralMatcher(h: HeaderSpecifier) {
    match h
    case StringMatch(m) =>
      !m.ignoreCase && !m.pattern.RegexPattern? && !m.pattern.UnknownPattern? && Literal(m.pattern.s)
    case PresentMatch(_) => true
    case SafeRegexMatch(_) => false
    case UnknownHeaderMatch => false
    case _ => Literal(h.s)
  }

  /** What Envoy means by a header matcher, on a header that is present with value `v`. */
  ghost predicate SpecifierHolds(h: HeaderSpecifier, v: string)
    requires LiteralMatcher(h)
  {
    match h
    case StringMatch(m) => PatternHolds(m.pattern, v)
    case ContainsMatch(s) => Strings.Contains(v, s)
    case ExactMatch(s) => v == s
    case PrefixMatch(s) => s <= v
    case PresentMatch(b) => b
    case SuffixMatch(s) => HasSuffix(v, s)
  }

  ghost predicate HeaderHolds(h: HeaderMatcher, v: string)
    requires LiteralMatcher(h.specifier)
  {
    SpecifierHolds(h.specifier, v) != h.invertMatch
  }

  /** What APISIX makes of a generated expression, given the values of the nginx variables. */
  ghost predicate VarHolds(v: Var, values: map<string, string>) {
    if |v.items| == 3 && v.items[0].Str? && v.items[1] == Str("~~") && v.items[2].Str? && Anchored(v.items[2].s) then
      v.items[0].s in values && Search(v.items[2].s, values[v.items[0].s])
    else if |v.items| == 4 && v.items[0].Str? && v.items[1] == Str("!") && v.items[2] == Str("~~") &&
            v.items[3].Str? && Anchored(v.items[3].s) then
      !(v.items[0].s in values && Search(v.items[3].s, values[v.items[0].s]))
    else false
  }

  lemma PatternExact(h: HeaderSpecifier, v: string)
    requires LiteralMatcher(h) && '\n' !in v
    ensures HeaderPattern(h).Some? && Anchored(HeaderPattern(h).value)
    ensures Search(HeaderPattern(h).value, v) == SpecifierHolds(h, v) <==> h != PresentMatch(false)
  {
    match h {
      case StringMatch(m) =>
        match m.pattern {
          case ExactPattern(s) => SearchExact(s, v);
          case ContainsPattern(s) => SearchContains(s, v);
          case PrefixPattern(s) => SearchPrefix(s, v);
          case SuffixPattern(s) => SearchSuffix(s, v);
        }
      case ContainsMatch(s) => SearchContains(s, v);
      case ExactMatch(s) => SearchExact(s, v);
      case PrefixMatch(s) => SearchPrefix(s, v);
      case SuffixMatch(s) => SearchSuffix(s, v);
      case PresentMatch(_) => assert MatchAt("", v, 0);
    }
  }

  /** nginx names a header's variable character by character: lower case, with underscores for dashes. */
  function NginxChar(c: char): char {
    if c == '-' then '_' else if 'A' <= c <= 'Z' then c + ' ' else c
  }

  /** The nginx variable that holds a header: the method and the authority have variables of their own. */
  ghost predicate HoldsHeader(name: string, header: string) {
    if header == ":method" then name == "request_method"
    else if header == ":authority" then name == "http_host"
    else
      && |name| == |"http_"| + |header| && "http_" <= name
      && forall i :: 0 <= i < |header| ==> name[|"http_"| + i] == NginxChar(header[i])
  }

  lemma {:induction false} CharByChar(s: string)
    ensures var t := Strings.ReplaceAll(Strings.ToLower(s), "-", "_");
            |t| == |s| && forall i :: 0 <= i < |s| ==> t[i] == NginxChar(s[i])
  {
    if s != "" {
      var rest := Strings.ToLower(s[1..]);
      CharByChar(s[1..]);
      assert Strings.ToLower(s)[1..] == rest;
      assert "-" <= Strings.ToLower(s) <==> Strings.ToLower(s)[0] == '-';
      var t := Strings.ReplaceAll(Strings.ToLower(s), "-", "_");
      assert t == [NginxChar(s[0])] + Strings.ReplaceAll(rest, "-", "_");
    }
  }

  /** The generated variable is the one that holds the header, and the only one. */
  lemma VariableExact(name: string, header: string)
    ensures name == VariableName(header) <==> HoldsHeader(name, header)
  {
    CharByChar(header);
    var own := "http_" + Strings.ReplaceAll(Strings.ToLower(header), "-", "_");
    if header != ":method" && header != ":authority" && HoldsHeader(name, header) {
      assert name == name[..|"http_"|] + name[|"http_"|..];
      assert name == own;
    }
  }

  /** Every header of the list is present, and its variable has the given value. */
  ghost predicate HeadersPresent(hs: seq<HeaderMatcher>, header: string -> string, values: map<string, string>) {
    forall i, name :: 0 <= i < |hs| && HoldsHeader(name, hs[i].name) ==>
      name in values && values[name] == header(hs[i].name)
  }

  /**
   One matcher: on a present header the expression decides as Envoy does, inversion
   included, unless the matcher asks for the header to be absent; that one it always gets wrong.
   */
  lemma HeaderMeaning(h: HeaderMatcher, v: string, name: string, values: map<string, string>)
    requires LiteralMatcher(h.specifier) && '\n' !in v
    requires HoldsHeader(name, h.name) && name in values && values[name] == v
    ensures HeaderPattern(h.specifier).Some?
    ensures VarHolds(HeaderVar(h), values) == HeaderHolds(h, v) <==> h.specifier != PresentMatch(false)
  {
    VariableExact(name, h.name);
    PatternExact(h.specifier, v);
  }

  /** All matchers of a route: the conjunction of the expressions holds exactly when Envoy's matchers all hold. */
  lemma HeadersMeaning(hs: seq<HeaderMatcher>, vars: seq<Var>, header: string -> string, values: map<string, string>)
    requires HeadersSupported(hs) && |vars| == |hs| && forall i :: 0 <= i < |hs| ==> vars[i] == HeaderVar(hs[i])
    requires forall i :: 0 <= i < |hs| ==>
               LiteralMatcher(hs[i].specifier) && hs[i].specifier != PresentMatch(false) && '\n' !in header(hs[i].name)
    requires HeadersPresent(hs, header, values)
    ensures (forall i :: 0 <= i < |vars| ==> VarHolds(vars[i], values)) <==>
            (forall i :: 0 <= i < |hs| ==> HeaderHolds(hs[i], header(hs[i].name)))
  {
    forall i | 0 <= i < |hs| ensures VarHolds(vars[i], values) == HeaderHolds(hs[i], header(hs[i].name)) {
      VariableExact(VariableName(hs[i].name), hs[i].name);
      HeaderMeaning(hs[i], header(hs[i].name), VariableName(hs[i].name), values);
    }
  }

  /** A literal query matcher: a string matcher without folding, of a pattern without metacharacters. */
  ghost predicate LiteralQuery(q: QueryMatcher) {
    && q.specifier.QueryString? && !q.specifier.matcher.ignoreCase
    && LiteralMatcher(StringMatch(q.specifier.matcher))
  }

  /** What Envoy means by it, on a parameter that is present with value `v`. */
  ghost predicate QueryHolds(q: QueryMatcher, v: string)
    requires LiteralQuery(q)
  {
    PatternHolds(q.specifier.matcher.pattern, v)
  }

  /** The parameter that the matcher asks for is present, with the given value. */
  ghost predicate ParameterPresent(q: QueryMatcher, parameter: string -> string, values: map<string, string>) {
    '\n' !in parameter(q.name) && "arg_" + q.name in values && values["arg_" + q.name] == parameter(q.name)
  }

  /**
   Query matchers on a present parameter: a literal one decides as Envoy does, and one that asks
   for presence, which holds for Envoy, holds exactly if the parameter is not empty.
   */
  lemma QueryMeaning(q: QueryMatcher, v: string, values: map<string, string>)
    requires LiteralQuery(q) || q.specifier.QueryPresent?
    requires '\n' !in v && "arg_" + q.name in values && values["arg_" + q.name] == v
    ensures QuerySupported(q)
    ensures LiteralQuery(q) ==> VarHolds(QueryVar(q), values) == QueryHolds(q, v)
    ensures q.specifier.QueryPresent? ==> (VarHolds(QueryVar(q), values) <==> v != "")
  {
    if q.specifier.QueryPresent? {
      SearchExact("", v);
      assert "^" + "" + "$" == "^$";
    } else {
      PatternExact(StringMatch(q.specifier.matcher), v);
    }
  }

  lemma QueriesMeaning(qs: seq<QueryMatcher>, vars: seq<Var>, parameter: string -> string, values: map<string, string>)
    requires QueriesSupported(qs) && |vars| == |qs| && forall i :: 0 <= i < |qs| ==> vars[i] == QueryVar(qs[i])
    requires forall i :: 0 <= i < |qs| ==> LiteralQuery(qs[i]) && ParameterPresent(qs[i], parameter, values)
    ensures (forall i :: 0 <= i < |vars| ==> VarHolds(vars[i], values)) <==>
            (forall i :: 0 <= i < |qs| ==> QueryHolds(qs[i], parameter(qs[i].name)))
  {
    hide VarHolds, QueryVar, QueryHolds, LiteralQuery;
    forall i | 0 <= i < |qs| ensures VarHolds(vars[i], values) == QueryHolds(qs[i], parameter(qs[i].name)) {
      QueryMeaning(qs[i], parameter(qs[i].name), values);
    }
  }

  /** What the regular expressions and the operators of the other matchers are. */
  lemma PatternTexts(s: string, name: string)
    ensures HeaderPattern(SafeRegexMatch(s)) == Some(s)
    ensures forall fold :: HeaderPattern(StringMatch(StringMatcher(RegexPattern(s), fold))) == Some(s)
    ensures forall fold :: QueryVar(QueryMatcher(name, QueryString(StringMatcher(RegexPattern(s), fold)))).items ==
                           [Str("arg_" + name), Str(if fold then "~*" else "~~"), Str(s)]
    ensures QueryVar(QueryMatcher(name, UnknownQueryMatch)).items == []
  {
  }
}
