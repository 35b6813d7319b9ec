/** Route names: `name#vhost#config` with the cluster-local suffix removed, and when two of them coincide. */
module RouteNames {
  import opened RouteTranslator
  import opened Strings

  /** A text as it enters a route name. */
  function Strip(s: string): string {
    ReplaceAll(s, ".svc.cluster.local", "")
  }

  /** The parts of such a text between the `#` characters that it may hold itself. */
  function Segments(s: string): seq<string> {
    SplitAt(Strip(s), '#')
  }

  /** No occurrence of `from` reaches across a character that it does not hold. */
  lemma PrefixAcross(a: string, c: char, b: string, from: string)
    requires c !in from
    ensures from <= a + [c] + b <==> from <= a
  {
    if |a| < |from| {
      assert (a + [c] + b)[|a|] == c && from[|a|] in from;
    }
  }

  lemma {:induction false} ReplaceAcross(a: string, c: char, b: string, from: string, to: string)
    requires from != [] && c !in from
    ensures ReplaceAll(a + [c] + b, from, to) == ReplaceAll(a, from, to) + [c] + ReplaceAll(b, from, to)
  {
    hide ReplaceAll;
    PrefixAcross(a, c, b, from);
    if a == [] {
      assert a + [c] + b == [c] + b && ([c] + b)[1..] == b;
      ReplaceFirst([c] + b, from, to);
      ReplaceNothing(from, to);
    } else {
      var n, head := if from <= a then |from| else 1, if from <= a then to else [a[0]];
      ReplaceFirst(a, from, to);
      ReplaceFirst(a + [c] + b, from, to);
      assert (a + [c] + b)[n..] == a[n..] + [c] + b && (a + [c] + b)[0] == a[0];
      ReplaceAcross(a[n..], c, b, from, to);
      RegroupPast(head, ReplaceAll(a[n..], from, to), c, ReplaceAll(b, from, to));
    }
  }

  lemma ReplaceNothing(from: string, to: string)
    requires from != []
    ensures ReplaceAll("", from, to) == ""
  {
  }

  /** One step of the replacement. */
  lemma ReplaceFirst(s: string, from: string, to: string)
    requires from != [] && s != []
    ensures from <= s ==> ReplaceAll(s, from, to) == to + ReplaceAll(s[|from|..], from, to)
    ensures !(from <= s) ==> ReplaceAll(s, from, to) == [s[0]] + ReplaceAll(s[1..], from, to)
  {
  }

  lemma RegroupPast(x: string, y: string, c: char, z: string)
    ensures x + (y + [c] + z) == (x + y) + [c] + z
  {
  }

  /** The name in terms of its three parts, each stripped on its own. */
  lemma NameParts(config: string, vhost: string, r: XdsRoute)
    ensures RouteName(config, vhost, r) == Strip(OrAnon(r.name)) + "#" + (Strip(vhost) + "#" + Strip(OrAnon(config)))
  {
    hide ReplaceAll, OrAnon;
    var a, b, c := OrAnon(r.name), vhost, OrAnon(config);
    assert a + "#" + b + "#" + c == a + "#" + (b + "#" + c);
    ReplaceAcross(a, '#', b + "#" + c, ".svc.cluster.local", "");
    ReplaceAcross(b, '#', c, ".svc.cluster.local", "");
  }

  ghost function NameSegments(config: string, vhost: string, r: XdsRoute): seq<string> {
    Segments(OrAnon(r.name)) + (Segments(vhost) + Segments(OrAnon(config)))
  }

  /**
   Exactly when two routes, of whatever virtual hosts and configurations, have the same name:
   their three texts, stripped and cut at every `#`, list the same segments.
   */
  lemma SameNameIff(config: string, vhost: string, r: XdsRoute, config': string, vhost': string, r': XdsRoute)
    ensures RouteName(config, vhost, r) == RouteName(config', vhost', r') <==>
            NameSegments(config, vhost, r) == NameSegments(config', vhost', r')
  {
    hide RouteName, Strip, SplitAt, OrAnon;
    CutName(config, vhost, r);
    CutName(config', vhost', r');
    SplitInjective(RouteName(config, vhost, r), RouteName(config', vhost', r'), '#');
  }

  lemma CutName(config: string, vhost: string, r: XdsRoute)
    ensures SplitAt(RouteName(config, vhost, r), '#') == NameSegments(config, vhost, r)
  {
    hide RouteName, Strip, SplitAt, OrAnon;
    var a, b, c := Strip(OrAnon(r.name)), Strip(vhost), Strip(OrAnon(config));
    NameParts(config, vhost, r);
    SplitConcat(a, '#', b + "#" + c);
    SplitConcat(b, '#', c);
  }

  lemma {:induction false} StripKeepsOut(s: string, c: char)
    requires c !in s
    ensures c !in Strip(s)
    decreases |s|
  {
    if s != [] {
      if ".svc.cluster.local" <= s {
        StripKeepsOut(s[|".svc.cluster.local"|..], c);
      } else {
        StripKeepsOut(s[1..], c);
      }
    }
  }

  lemma {:induction false} StripNothing(s: string)
    requires !Contains(s, ".svc.cluster.local")
    ensures Strip(s) == s
  {
    if s != [] {
      assert s[0..] == s;
      assert !Contains(s[1..], ".svc.cluster.local") by {
        forall i | 0 <= i <= |s[1..]| ensures !(".svc.cluster.local" <= s[1..][i..]) {
          assert s[1..][i..] == s[i + 1..];
        }
      }
      StripNothing(s[1..]);
      assert s == [s[0]] + s[1..];
    }
  }

  ghost predicate Hashless(config: string, vhost: string, r: XdsRoute) {
    '#' !in r.name && '#' !in vhost && '#' !in config
  }

  /** Without a `#` in the texts themselves the name tells all three apart, up to stripping and `anon`. */
  lemma HashlessNames(config: string, vhost: string, r: XdsRoute, config': string, vhost': string, r': XdsRoute)
    requires Hashless(config, vhost, r) && Hashless(config', vhost', r')
    ensures RouteName(config, vhost, r) == RouteName(config', vhost', r') <==>
            && Strip(OrAnon(r.name)) == Strip(OrAnon(r'.name)) && Strip(vhost) == Strip(vhost')
            && Strip(OrAnon(config)) == Strip(OrAnon(config'))
  {
    hide RouteName, Strip;
    SameNameIff(config, vhost, r, config', vhost', r');
    ThreeSegments(config, vhost, r);
    ThreeSegments(config', vhost', r');
  }

  lemma ThreeSegments(config: string, vhost: string, r: XdsRoute)
    requires Hashless(config, vhost, r)
    ensures NameSegments(config, vhost, r) == [Strip(OrAnon(r.name)), Strip(vhost), Strip(OrAnon(config))]
  {
    hide Strip, SplitAt;
    OneSegment(OrAnon(r.name));
    OneSegment(vhost);
    OneSegment(OrAnon(config));
  }

  lemma OneSegment(s: string)
    requires '#' !in s
    ensures Segments(s) == [Strip(s)]
  {
    hide Strip;
    StripKeepsOut(s, '#');
    SplitWhole(Strip(s), '#');
  }

  /** A `#` can move from the virtual host's name into the route's. */
  lemma HashMoves(config: string, a: string, b: string, c: string, r: XdsRoute, r': XdsRoute)
    requires r.name == a != "" && r'.name == a + "#" + b
    ensures RouteName(config, b + "#" + c, r) == RouteName(config, c, r')
  {
    hide ReplaceAll;
    var d := OrAnon(config);
    assert a + "#" + (b + "#" + c) + "#" + d == (a + "#" + b) + "#" + c + "#" + d;
  }

  /** The cluster-local suffix is lost: a virtual host with it and one without it count as the same. */
  lemma SuffixLost(config: string, vhost: string, r: XdsRoute)
    requires !Contains(vhost + ".svc.cluster.loca", ".svc.cluster.local")
    ensures RouteName(config, vhost + ".svc.cluster.local", r) == RouteName(config, vhost, r)
  {
    hide ReplaceAll, OrAnon;
    NameParts(config, vhost + ".svc.cluster.local", r);
    NameParts(config, vhost, r);
    assert !Contains(vhost, ".svc.cluster.local") by {
      forall i | 0 <= i <= |vhost| ensures !(".svc.cluster.local" <= vhost[i..]) {
        assert vhost[i..] <= (vhost + ".svc.cluster.loca")[i..];
      }
    }
    StripNothing(vhost);
    StripSuffix(vhost);
  }

  lemma {:induction false} StripSuffix(s: string)
    requires !Contains(s + ".svc.cluster.loca", ".svc.cluster.local")
    ensures Strip(s + ".svc.cluster.local") == s
  {
    var p := ".svc.cluster.local";
    var whole := s + p;
    if s == [] {
      assert whole == p && whole[|p|..] == [];
    } else {
      var short := s + ".svc.cluster.loca";
      assert whole[..|p|] == short[..|p|] && short[0..] == short;
      assert !(p <= whole);
      assert whole[1..] == s[1..] + p;
      assert !Contains(s[1..] + ".svc.cluster.loca", p) by {
        forall i | 0 <= i <= |s[1..] + ".svc.cluster.loca"| ensures !(p <= (s[1..] + ".svc.cluster.loca")[i..]) {
          assert (s[1..] + ".svc.cluster.loca")[i..] == short[i + 1..];
        }
      }
      StripSuffix(s[1..]);
      assert s == [s[0]] + s[1..];
    }
  }
}
