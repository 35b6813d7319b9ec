/** `PluginsConfigEqual`, the controller's test for whether the plugins of a configuration changed. */
module PluginComparison {
  import opened GoTypes

  datatype PluginSpec = PluginSpec(pluginType: string, name: string, config: string)

  /** A type and a name. */
  type Pair = (string, string)

  /** The key the comparison uses: type and name run together. */
  function Joined(pair: Pair): string {
    pair.0 + pair.1
  }

  function PluginIndex(ps: seq<PluginSpec>): map<string, string> {
    if ps == [] then map[]
    else PluginIndex(Init(ps))[Joined((Last(ps).pluginType, Last(ps).name)) := Last(ps).config]
  }

  ghost predicate IndexWithin(a: map<string, string>, b: map<string, string>) {
    forall k :: k in a ==> k in b && b[k] == a[k]
  }

  ghost predicate ConfigEqual(before: seq<PluginSpec>, after: seq<PluginSpec>) {
    |before| == |after| && IndexWithin(PluginIndex(after), PluginIndex(before))
  }

  method IndexPlugins(ps: seq<PluginSpec>) returns (m: map<string, string>)
    ensures m == PluginIndex(ps)
  {
    m := map[];
    for i := 0 to |ps|
      invariant m == PluginIndex(ps[..i])
    {
      Snoc(ps, i);
      m := m[ps[i].pluginType + ps[i].name := ps[i].config];
    }
    assert ps[..|ps|] == ps;
  }

  /** `PluginsConfigEqual`: only the new entries are looked up in the old ones. */
  method PluginsConfigEqual(before: seq<PluginSpec>, after: seq<PluginSpec>) returns (equal: bool)
    ensures equal <==> ConfigEqual(before, after)
  {
    if |before| != |after| {
      return false;
    }
    var oldMap := IndexPlugins(before);
    var newMap := IndexPlugins(after);
    var rest := newMap.Keys;
    while rest != {}
      invariant rest <= newMap.Keys
      invariant forall k :: k in newMap && k !in rest ==> k in oldMap && oldMap[k] == newMap[k]
    {
      var k :| k in rest;
      if k !in oldMap || newMap[k] != oldMap[k] {
        return false;
      }
      rest := rest - {k};
    }
    return true;
  }

  // What the comparison is for.

  /** The plugins a list stands for: by type and name, the last entry winning. */
  ghost function Listing(ps: seq<PluginSpec>): map<Pair, string> {
    if ps == [] then map[] else Listing(Init(ps))[(Last(ps).pluginType, Last(ps).name) := Last(ps).config]
  }

  /** The types and names of a list, without the configurations. */
  ghost function Pairs(ps: seq<PluginSpec>): seq<Pair> {
    seq(|ps|, i requires 0 <= i < |ps| => (ps[i].pluginType, ps[i].name))
  }

  ghost function PairSet(pairs: seq<Pair>): set<Pair> {
    set p | p in pairs
  }

  ghost function KeySet(pairs: seq<Pair>): set<string> {
    set p | p in pairs :: Joined(p)
  }

  /** The comparison answers correctly for these types and names, whatever the configurations. */
  ghost predicate Decides(before: seq<Pair>, after: seq<Pair>) {
    forall b, a :: Pairs(b) == before && Pairs(a) == after ==> (ConfigEqual(b, a) <==> Listing(b) == Listing(a))
  }

  ghost predicate Unambiguous(pairs: set<Pair>) {
    forall p, q :: p in pairs && q in pairs && Joined(p) == Joined(q) ==> p == q
  }

  /** When it does: see `ConfigEqualExact`. */
  ghost predicate Comparable(before: seq<Pair>, after: seq<Pair>) {
    if |before| != |after| then PairSet(before) != PairSet(after)
    else if PairSet(before) == PairSet(after) then Unambiguous(PairSet(before))
    else !(KeySet(after) <= KeySet(before))
  }

  lemma {:induction false} ListingKeys(ps: seq<PluginSpec>)
    ensures Listing(ps).Keys == PairSet(Pairs(ps))
    ensures PluginIndex(ps).Keys == KeySet(Pairs(ps))
  {
    if ps != [] {
      ListingKeys(Init(ps));
      var pairs, p := Pairs(Init(ps)), (Last(ps).pluginType, Last(ps).name);
      assert Pairs(ps) == pairs + [p];
      PushPair(pairs, p);
    }
  }

  lemma PushPair(pairs: seq<Pair>, p: Pair)
    ensures PairSet(pairs + [p]) == PairSet(pairs) + {p}
    ensures KeySet(pairs + [p]) == KeySet(pairs) + {Joined(p)}
  {
    assert forall q :: q in pairs + [p] <==> q in pairs || q == p;
  }

  /** On unambiguous pairs the index and the listing say the same. */
  lemma {:induction false} IndexIsListing(ps: seq<PluginSpec>, p: Pair)
    requires Unambiguous(PairSet(Pairs(ps))) && p in PairSet(Pairs(ps))
    ensures Joined(p) in PluginIndex(ps) && p in Listing(ps)
    ensures PluginIndex(ps)[Joined(p)] == Listing(ps)[p]
  {
    ListingKeys(ps);
    var pairs, q := Pairs(Init(ps)), (Last(ps).pluginType, Last(ps).name);
    assert Pairs(ps) == pairs + [q];
    PushPair(pairs, q);
    if p != q {
      assert q in PairSet(Pairs(ps)) && Joined(p) != Joined(q);
      IndexIsListing(Init(ps), p);
    }
  }

  /** A list with given pairs and configurations. */
  ghost function Fill(pairs: seq<Pair>, config: Pair -> string): seq<PluginSpec> {
    seq(|pairs|, i requires 0 <= i < |pairs| => PluginSpec(pairs[i].0, pairs[i].1, config(pairs[i])))
  }

  /** The pair of the last entry with a key. */
  ghost function LastPair(pairs: seq<Pair>, k: string): Pair
    requires k in KeySet(pairs)
  {
    if Joined(Last(pairs)) == k then Last(pairs)
    else
      assert pairs == Init(pairs) + [Last(pairs)];
      PushPair(Init(pairs), Last(pairs));
      LastPair(Init(pairs), k)
  }

  lemma {:induction false} LastPairKey(pairs: seq<Pair>, k: string)
    requires k in KeySet(pairs)
    ensures Joined(LastPair(pairs, k)) == k && LastPair(pairs, k) in pairs
  {
    if Joined(Last(pairs)) != k {
      assert pairs == Init(pairs) + [Last(pairs)];
      PushPair(Init(pairs), Last(pairs));
      LastPairKey(Init(pairs), k);
    }
  }

  lemma FillSnoc(pairs: seq<Pair>, config: Pair -> string)
    requires pairs != []
    ensures Init(Fill(pairs, config)) == Fill(Init(pairs), config)
    ensures Last(Fill(pairs, config)) == PluginSpec(Last(pairs).0, Last(pairs).1, config(Last(pairs)))
    ensures PairSet(pairs) == PairSet(Init(pairs)) + {Last(pairs)}
    ensures KeySet(pairs) == KeySet(Init(pairs)) + {Joined(Last(pairs))}
  {
    assert pairs == Init(pairs) + [Last(pairs)];
    PushPair(Init(pairs), Last(pairs));
  }

  lemma {:induction false} FillListing(pairs: seq<Pair>, config: Pair -> string, p: Pair)
    requires p in pairs
    ensures p in Listing(Fill(pairs, config)) && Listing(Fill(pairs, config))[p] == config(p)
  {
    FillSnoc(pairs, config);
    assert Last(pairs) == (Last(pairs).0, Last(pairs).1);
    if p != Last(pairs) {
      assert p in PairSet(pairs) && p in PairSet(Init(pairs));
      FillListing(Init(pairs), config, p);
    }
  }

  lemma {:induction false} FillIndex(pairs: seq<Pair>, config: Pair -> string, k: string)
    requires k in KeySet(pairs)
    ensures k in PluginIndex(Fill(pairs, config)) && PluginIndex(Fill(pairs, config))[k] == config(LastPair(pairs, k))
  {
    FillSnoc(pairs, config);
    if Joined(Last(pairs)) != k {
      FillIndex(Init(pairs), config, k);
    }
  }

  lemma FillPairs(pairs: seq<Pair>, config: Pair -> string)
    ensures Pairs(Fill(pairs, config)) == pairs
  {
    assert forall i :: 0 <= i < |pairs| ==> Pairs(Fill(pairs, config))[i] == pairs[i];
  }

  /** With the right pairs, all lists are decided correctly. */
  lemma ComparableDecides(b: seq<PluginSpec>, a: seq<PluginSpec>)
    requires Comparable(Pairs(b), Pairs(a))
    ensures ConfigEqual(b, a) <==> Listing(b) == Listing(a)
  {
    hide Listing, PluginIndex, Pairs, PairSet, KeySet;
    ListingKeys(b);
    ListingKeys(a);
    SamePairsSameKeys(Pairs(b), Pairs(a));
    PairsSize(b);
    PairsSize(a);
    if |b| == |a| && PairSet(Pairs(b)) == PairSet(Pairs(a)) {
      var ps := PairSet(Pairs(b));
      forall p | p in ps
        ensures Joined(p) in PluginIndex(b) && Joined(p) in PluginIndex(a)
        ensures PluginIndex(b)[Joined(p)] == Listing(b)[p] && PluginIndex(a)[Joined(p)] == Listing(a)[p]
      {
        IndexIsListing(b, p);
        IndexIsListing(a, p);
      }
      forall k | k in PluginIndex(a) ensures exists p :: p in ps && Joined(p) == k {
        KeyHasPair(Pairs(a), k);
      }
    }
  }

  lemma PairsSize(ps: seq<PluginSpec>)
    ensures |Pairs(ps)| == |ps|
  {
  }

  lemma KeyHasPair(pairs: seq<Pair>, k: string)
    requires k in KeySet(pairs)
    ensures exists p :: p in PairSet(pairs) && Joined(p) == k
  {
    LastPairKey(pairs, k);
    assert LastPair(pairs, k) in PairSet(pairs);
  }

  lemma SamePairsSameKeys(x: seq<Pair>, y: seq<Pair>)
    ensures PairSet(x) == PairSet(y) ==> KeySet(x) == KeySet(y)
  {
    if PairSet(x) == PairSet(y) {
      forall p ensures p in x <==> p in y {
        assert p in x <==> p in PairSet(x);
        assert p in y <==> p in PairSet(y);
      }
    }
  }

  /** With the wrong pairs, some configurations are decided wrongly. */
  lemma NotComparableFails(before: seq<Pair>, after: seq<Pair>)
    requires !Comparable(before, after)
    ensures exists b, a :: Pairs(b) == before && Pairs(a) == after && !(ConfigEqual(b, a) <==> Listing(b) == Listing(a))
  {
    hide Listing, PluginIndex, Pairs, PairSet, KeySet, Fill, LastPair;
    var same := (p: Pair) => "c";
    var b := Fill(before, same);
    FillPairs(before, same);
    PairsSize(b);
    if |before| == |after| && PairSet(before) == PairSet(after) {
      var p, q :| p in PairSet(before) && q in PairSet(before) && Joined(p) == Joined(q) && p != q;
      SamePairsSameKeys(before, after);
      PairInKeys(after, p);
      LastPairKey(after, Joined(p));
      var hidden := if LastPair(after, Joined(p)) == p then q else p;
      var other := (x: Pair) => if x == hidden then "d" else "c";
      var a := Fill(after, other);
      FillPairs(after, other);
      PairsSize(a);
      ListingKeys(b);
      ListingKeys(a);
      forall k | k in KeySet(after) ensures PluginIndex(b)[k] == "c" && PluginIndex(a)[k] == "c" {
        FillIndex(before, same, k);
        FillIndex(after, other, k);
        LastPairKey(after, k);
      }
      assert ConfigEqual(b, a);
      InPairs(before, hidden);
      InPairs(after, hidden);
      FillListing(before, same, hidden);
      FillListing(after, other, hidden);
      assert Listing(b)[hidden] != Listing(a)[hidden];
    } else {
      var a := Fill(after, same);
      FillPairs(after, same);
      PairsSize(a);
      ListingKeys(b);
      ListingKeys(a);
      if |before| != |after| {
        forall p | p in PairSet(before) ensures Listing(b)[p] == "c" && Listing(a)[p] == "c" {
          InPairs(before, p);
          InPairs(after, p);
          FillListing(before, same, p);
          FillListing(after, same, p);
        }
        assert Listing(b) == Listing(a) && !ConfigEqual(b, a);
      } else {
        forall k | k in KeySet(after) ensures PluginIndex(b)[k] == "c" && PluginIndex(a)[k] == "c" {
          FillIndex(before, same, k);
          FillIndex(after, same, k);
        }
        assert ConfigEqual(b, a) && Listing(b) != Listing(a);
      }
    }
  }

  lemma InPairs(pairs: seq<Pair>, p: Pair)
    ensures p in PairSet(pairs) <==> p in pairs
  {
  }

  lemma PairInKeys(pairs: seq<Pair>, p: Pair)
    ensures p in PairSet(pairs) ==> Joined(p) in KeySet(pairs)
  {
  }

  /**
   Exactly when the comparison can be trusted, in terms of the types and names alone. For lists of
   different lengths: when they name different plugins. For lists of one length that name the
   same plugins: when no two of these run together to the same key. Otherwise: when some new key
   is new. In every other case there are configurations for which it answers wrongly.
   */
  lemma ConfigEqualExact(before: seq<Pair>, after: seq<Pair>)
    ensures Decides(before, after) <==> Comparable(before, after)
  {
    hide Comparable;
    if Comparable(before, after) {
      forall b, a | Pairs(b) == before && Pairs(a) == after ensures ConfigEqual(b, a) <==> Listing(b) == Listing(a) {
        ComparableDecides(b, a);
      }
    } else {
      NotComparableFails(before, after);
    }
  }

  /** A direct plugin that becomes an external one is overlooked if type and name run together to the same key. */
  lemma CollisionOverlooked(name: string, config: string)
    ensures var before, after := [PluginSpec("", "pre-req" + name, config)], [PluginSpec("pre-req", name, config)];
            ConfigEqual(before, after) && Listing(before) != Listing(after)
  {
    var x, y := PluginSpec("", "pre-req" + name, config), PluginSpec("pre-req", name, config);
    assert Init([x]) == [] && Init([y]) == [] && Last([x]) == x && Last([y]) == y;
    assert Joined(("", "pre-req" + name)) == Joined(("pre-req", name));
    assert ("pre-req", name) in Listing([y]) && |"pre-req"| == 7;
  }

  /** A plugin that went away is overlooked if another one is listed twice instead. */
  lemma RepeatedKeyOverlooked(x: PluginSpec, y: PluginSpec)
    requires Joined((x.pluginType, x.name)) != Joined((y.pluginType, y.name))
    ensures ConfigEqual([x, y], [x, x]) && Listing([x, y]) != Listing([x, x])
  {
    assert Init([x, y]) == [x] && Init([x, x]) == [x] && Init([x]) == [];
    assert PluginIndex([x]) == PluginIndex([])[Joined((x.pluginType, x.name)) := x.config];
    assert Listing([x, x]).Keys == {(x.pluginType, x.name)} by {
      assert Listing([x]) == Listing([])[(x.pluginType, x.name) := x.config];
    }
    assert (x.pluginType, x.name) != (y.pluginType, y.name);
    assert (y.pluginType, y.name) in Listing([x, y]) && (y.pluginType, y.name) !in Listing([x, x]);
  }
}
