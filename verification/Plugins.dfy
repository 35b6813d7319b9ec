/**
 Amesh plugins on routes: `patchAmeshPlugins` on values, and the plugin update of the
 provisioner on route objects in the heap, where the frame matters.
 */
module Plugins {
  import opened GoTypes
  import opened Apisix

  datatype ApisixPlugin = ApisixPlugin(pluginType: string, name: string, config: string)

  const PRE_REQUEST := "pre-req"
  const POST_REQUEST := "post-req"
  const PRE_REQUEST_PLUGIN := "ext-plugin-pre-req"
  const POST_REQUEST_PLUGIN := "ext-plugin-post-req"

  /** The current plugins; the amesh provisioner files each under its own name. */
  type PluginMap = map<string, ApisixPlugin>

  ghost predicate WellKeyed(plugins: PluginMap) {
    forall k :: k in plugins ==> plugins[k].name == k
  }

  /** `order` is one of the orders in which Go may iterate over the plugin map. */
  ghost predicate Enumerates(order: seq<ApisixPlugin>, plugins: PluginMap) {
    && (forall i :: 0 <= i < |order| ==> order[i].name in plugins && plugins[order[i].name] == order[i])
    && (forall k :: k in plugins ==> plugins[k] in order)
    && (forall i, j :: 0 <= i < j < |order| ==> order[i] != order[j])
  }

  function DirectConfigs(order: seq<ApisixPlugin>): map<string, PluginValue> {
    if order == [] then map[]
    else if Last(order).pluginType == "" then DirectConfigs(Init(order))[Last(order).name := Config(Last(order).config)]
    else DirectConfigs(Init(order))
  }

  function ExtConfs(order: seq<ApisixPlugin>, t: string): seq<ExtPlugin> {
    if order == [] then []
    else
      ExtConfs(Init(order), t) +
      if Last(order).pluginType == t then [ExtPlugin(Last(order).name, Last(order).config)] else []
  }

  /** The entries for plugins that run in an external process. */
  function ExtEntries(order: seq<ApisixPlugin>): map<string, PluginValue> {
    var pre, post := ExtConfs(order, PRE_REQUEST), ExtConfs(order, POST_REQUEST);
    (if |pre| > 0 then map[PRE_REQUEST_PLUGIN := ExtPlugins(pre)] else map[]) +
    (if |post| > 0 then map[POST_REQUEST_PLUGIN := ExtPlugins(post)] else map[])
  }

  /** What of the old entries `patchAmeshPlugins` leaves in place. */
  function Retained(before: map<string, PluginValue>, plugins: PluginMap): map<string, PluginValue> {
    map k | k in before && k in plugins :: before[k]
  }

  /** The plugin map after `patchAmeshPlugins`. */
  function Patched(before: map<string, PluginValue>, plugins: PluginMap,
                   order: seq<ApisixPlugin>): map<string, PluginValue> {
    Retained(before, plugins) + DirectConfigs(order) + ExtEntries(order)
  }

  function PatchRoute(r: Route, plugins: PluginMap, order: seq<ApisixPlugin>): Route {
    r.(plugins := Patched(r.plugins, plugins, order))
  }

  function PatchRoutes(rs: seq<Route>, plugins: PluginMap, order: seq<ApisixPlugin>): seq<Route> {
    seq(|rs|, i requires 0 <= i < |rs| => PatchRoute(rs[i], plugins, order))
  }

  predicate DirectOnly(plugins: PluginMap) {
    forall k :: k in plugins ==> plugins[k].pluginType == ""
  }

  lemma {:induction false} DirectKeys(order: seq<ApisixPlugin>, k: string)
    ensures k in DirectConfigs(order) <==>
            exists i :: 0 <= i < |order| && order[i].name == k && order[i].pluginType == ""
    ensures k in DirectConfigs(order) ==>
              exists i :: 0 <= i < |order| && order[i].name == k && order[i].pluginType == "" &&
                          DirectConfigs(order)[k] == Config(order[i].config)
  {
    if order != [] {
      var n := |order| - 1;
      DirectKeys(Init(order), k);
      assert forall i :: 0 <= i < n ==> Init(order)[i] == order[i];
    }
  }

  lemma {:induction false} NoExtConfs(order: seq<ApisixPlugin>, t: string)
    requires t != "" && forall i :: 0 <= i < |order| ==> order[i].pluginType == ""
    ensures ExtConfs(order, t) == []
  {
    if order != [] {
      NoExtConfs(Init(order), t);
    }
  }

  type Entries = map<string, PluginValue>

  lemma Absorb(r: Entries, m: Entries)
    ensures r + m == m <==> r.Keys <= m.Keys
  {
    assert (r + m).Keys == r.Keys + m.Keys;
  }

  lemma Associate(a: Entries, b: Entries, c: Entries)
    ensures a + b + c == a + (b + c)
  {
  }

  lemma DirectExact(plugins: PluginMap, order: seq<ApisixPlugin>, k: string)
    requires Enumerates(order, plugins) && WellKeyed(plugins) && DirectOnly(plugins)
    ensures k in DirectConfigs(order) <==> k in plugins
    ensures k in plugins ==> DirectConfigs(order)[k] == Config(plugins[k].config)
  {
    DirectKeys(order, k);
    if k in plugins {
      var i :| 0 <= i < |order| && order[i] == plugins[k];
    }
  }

  /**
   When every current plugin is of the direct type, a route ends up with exactly their
   configurations, in whatever order they are visited and whatever the route held before.
   */
  lemma DirectPluginsExact(before: map<string, PluginValue>, plugins: PluginMap, order: seq<ApisixPlugin>)
    requires WellKeyed(plugins) && Enumerates(order, plugins) && DirectOnly(plugins)
    ensures Patched(before, plugins, order) == map k | k in plugins :: Config(plugins[k].config)
  {
    var direct, r := DirectConfigs(order), Retained(before, plugins);
    DirectTable(plugins, order);
    NoExtEntries(order);
    assert Patched(before, plugins, order) == r + direct;
    Absorb(r, direct);
  }

  lemma DirectTable(plugins: PluginMap, order: seq<ApisixPlugin>)
    requires WellKeyed(plugins) && Enumerates(order, plugins) && DirectOnly(plugins)
    ensures DirectConfigs(order) == map k | k in plugins :: Config(plugins[k].config)
  {
    forall k
      ensures k in DirectConfigs(order) <==> k in plugins
      ensures k in plugins ==> DirectConfigs(order)[k] == Config(plugins[k].config)
    {
      DirectExact(plugins, order, k);
    }
  }

  lemma NoExtEntries(order: seq<ApisixPlugin>)
    requires forall i :: 0 <= i < |order| ==> order[i].pluginType == ""
    ensures ExtEntries(order) == map[]
  {
    NoExtConfs(order, PRE_REQUEST);
    NoExtConfs(order, POST_REQUEST);
  }

  /**
   In general the outcome forgets the route's earlier plugins exactly when none of them is
   named like a current plugin that neither is direct nor gets overwritten: the old entry of
   a plugin that turned from direct to external stays behind.
   */
  lemma HistoryFree(before: map<string, PluginValue>, plugins: PluginMap, order: seq<ApisixPlugin>)
    ensures Patched(before, plugins, order) == Patched(map[], plugins, order) <==>
            forall k :: k in before && k in plugins ==> k in DirectConfigs(order) || k in ExtEntries(order)
  {
    var d, e, r := DirectConfigs(order), ExtEntries(order), Retained(before, plugins);
    Associate(r, d, e);
    Associate(map[], d, e);
    assert Retained(map[], plugins) == map[] && map[] + (d + e) == d + e;
    Absorb(r, d + e);
    assert forall k :: k in r <==> k in before && k in plugins;
    assert forall k :: k in d + e <==> k in d || k in e;
  }

  // The order in which plugins are visited.

  /** At most one plugin runs before the request and at most one after it. */
  ghost predicate Settled(plugins: PluginMap) {
    forall a, b :: a in plugins && b in plugins && SameExternal(plugins[a], plugins[b]) ==> plugins[a] == plugins[b]
  }

  predicate SameExternal(p: ApisixPlugin, q: ApisixPlugin) {
    p.pluginType == q.pluginType && p.pluginType in {PRE_REQUEST, POST_REQUEST}
  }

  lemma DirectOf(plugins: PluginMap, order: seq<ApisixPlugin>, k: string)
    requires Enumerates(order, plugins)
    ensures k in DirectConfigs(order) <==> k in plugins && plugins[k].name == k && plugins[k].pluginType == ""
    ensures k in DirectConfigs(order) ==> DirectConfigs(order)[k] == Config(plugins[k].config)
  {
    DirectKeys(order, k);
    if k in plugins {
      var i :| 0 <= i < |order| && order[i] == plugins[k];
    }
  }

  lemma DirectOrderFree(plugins: PluginMap, order: seq<ApisixPlugin>, order': seq<ApisixPlugin>)
    requires Enumerates(order, plugins) && Enumerates(order', plugins)
    ensures DirectConfigs(order) == DirectConfigs(order')
  {
    hide DirectConfigs, Enumerates;
    forall k
      ensures k in DirectConfigs(order) <==> k in DirectConfigs(order')
      ensures k in DirectConfigs(order) ==> DirectConfigs(order)[k] == DirectConfigs(order')[k]
    {
      DirectOf(plugins, order, k);
      DirectOf(plugins, order', k);
    }
  }

  lemma {:induction false} ExtNone(order: seq<ApisixPlugin>, t: string)
    requires forall i :: 0 <= i < |order| ==> order[i].pluginType != t
    ensures ExtConfs(order, t) == []
  {
    if order != [] {
      ExtNone(Init(order), t);
    }
  }

  lemma {:induction false} ExtOne(order: seq<ApisixPlugin>, t: string, n: nat)
    requires n < |order| && forall i :: 0 <= i < |order| ==> (order[i].pluginType == t <==> i == n)
    ensures ExtConfs(order, t) == [ExtPlugin(order[n].name, order[n].config)]
  {
    if n == |order| - 1 {
      ExtNone(Init(order), t);
    } else {
      ExtOne(Init(order), t, n);
    }
  }

  lemma ExtOrderFree(plugins: PluginMap, order: seq<ApisixPlugin>, order': seq<ApisixPlugin>, t: string)
    requires Enumerates(order, plugins) && Enumerates(order', plugins) && Settled(plugins)
    requires t in {PRE_REQUEST, POST_REQUEST}
    ensures ExtConfs(order, t) == ExtConfs(order', t)
  {
    if n :| 0 <= n < |order| && order[n].pluginType == t {
      var k := order[n].name;
      assert plugins[k] in order';
      var n' :| 0 <= n' < |order'| && order'[n'] == plugins[k];
      OnlyHere(plugins, order, t, n);
      OnlyHere(plugins, order', t, n');
      ExtOne(order, t, n);
      ExtOne(order', t, n');
    } else {
      ExtNone(order, t);
      forall i | 0 <= i < |order'| ensures order'[i].pluginType != t {
        assert plugins[order'[i].name] in order;
      }
      ExtNone(order', t);
    }
  }

  lemma OnlyHere(plugins: PluginMap, order: seq<ApisixPlugin>, t: string, n: nat)
    requires Enumerates(order, plugins) && Settled(plugins) && t in {PRE_REQUEST, POST_REQUEST}
    requires n < |order| && order[n].pluginType == t
    ensures forall i :: 0 <= i < |order| ==> (order[i].pluginType == t <==> i == n)
  {
    forall i | 0 <= i < |order| && order[i].pluginType == t ensures i == n {
      assert plugins[order[i].name] == plugins[order[n].name];
    }
  }

  function Reversed<T>(xs: seq<T>): seq<T> {
    seq(|xs|, i requires 0 <= i < |xs| => xs[|xs| - 1 - i])
  }

  lemma ReversedEnumerates(plugins: PluginMap, order: seq<ApisixPlugin>)
    requires Enumerates(order, plugins)
    ensures Enumerates(Reversed(order), plugins)
  {
    var rev := Reversed(order);
    forall k | k in plugins ensures plugins[k] in rev {
      var i :| 0 <= i < |order| && order[i] == plugins[k];
      assert rev[|order| - 1 - i] == plugins[k];
    }
  }

  function ExtOf(p: ApisixPlugin, t: string): seq<ExtPlugin> {
    if p.pluginType == t then [ExtPlugin(p.name, p.config)] else []
  }

  lemma {:induction false} ExtCons(p: ApisixPlugin, order: seq<ApisixPlugin>, t: string)
    ensures ExtConfs([p] + order, t) == ExtOf(p, t) + ExtConfs(order, t)
  {
    var all := [p] + order;
    if order == [] {
      assert all == [p] && Init(all) == [] && ExtConfs([], t) == [];
    } else {
      assert Init(all) == [p] + Init(order) && Last(all) == Last(order);
      ExtCons(p, Init(order), t);
    }
  }

  lemma {:induction false} ExtReversed(order: seq<ApisixPlugin>, t: string)
    ensures ExtConfs(Reversed(order), t) == Reversed(ExtConfs(order, t))
  {
    if order != [] {
      var p := Last(order);
      assert Reversed(order) == [p] + Reversed(Init(order));
      ExtCons(p, Reversed(Init(order)), t);
      ExtReversed(Init(order), t);
      assert ExtConfs(order, t) == ExtConfs(Init(order), t) + ExtOf(p, t);
    }
  }

  lemma {:induction false} ExtMember(order: seq<ApisixPlugin>, t: string, e: ExtPlugin)
    ensures e in ExtConfs(order, t) <==>
            exists i :: 0 <= i < |order| && order[i].pluginType == t && e == ExtPlugin(order[i].name, order[i].config)
  {
    if order != [] {
      ExtMember(Init(order), t, e);
      assert forall i :: 0 <= i < |order| - 1 ==> Init(order)[i] == order[i];
      assert Last(order) == order[|order| - 1];
    }
  }

  ghost predicate DistinctNames(order: seq<ApisixPlugin>) {
    forall i, j :: 0 <= i < j < |order| ==> order[i].name != order[j].name
  }

  lemma {:induction false} ExtDistinct(order: seq<ApisixPlugin>, t: string)
    requires DistinctNames(order)
    ensures forall i, j :: 0 <= i < j < |ExtConfs(order, t)| ==> ExtConfs(order, t)[i] != ExtConfs(order, t)[j]
  {
    if order != [] {
      ExtDistinct(Init(order), t);
      var es, p := ExtConfs(Init(order), t), Last(order);
      forall e | e in es ensures e.name != p.name {
        ExtMember(Init(order), t, e);
        var i :| 0 <= i < |Init(order)| && e == ExtPlugin(Init(order)[i].name, Init(order)[i].config);
        assert order[i].name != order[|order| - 1].name;
      }
    }
  }

  function ExtKey(t: string): string {
    if t == PRE_REQUEST then PRE_REQUEST_PLUGIN else POST_REQUEST_PLUGIN
  }

  lemma ExtAt(before: map<string, PluginValue>, plugins: PluginMap, order: seq<ApisixPlugin>, t: string)
    requires t in {PRE_REQUEST, POST_REQUEST} && ExtConfs(order, t) != []
    ensures var after := Patched(before, plugins, order);
            ExtKey(t) in after && after[ExtKey(t)] == ExtPlugins(ExtConfs(order, t))
  {
    TypesDiffer();
    assert |PRE_REQUEST_PLUGIN| == 18 && |POST_REQUEST_PLUGIN| == 19;
  }

  /** With two plugins of one external type, visiting them the other way round shows. */
  lemma UnsettledShows(before: map<string, PluginValue>, plugins: PluginMap, order: seq<ApisixPlugin>)
    returns (t: string)
    requires Enumerates(order, plugins) && !Settled(plugins)
    ensures Enumerates(Reversed(order), plugins) && t in {PRE_REQUEST, POST_REQUEST}
    ensures var after, after' := Patched(before, plugins, order), Patched(before, plugins, Reversed(order));
            ExtKey(t) in after && ExtKey(t) in after' && after[ExtKey(t)] != after'[ExtKey(t)]
  {
    hide Patched, ExtConfs, ExtKey;
    var a, b :| a in plugins && b in plugins && SameExternal(plugins[a], plugins[b]) && plugins[a] != plugins[b];
    t := plugins[a].pluginType;
    ReversedEnumerates(plugins, order);
    TwoExternal(plugins, order, t, plugins[a], plugins[b]);
    ExtReversed(order, t);
    ExtAt(before, plugins, order, t);
    ExtAt(before, plugins, Reversed(order), t);
  }

  lemma TwoExternal(plugins: PluginMap, order: seq<ApisixPlugin>, t: string, p: ApisixPlugin, q: ApisixPlugin)
    requires Enumerates(order, plugins) && p in order && q in order && p != q && p.pluginType == q.pluginType == t
    ensures ExtConfs(order, t) != [] && Reversed(ExtConfs(order, t)) != ExtConfs(order, t)
  {
    hide ExtConfs;
    var es := ExtConfs(order, t);
    var x, y := ExtPlugin(p.name, p.config), ExtPlugin(q.name, q.config);
    assert x in es by { ExtMember(order, t, x); }
    assert y in es by { ExtMember(order, t, y); }
    assert plugins[p.name] == p && plugins[q.name] == q;
    assert DistinctNames(order);
    ExtDistinct(order, t);
    var i :| 0 <= i < |es| && es[i] == x;
    var j :| 0 <= j < |es| && es[j] == y;
    assert i != j;
    assert Reversed(es)[0] == es[|es| - 1] != es[0];
  }

  /**
   Go visits the plugins in any order. Exactly when that does not show on a route, whatever it
   held: at most one plugin of each external type.
   */
  lemma OrderIrrelevantIff(before: map<string, PluginValue>, plugins: PluginMap, order: seq<ApisixPlugin>)
    requires Enumerates(order, plugins)
    ensures (forall order' :: Enumerates(order', plugins) ==>
               Patched(before, plugins, order') == Patched(before, plugins, order)) <==> Settled(plugins)
  {
    if Settled(plugins) {
      forall order' | Enumerates(order', plugins)
        ensures Patched(before, plugins, order') == Patched(before, plugins, order)
      {
        SettledSame(before, plugins, order, order');
      }
    } else {
      var t := UnsettledShows(before, plugins, order);
    }
  }

  lemma SettledSame(before: map<string, PluginValue>, plugins: PluginMap, order: seq<ApisixPlugin>,
                    order': seq<ApisixPlugin>)
    requires Enumerates(order, plugins) && Enumerates(order', plugins) && Settled(plugins)
    ensures Patched(before, plugins, order) == Patched(before, plugins, order')
  {
    DirectOrderFree(plugins, order, order');
    ExtOrderFree(plugins, order, order', PRE_REQUEST);
    ExtOrderFree(plugins, order, order', POST_REQUEST);
  }

  /**
   What an update makes of an entry other than the two external ones: it is there if and only if a
   current plugin has its name and is direct, with its configuration, or was there before, and then
   with the old value.
   */
  lemma PatchedExact(before: map<string, PluginValue>, plugins: PluginMap, order: seq<ApisixPlugin>, k: string)
    requires WellKeyed(plugins) && Enumerates(order, plugins)
    requires k != PRE_REQUEST_PLUGIN && k != POST_REQUEST_PLUGIN
    ensures k in Patched(before, plugins, order) <==>
            k in plugins && (plugins[k].pluginType == "" || k in before)
    ensures k in Patched(before, plugins, order) ==>
              Patched(before, plugins, order)[k] ==
              if plugins[k].pluginType == "" then Config(plugins[k].config) else before[k]
  {
    var d, e, r := DirectConfigs(order), ExtEntries(order), Retained(before, plugins);
    DirectOf(plugins, order, k);
    assert k !in e && (k in r <==> k in before && k in plugins);
  }

  /** So an entry the route had survives if and only if a current plugin has its name. */
  lemma EntrySurvives(before: map<string, PluginValue>, plugins: PluginMap, order: seq<ApisixPlugin>, k: string)
    requires WellKeyed(plugins) && Enumerates(order, plugins) && k in before
    requires k != PRE_REQUEST_PLUGIN && k != POST_REQUEST_PLUGIN
    ensures k in Patched(before, plugins, order) <==> k in plugins
    ensures k in plugins ==>
              Patched(before, plugins, order)[k] ==
              if plugins[k].pluginType == "" then Config(plugins[k].config) else before[k]
  {
    hide Patched;
    PatchedExact(before, plugins, order, k);
  }

  /**
   The two external entries: with plugins of that type, exactly these, each once; otherwise the old
   entry if a current plugin happens to have its name.
   */
  lemma ExternalExact(before: map<string, PluginValue>, plugins: PluginMap, order: seq<ApisixPlugin>, e: ExtPlugin)
    requires WellKeyed(plugins) && Enumerates(order, plugins)
    ensures ExternalEntry(Patched(before, plugins, order), plugins, "pre-req", "ext-plugin-pre-req", e)
    ensures ExternalEntry(Patched(before, plugins, order), plugins, "post-req", "ext-plugin-post-req", e)
  {
    hide Patched, ExtConfs;
    TypesDiffer();
    assert ExtKey("pre-req") == "ext-plugin-pre-req" && ExtKey("post-req") == "ext-plugin-post-req";
    ExternalOne(before, plugins, order, "pre-req", e);
    ExternalOne(before, plugins, order, "post-req", e);
  }

  /** If there is a plugin of the type, the entry lists the ones there are, and none of them twice. */
  ghost predicate ExternalEntry(table: map<string, PluginValue>, plugins: PluginMap, t: string, key: string,
                                e: ExtPlugin) {
    (exists k :: k in plugins && plugins[k].pluginType == t) ==>
      && key in table && table[key].ExtPlugins?
      && (e in table[key].conf <==>
          e.name in plugins && plugins[e.name].pluginType == t && plugins[e.name].config == e.value)
      && forall i, j :: 0 <= i < j < |table[key].conf| ==> table[key].conf[i] != table[key].conf[j]
  }

  lemma ExternalOne(before: map<string, PluginValue>, plugins: PluginMap, order: seq<ApisixPlugin>, t: string,
                    e: ExtPlugin)
    requires WellKeyed(plugins) && Enumerates(order, plugins) && t in {PRE_REQUEST, POST_REQUEST}
    ensures ExternalEntry(Patched(before, plugins, order), plugins, t, ExtKey(t), e)
  {
    hide Patched, ExtConfs, ExtKey;
    if k :| k in plugins && plugins[k].pluginType == t {
      var i :| 0 <= i < |order| && order[i] == plugins[k];
      ExtMember(order, t, ExtPlugin(order[i].name, order[i].config));
      ExtMember(order, t, e);
      assert e in ExtConfs(order, t) <==>
             e.name in plugins && plugins[e.name].pluginType == t && plugins[e.name].config == e.value by {
        if e.name in plugins {
          assert plugins[e.name] in order;
        }
      }
      assert DistinctNames(order);
      ExtDistinct(order, t);
      ExtAt(before, plugins, order, t);
    }
  }

  /** A plugin that used to be direct and now runs before the request: its old entry is still there. */
  lemma StaleEntry()
    ensures var plugins := map["auth" := ApisixPlugin(PRE_REQUEST, "auth", "v2")];
            var after := Patched(map["auth" := Config("v1")], plugins, [plugins["auth"]]);
            && "auth" in after && after["auth"] == Config("v1")
            && PRE_REQUEST_PLUGIN in after && after[PRE_REQUEST_PLUGIN] == ExtPlugins([ExtPlugin("auth", "v2")])
  {
    var p := ApisixPlugin(PRE_REQUEST, "auth", "v2");
    TypesDiffer();
    assert Init([p]) == [] && Last([p]) == p;
    assert ExtConfs([p], PRE_REQUEST) == [ExtPlugin("auth", "v2")];
    assert ExtConfs([p], POST_REQUEST) == [];
    assert DirectConfigs([p]) == map[];
    assert |PRE_REQUEST_PLUGIN| == 18;
  }

  /** A Go map: a reference, so two routes could share one. */
  class PluginTable {
    var entries: map<string, PluginValue>

    constructor ()
      ensures entries == map[]
    {
      entries := map[];
    }
  }

  /** A route object: its plugin map is a separate heap cell, its other fields are `fields`. */
  class RouteRef {
    var fields: Route
    var plugins: PluginTable

    constructor (fields: Route, plugins: PluginTable)
      ensures this.fields == fields && this.plugins == plugins
    {
      this.fields := fields;
      this.plugins := plugins;
    }

    function Value(): Route
      reads this, plugins
    {
      fields.(plugins := plugins.entries)
    }

    /** `Route.Copy`: a new object over a new plugin map. */
    method Copy() returns (r: RouteRef)
      ensures fresh(r) && fresh(r.plugins) && r.Value() == Value()
    {
      var table := new PluginTable();
      var rest := plugins.entries.Keys;
      while rest != {}
        invariant rest <= plugins.entries.Keys && plugins.entries == old(plugins.entries)
        invariant table.entries == map k | k in plugins.entries && k !in rest :: plugins.entries[k]
        modifies table
      {
        var k :| k in rest;
        table.entries := table.entries[k := plugins.entries[k]];
        rest := rest - {k};
      }
      var uris := CopyStrings(fields.uris);
      var methods := CopyStrings(fields.methods);
      var hosts := CopyStrings(fields.hosts);
      r := new RouteRef(fields.(uris := uris, methods := methods, hosts := hosts), table);
    }
  }

  method CopyStrings(xs: seq<string>) returns (ys: seq<string>)
    ensures ys == xs
  {
    ys := [];
    for i := 0 to |xs|
      invariant ys == xs[..i]
    {
      ys := ys + [xs[i]];
    }
  }

  /** `patchAmeshPlugins`: it changes the plugin map of the route it is given and nothing else. */
  method PatchAmeshPlugins(route: RouteRef, plugins: PluginMap, order: seq<ApisixPlugin>)
    modifies route.plugins
    ensures route.Value() == PatchRoute(old(route.Value()), plugins, order)
  {
    var table := route.plugins;
    ghost var kept := Retained(table.entries, plugins);
    table.entries := map k | k in table.entries && k in plugins :: table.entries[k];
    var pre, post := [], [];
    for i := 0 to |order|
      invariant table.entries == kept + DirectConfigs(order[..i])
      invariant pre == ExtConfs(order[..i], PRE_REQUEST) && post == ExtConfs(order[..i], POST_REQUEST)
    {
      Snoc(order, i);
      TypesDiffer();
      if order[i].pluginType == "" {
        PutLast(kept, DirectConfigs(order[..i]), order[i].name, Config(order[i].config));
        table.entries := table.entries[order[i].name := Config(order[i].config)];
      } else if order[i].pluginType == PRE_REQUEST {
        pre := pre + [ExtPlugin(order[i].name, order[i].config)];
      } else if order[i].pluginType == POST_REQUEST {
        post := post + [ExtPlugin(order[i].name, order[i].config)];
      }
    }
    assert order[..|order|] == order;
    ExtLast(table.entries, order);
    if |pre| > 0 {
      table.entries := table.entries[PRE_REQUEST_PLUGIN := ExtPlugins(pre)];
    }
    if |post| > 0 {
      table.entries := table.entries[POST_REQUEST_PLUGIN := ExtPlugins(post)];
    }
  }

  lemma PutLast(a: Entries, b: Entries, k: string, v: PluginValue)
    ensures (a + b)[k := v] == a + b[k := v]
  {
  }

  /** Setting the two external entries one after the other. */
  lemma ExtLast(m: Entries, order: seq<ApisixPlugin>)
    ensures m + ExtEntries(order) ==
            var pre, post := ExtConfs(order, PRE_REQUEST), ExtConfs(order, POST_REQUEST);
            var m1 := if |pre| > 0 then m[PRE_REQUEST_PLUGIN := ExtPlugins(pre)] else m;
            if |post| > 0 then m1[POST_REQUEST_PLUGIN := ExtPlugins(post)] else m1
  {
  }

  lemma TypesDiffer()
    ensures PRE_REQUEST != POST_REQUEST
  {
    assert |PRE_REQUEST| == 7 && |POST_REQUEST| == 8;
  }

  /** The body of the loop below: no object that exists already is changed. */
  method PatchedCopy(route: RouteRef, plugins: PluginMap, order: seq<ApisixPlugin>) returns (r: RouteRef)
    ensures fresh(r) && fresh(r.plugins) && r.Value() == PatchRoute(route.Value(), plugins, order)
  {
    hide PatchRoute;
    r := route.Copy();
    PatchAmeshPlugins(r, plugins, order);
  }

  /**
   `updateRoutesPluginManifest`: one new route object per old one, in order, each with the
   patched plugins; no old route object, and no plugin map an old route refers to, is touched.
   */
  method UpdateRoutesPluginManifest(routes: seq<RouteRef>, plugins: PluginMap, order: seq<ApisixPlugin>)
    returns (newRoutes: seq<RouteRef>)
    ensures |newRoutes| == |routes|
    ensures forall i :: 0 <= i < |routes| ==> fresh(newRoutes[i]) && fresh(newRoutes[i].plugins)
    ensures forall i, j :: 0 <= i < j < |routes| ==>
              newRoutes[i] != newRoutes[j] && newRoutes[i].plugins != newRoutes[j].plugins
    ensures forall i :: 0 <= i < |routes| ==> newRoutes[i].Value() == PatchRoute(old(routes[i].Value()), plugins, order)
    ensures forall i :: 0 <= i < |routes| ==> routes[i].Value() == old(routes[i].Value())
  {
    hide PatchRoute;
    newRoutes := [];
    for i := 0 to |routes|
      invariant |newRoutes| == i
      invariant forall j :: 0 <= j < i ==> fresh(newRoutes[j]) && fresh(newRoutes[j].plugins)
      invariant forall j, k :: 0 <= j < k < i ==>
                  newRoutes[j] != newRoutes[k] && newRoutes[j].plugins != newRoutes[k].plugins
      invariant forall j :: 0 <= j < i ==> newRoutes[j].Value() == PatchRoute(old(routes[j].Value()), plugins, order)
      modifies {}
    {
      var route := PatchedCopy(routes[i], plugins, order);
      newRoutes := newRoutes + [route];
    }
  }
}
