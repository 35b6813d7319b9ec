/**
 An RDS response that says the same thing again, with the domains of its virtual hosts in
 another order or repeated, must not disturb APISIX.
 */
module Restatement {
  import opened GoTypes
  import opened Apisix
  import opened Diff
  import opened Manifest
  import opened Plugins
  import opened RouteTranslator
  import opened Synchroniser

  ghost predicate SameHost(a: VirtualHost, b: VirtualHost) {
    a.name == b.name && a.routes == b.routes && forall d :: d in a.domains <==> d in b.domains
  }

  ghost predicate SameHosts(a: seq<VirtualHost>, b: seq<VirtualHost>) {
    |a| == |b| && forall i :: 0 <= i < |a| ==> SameHost(a[i], b[i])
  }

  ghost predicate SameConfiguration(a: Option<RouteConfiguration>, b: Option<RouteConfiguration>) {
    match (a, b)
    case (None, None) => true
    case (Some(x), Some(y)) => x.name == y.name && SameHosts(x.virtualHosts, y.virtualHosts)
    case _ => false
  }

  ghost predicate SameResponse(a: seq<Option<RouteConfiguration>>, b: seq<Option<RouteConfiguration>>) {
    |a| == |b| && forall i :: 0 <= i < |a| ==> SameConfiguration(a[i], b[i])
  }

  /** Route by route, the same route under the same host. */
  ghost predicate Paired(a: seq<(VirtualHost, XdsRoute)>, b: seq<(VirtualHost, XdsRoute)>) {
    |a| == |b| && forall i :: 0 <= i < |a| ==> SameHost(a[i].0, b[i].0) && a[i].1 == b[i].1
  }

  lemma {:induction false} KeptPaired(a: VirtualHost, b: VirtualHost, routes: seq<XdsRoute>)
    requires SameHost(a, b)
    ensures Paired(Kept(a, routes), Kept(b, routes))
  {
    if routes != [] {
      KeptPaired(a, b, Init(routes));
    }
  }

  lemma {:induction false} AllKeptPaired(a: seq<VirtualHost>, b: seq<VirtualHost>)
    requires SameHosts(a, b)
    ensures Paired(AllKept(a), AllKept(b))
  {
    if a != [] {
      assert SameHost(Last(a), Last(b));
      AllKeptPaired(Init(a), Init(b));
      KeptPaired(Last(a), Last(b), Last(a).routes);
    }
  }

  /** The plugins are visited in the same order, or in orders that do not show. */
  ghost predicate SameVisit(plugins: PluginMap, order: seq<ApisixPlugin>, order': seq<ApisixPlugin>) {
    order == order' || (Enumerates(order, plugins) && Enumerates(order', plugins) && Settled(plugins))
  }

  lemma SameVisitSame(plugins: PluginMap, order: seq<ApisixPlugin>, order': seq<ApisixPlugin>)
    requires SameVisit(plugins, order, order')
    ensures Patched(map[], plugins, order) == Patched(map[], plugins, order')
  {
    if order != order' {
      SettledSame(map[], plugins, order, order');
    }
  }

  lemma BuildSame(genId: string -> string, plugins: PluginMap, order: seq<ApisixPlugin>, order': seq<ApisixPlugin>,
                  config: string, vh: VirtualHost, vh': VirtualHost, r: XdsRoute)
    requires Supported(r) && SameVisit(plugins, order, order') && SameHost(vh, vh')
    ensures Build(genId, plugins, order, config, vh, r) == Build(genId, plugins, order', config, vh', r)
  {
    hide RouteName, Description, MatchConditions, RouteVars, HostSet, Patched;
    SameVisitSame(plugins, order, order');
    DomainsAsSet(genId, plugins, order', config, vh, vh'.domains, r);
    assert vh.(domains := vh'.domains) == vh';
  }

  lemma BuildAllSame(genId: string -> string, plugins: PluginMap, order: seq<ApisixPlugin>,
                     order': seq<ApisixPlugin>, config: string,
                     a: seq<(VirtualHost, XdsRoute)>, b: seq<(VirtualHost, XdsRoute)>)
    requires Paired(a, b) && SameVisit(plugins, order, order')
    ensures AllSupported(a) <==> AllSupported(b)
    ensures AllSupported(a) ==>
              BuildAll(genId, plugins, order, config, a) == BuildAll(genId, plugins, order', config, b)
  {
    hide Build, Supported, SameVisit;
    if AllSupported(a) {
      forall i | 0 <= i < |a|
        ensures Supported(b[i].1)
        ensures Build(genId, plugins, order, config, a[i].0, a[i].1) ==
                Build(genId, plugins, order', config, b[i].0, b[i].1)
      {
        BuildSame(genId, plugins, order, order', config, a[i].0, b[i].0, a[i].1);
      }
    }
  }

  lemma {:induction false} AcceptedSame(env: Env, st: State, st': State, order: seq<ApisixPlugin>,
                                        order': seq<ApisixPlugin>,
                                        a: seq<Option<RouteConfiguration>>, b: seq<Option<RouteConfiguration>>)
    requires SameResponse(a, b) && st.plugins == st'.plugins && SameVisit(st.plugins, order, order')
    ensures AcceptedRoutes(env, st, order, a) == AcceptedRoutes(env, st', order', b)
    ensures AcceptedNames(a) == AcceptedNames(b)
  {
    hide BuildAll, AllSupported, SameVisit;
    if a != [] {
      AcceptedSame(env, st, st', order, order', Init(a), Init(b));
      assert SameConfiguration(Last(a), Last(b));
      if Last(a).Some? {
        var x, y := Last(a).value, Last(b).value;
        AllKeptPaired(x.virtualHosts, y.virtualHosts);
        BuildAllSame(env.genId, st.plugins, order, order', x.name, AllKept(x.virtualHosts), AllKept(y.virtualHosts));
      }
    }
  }

  /**
   Saying the same thing twice, up to the order and the repetition of domains, gives identical
   routes, with the plugins visited in the same order or, if at most one is of each external type,
   in any two orders; and the second batch is empty exactly when routes that share an id share
   their text.
   */
  lemma RestatedRds(env: Env, st: State, order: seq<ApisixPlugin>, order': seq<ApisixPlugin>,
                    a: seq<Option<RouteConfiguration>>, b: seq<Option<RouteConfiguration>>)
    requires Total(env.marshal) && SameResponse(a, b) && SameVisit(st.plugins, order, order')
    ensures var first := OnRds(env, st, a, order);
            var second := OnRds(env, first.state, b, order');
            var routes := first.state.routes.Elems();
            && second.state == first.state && second.names == first.names
            && (second.batch == [] <==>
                forall x, y :: x in routes && y in routes && x.id == y.id ==> env.marshal(x) == env.marshal(y))
  {
    hide AcceptedRoutes, AcceptedNames, ManifestDiff, SameVisit;
    var first := OnRds(env, st, a, order);
    AcceptedSame(env, st, first.state, order, order', a, b);
    RoutesOnly(env.marshal, first.state.routes, first.state.routes);
    SelfDiffSilent(env.marshal, first.state.routes.Elems());
  }

  /** The same route but for what is done with a request: same name, path and matchers. */
  ghost predicate SameMatch(r: XdsRoute, r': XdsRoute) {
    r.(action := r'.action, fault := r'.fault) == r'
  }

  lemma SameMatchId(genId: string -> string, plugins: PluginMap, order: seq<ApisixPlugin>, config: string,
                    vh: VirtualHost, r: XdsRoute, r': XdsRoute)
    requires Supported(r) && Supported(r') && SameMatch(r, r')
    ensures Build(genId, plugins, order, config, vh, r).id == Build(genId, plugins, order, config, vh, r').id
  {
    hide RouteName, RoutePlugins, Description;
    assert RouteVars(r) == RouteVars(r');
    SameRouteName(config, vh.name, r, r');
  }

  lemma TwoKept(vh: VirtualHost, r: XdsRoute, r': XdsRoute)
    requires vh.routes == [r, r'] && !Neglected(r) && !Neglected(r')
    ensures AllKept([vh]) == [(vh, r), (vh, r')]
  {
    assert Init([vh]) == [] && Last([vh]) == vh;
    assert Init([r, r']) == [r] && Init([r]) == [];
    assert Kept(vh, [r]) == [(vh, r)];
  }

  lemma OneConfiguration(env: Env, st: State, order: seq<ApisixPlugin>, rc: RouteConfiguration)
    requires Translatable(rc)
    ensures AcceptedRoutes(env, st, order, [Some(rc)]) ==
            BuildAll(env.genId, st.plugins, order, rc.name, AllKept(rc.virtualHosts))
  {
    hide BuildAll, AllKept, AllSupported;
    assert Init([Some(rc)]) == [];
    assert AcceptedRoutes(env, st, order, []) == [];
  }

  /**
   A response that does disturb APISIX every time it is repeated: one virtual host that lists two
   routes of one name and match with different actions, such as different clusters.
   */
  lemma RepeatedMatchDisturbs(env: Env, st: State, order: seq<ApisixPlugin>, config: string, vh: VirtualHost,
                              r: XdsRoute, r': XdsRoute)
    requires Total(env.marshal) && vh.routes == [r, r'] && SameMatch(r, r')
    requires Supported(r) && Supported(r') && !Neglected(r)
    requires env.marshal(Build(env.genId, st.plugins, order, config, vh, r)) !=
             env.marshal(Build(env.genId, st.plugins, order, config, vh, r'))
    ensures var response := [Some(RouteConfiguration(config, [vh]))];
            var first := OnRds(env, st, response, order);
            var second := OnRds(env, first.state, response, order);
            second.state == first.state && second.batch != []
  {
    hide Build, Supported, AcceptedRoutes, AllKept, ManifestDiff;
    var rc := RouteConfiguration(config, [vh]);
    var x, y := Build(env.genId, st.plugins, order, config, vh, r), Build(env.genId, st.plugins, order, config, vh, r');
    TwoKept(vh, r, r');
    OneConfiguration(env, st, order, rc);
    SameMatchId(env.genId, st.plugins, order, config, vh, r, r');
    RestatedRds(env, st, order, order, [Some(rc)], [Some(rc)]);
    assert BuildAll(env.genId, st.plugins, order, config, [(vh, r), (vh, r')]) == [x, y];
    assert x in [x, y] && y in [x, y];
  }

  lemma OneKept(vh: VirtualHost, r: XdsRoute)
    requires vh.routes == [r] && !Neglected(r)
    ensures AllKept([vh]) == [(vh, r)]
  {
    assert Init([vh]) == [] && Init([r]) == [];
    assert Kept(vh, [r]) == Kept(vh, []) + [(vh, r)] == [(vh, r)];
    assert AllKept([vh]) == AllKept([]) + Kept(vh, [r]);
  }

  /** The entries that translation adds beside the plugins do not touch the two external ones. */
  lemma ExtKeyStays(genId: string -> string, plugins: PluginMap, order: seq<ApisixPlugin>, r: XdsRoute, t: string)
    requires t in {PRE_REQUEST, POST_REQUEST} && ExtKey(t) in Patched(map[], plugins, order)
    ensures var table := RoutePlugins(genId, plugins, order, r);
            ExtKey(t) in table && table[ExtKey(t)] == Patched(map[], plugins, order)[ExtKey(t)]
  {
    hide Patched;
    assert |TRAFFIC_SPLIT| == 13 && |PROMETHEUS| == 10 && |FAULT_INJECTION| == 15;
    assert |PRE_REQUEST_PLUGIN| == 18 && |POST_REQUEST_PLUGIN| == 19;
  }

  lemma ReversedBuildDiffers(genId: string -> string, plugins: PluginMap, order: seq<ApisixPlugin>, config: string,
                             vh: VirtualHost, r: XdsRoute)
    requires Supported(r) && Enumerates(order, plugins) && !Settled(plugins)
    ensures Build(genId, plugins, order, config, vh, r).plugins !=
            Build(genId, plugins, Reversed(order), config, vh, r).plugins
  {
    hide RouteName, Description, MatchConditions, RouteVars, HostSet, Patched, RoutePlugins, ExtKey;
    var t := UnsettledShows(map[], plugins, order);
    ExtKeyStays(genId, plugins, order, r, t);
    ExtKeyStays(genId, plugins, Reversed(order), r, t);
  }

  /**
   Otherwise the order does show: with two plugins of one external type, the same response with
   one route, and the plugins visited the other way round, sends an event for that route.
   */
  lemma VisitDisturbs(env: Env, st: State, order: seq<ApisixPlugin>, config: string, vh: VirtualHost, r: XdsRoute)
    requires Total(env.marshal) && vh.routes == [r] && Supported(r) && !Neglected(r)
    requires Enumerates(order, st.plugins) && !Settled(st.plugins)
    requires forall x: Route, y: Route :: x.plugins != y.plugins ==> env.marshal(x) != env.marshal(y)
    ensures Enumerates(Reversed(order), st.plugins)
    ensures var response := [Some(RouteConfiguration(config, [vh]))];
            var first := OnRds(env, st, response, order);
            OnRds(env, first.state, response, Reversed(order)).batch != []
  {
    hide Build, Supported, AcceptedRoutes, AcceptedNames, AllKept, ManifestDiff, Enumerates, Settled;
    var rc := RouteConfiguration(config, [vh]);
    var first := OnRds(env, st, [Some(rc)], order);
    var x := Build(env.genId, st.plugins, order, config, vh, r);
    var y := Build(env.genId, st.plugins, Reversed(order), config, vh, r);
    assert Enumerates(Reversed(order), st.plugins) by { ReversedEnumerates(st.plugins, order); }
    OneKept(vh, r);
    OneConfiguration(env, st, order, rc);
    OneConfiguration(env, first.state, Reversed(order), rc);
    ReversedBuildDiffers(env.genId, st.plugins, order, config, vh, r);
    assert BuildAll(env.genId, st.plugins, order, config, [(vh, r)]) == [x];
    assert BuildAll(env.genId, st.plugins, Reversed(order), config, [(vh, r)]) == [y];
    RoutesOnly(env.marshal, Of([x]), Of([y]));
    OneChanged(env.marshal, x, y);
  }

  lemma OneChanged(marshal: Marshal, x: Route, y: Route)
    requires Total(marshal) && marshal(x) != marshal(y)
    ensures DiffEvents(marshal, [x], [y]) != []
  {
    var v, w := View(marshal, [x]), View(marshal, [y]);
    hide Key, DiffEvents, View;
    OneView(marshal, x);
    OneView(marshal, y);
    assert marshal(x).Some? && marshal(y).Some?;
    assert Key(x) in v && v[Key(x)] == Text(marshal, x) && (Key(x) in w ==> w[Key(x)] == Text(marshal, y));
    PatchSound(marshal, "/routes/", [x], [y], v);
    assert (v - v.Keys) + w == w;
    assert Replay(marshal, v, []) == v;
  }
}
