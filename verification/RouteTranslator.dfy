/** Envoy route configurations to APISIX routes. */
module RouteTranslator {
  import opened GoTypes
  import opened Apisix
  import opened ComparableVar
  import opened Matchers
  import opened Plugins
  import opened Strings

  datatype PathSpecifier = ExactPath(s: string) | PathPrefix(s: string) | OtherPath
  datatype WeightedCluster = WeightedCluster(name: string, weight: nat)
  datatype ClusterSpecifier =
    | SingleCluster(name: string)
    | WeightedClusters(clusters: seq<WeightedCluster>)
    | OtherCluster
  datatype Action = Forward(cluster: ClusterSpecifier, timeoutSeconds: Option<int>) | OtherAction

  /** A route as Envoy has it; `fault` is the fault-injection plugin its filters ask for, if any. */
  datatype XdsRoute = XdsRoute(name: string, caseSensitive: Option<bool>, path: PathSpecifier,
                               headers: seq<HeaderMatcher>, queries: seq<QueryMatcher>, action: Action,
                               fault: Option<string>)
  datatype VirtualHost = VirtualHost(name: string, domains: seq<string>, routes: seq<XdsRoute>)
  datatype RouteConfiguration = RouteConfiguration(name: string, virtualHosts: seq<VirtualHost>)

  /** A weighted action lists at least one cluster; the original indexes the last one unchecked. */
  predicate WellFormed(r: XdsRoute) {
    r.action.Forward? && r.action.cluster.WeightedClusters? ==> r.action.cluster.clusters != []
  }

  ghost predicate WellFormedConfiguration(rc: RouteConfiguration) {
    forall vh, r :: vh in rc.virtualHosts && r in vh.routes ==> WellFormed(r)
  }

  /** `getClusterName`: of weighted clusters, the last is the default upstream. */
  function ClusterName(r: XdsRoute): Option<string>
    requires WellFormed(r)
  {
    if r.action.OtherAction? then None
    else
      match r.action.cluster
      case SingleCluster(name) => Some(name)
      case WeightedClusters(clusters) => Some(Last(clusters).name)
      case OtherCluster => None
  }

  /** `getURL`. */
  function Url(r: XdsRoute): Option<string> {
    match r.path
    case ExactPath(s) => Some(s)
    case PathPrefix(s) => Some(s + "*")
    case OtherPath => None
  }

  /** Case-insensitive routes are neglected. */
  predicate Neglected(r: XdsRoute) {
    r.caseSensitive == Some(false)
  }

  /** Every part of the route has an APISIX counterpart. */
  ghost predicate Supported(r: XdsRoute) {
    WellFormed(r) && ClusterName(r).Some? && Url(r).Some? && QueriesSupported(r.queries) && HeadersSupported(r.headers)
  }

  /** The hosts the domains stand for: a port is cut off. */
  ghost function Hostnames(domains: seq<string>): set<string> {
    set d | d in domains :: Before(d, ':')
  }

  ghost function HostSet(domains: seq<string>): set<string> {
    if "*" in domains then {} else Hostnames(domains)
  }

  lemma HostnamesSnoc(domains: seq<string>, i: nat)
    requires i < |domains|
    ensures Hostnames(domains[..i + 1]) == Hostnames(domains[..i]) + {Before(domains[i], ':')}
    ensures "*" in domains[..i + 1] <==> "*" in domains[..i] || domains[i] == "*"
  {
    InitLast(domains[..i + 1]);
    Snoc(domains, i);
  }

  /** The hosts of a virtual host, sorted; none if any domain is `*`. */
  method CollectHosts(domains: seq<string>) returns (hosts: seq<string>)
    ensures hosts == Ordered(HostSet(domains))
  {
    var hostSet: set<string> := {};
    for i := 0 to |domains|
      invariant "*" !in domains[..i] && hostSet == Hostnames(domains[..i])
    {
      HostnamesSnoc(domains, i);
      if domains[i] == "*" {
        hostSet := {};
        break;
      }
      hostSet := hostSet + {Before(domains[i], ':')};
    }
    assert domains[..|domains|] == domains;
    assert hostSet == HostSet(domains);
    hosts := OrderedStrings(hostSet);
  }

  const DEFAULT_PRIORITY := 999
  const PROMETHEUS := "prometheus"
  const FAULT_INJECTION := "fault-injection"
  const TRAFFIC_SPLIT := "traffic-split"

  /** The expressions of a route: headers first, then query parameters. */
  ghost function RouteVars(r: XdsRoute): seq<Var>
    requires Supported(r)
  {
    seq(|r.headers|, i requires 0 <= i < |r.headers| => HeaderVar(r.headers[i])) +
    seq(|r.queries|, i requires 0 <= i < |r.queries| => QueryVar(r.queries[i]))
  }

  function OrAnon(name: string): string {
    if name == "" then "anon" else name
  }

  function RouteName(config: string, vhost: string, r: XdsRoute): string {
    ReplaceAll(OrAnon(r.name) + "#" + vhost + "#" + OrAnon(config), ".svc.cluster.local", "")
  }

  lemma SameRouteName(config: string, vhost: string, r: XdsRoute, r': XdsRoute)
    requires r.name == r'.name
    ensures RouteName(config, vhost, r) == RouteName(config, vhost, r')
  {
  }

  function ShowSensitive(b: Option<bool>): string {
    match b
    case None => "<nil>"
    case Some(v) => if v then "value:true" else ""
  }

  ghost function MatchConditions(r: XdsRoute): string
    requires Supported(r)
  {
    Url(r).value + "-" + ShowSensitive(r.caseSensitive) + "-" +
    Join(Ordered(Texts(RouteVars(r))), "-")
  }

  ghost function Texts(vars: seq<Var>): set<string> {
    set v | v in vars :: Comparable(v)
  }

  /** `translateRouteWeightedClusters`: the last cluster is left to the route's own upstream. */
  function Split(genId: string -> string, clusters: seq<WeightedCluster>): seq<WeightedUpstream> {
    seq(|clusters|, i requires 0 <= i < |clusters| =>
          WeightedUpstream(if i != |clusters| - 1 then genId(clusters[i].name) else "", clusters[i].weight))
  }

  method TranslateRouteWeightedClusters(genId: string -> string, clusters: seq<WeightedCluster>)
    returns (weighted: seq<WeightedUpstream>)
    ensures weighted == Split(genId, clusters)
  {
    weighted := [];
    for i := 0 to |clusters|
      invariant |weighted| == i && forall j :: 0 <= j < i ==> weighted[j] == Split(genId, clusters)[j]
    {
      var entry := WeightedUpstream("", clusters[i].weight);
      if i != |clusters| - 1 {
        entry := entry.(upstreamId := genId(clusters[i].name));
      }
      weighted := weighted + [entry];
    }
  }

  function RoutePlugins(genId: string -> string, plugins: PluginMap, order: seq<ApisixPlugin>,
                        r: XdsRoute): map<string, PluginValue> {
    var patched := Patched(map[], plugins, order);
    var filtered := if r.fault.Some? then patched[FAULT_INJECTION := FaultInjection(r.fault.value)] else patched;
    var measured := filtered[PROMETHEUS := Prometheus(true)];
    if r.action.Forward? && r.action.cluster.WeightedClusters?
    then measured[TRAFFIC_SPLIT := TrafficSplit(Split(genId, r.action.cluster.clusters))]
    else measured
  }

  /** Routes without hosts, and Istio's catch-all route, come last. */
  function Priority(hosts: seq<string>, name: string): int {
    if |hosts| == 0 || name == "allow_any" then 0 else DEFAULT_PRIORITY
  }

  /** The APISIX route for one Envoy route. */
  ghost function Build(genId: string -> string, plugins: PluginMap, order: seq<ApisixPlugin>,
                       config: string, vh: VirtualHost, r: XdsRoute): Route
    requires Supported(r)
  {
    var hosts := Ordered(HostSet(vh.domains));
    var name := RouteName(config, vh.name, r);
    EMPTY_ROUTE.(
      name := name,
      priority := Priority(hosts, OrAnon(r.name)),
      status := 1,
      id := genId(name) + "_" + genId(MatchConditions(r)),
      hosts := hosts,
      uris := [Url(r).value],
      upstreamId := genId(ClusterName(r).value),
      vars := RouteVars(r),
      plugins := RoutePlugins(genId, plugins, order, r),
      desc := Description(vh.name, r.name, ClusterName(r).value),
      timeout := RouteTimeout(r))
  }

  function Description(vhost: string, route: string, cluster: string): string {
    "GENERATED_BY_AMESH: VIRTUAL_HOST: " + vhost + ", NAME: " + route + ", CLUSTER: " + cluster
  }

  function RouteTimeout(r: XdsRoute): Option<Timeout> {
    if r.action.Forward? && r.action.timeoutSeconds.Some? && r.action.timeoutSeconds.value > 0
    then Some(Timeout(r.action.timeoutSeconds.value, r.action.timeoutSeconds.value, r.action.timeoutSeconds.value))
    else None
  }

  /** The expressions of a route, or None if one of its matchers is unknown. */
  method CollectVars(r: XdsRoute) returns (vars: Option<seq<Var>>)
    requires WellFormed(r) && ClusterName(r).Some? && Url(r).Some?
    ensures vars.Some? <==> Supported(r)
    ensures vars.Some? ==> vars.value == RouteVars(r)
  {
    var queryVars := GetParametersMatchVars(r.queries);
    if queryVars.None? {
      return None;
    }
    var headerVars := GetHeadersMatchVars(r.headers);
    if headerVars.None? {
      return None;
    }
    vars := Some(headerVars.value + queryVars.value);
  }

  method CollectTexts(vars: seq<Var>) returns (texts: set<string>)
    ensures texts == Texts(vars)
  {
    texts := {};
    for i := 0 to |vars|
      invariant texts == Texts(vars[..i])
    {
      var text := ToComparableString(vars[i]);
      texts := texts + {text};
      TextsSnoc(vars, i);
    }
    assert vars[..|vars|] == vars;
  }

  method ConditionText(r: XdsRoute, vars: seq<Var>) returns (s: string)
    requires Supported(r) && vars == RouteVars(r)
    ensures s == MatchConditions(r)
  {
    var texts := CollectTexts(vars);
    var ordered := OrderedStrings(texts);
    s := Url(r).value + "-" + ShowSensitive(r.caseSensitive) + "-" + Join(ordered, "-");
  }

  lemma TextsSnoc(vars: seq<Var>, i: nat)
    requires i < |vars|
    ensures Texts(vars[..i + 1]) == Texts(vars[..i]) + {Comparable(vars[i])}
  {
    InitLast(vars[..i + 1]);
    Snoc(vars, i);
  }

  method CollectPlugins(genId: string -> string, plugins: PluginMap, order: seq<ApisixPlugin>, r: XdsRoute)
    returns (table: map<string, PluginValue>)
    ensures table == RoutePlugins(genId, plugins, order, r)
  {
    table := Patched(map[], plugins, order);
    if r.fault.Some? {
      table := table[FAULT_INJECTION := FaultInjection(r.fault.value)];
    }
    table := table[PROMETHEUS := Prometheus(true)];
    if r.action.Forward? && r.action.cluster.WeightedClusters? {
      var weighted := TranslateRouteWeightedClusters(genId, r.action.cluster.clusters);
      table := table[TRAFFIC_SPLIT := TrafficSplit(weighted)];
    }
  }

  /** The body of the loop in `translateVirtualHost`, for a route that is not neglected. */
  method TranslateRoute(genId: string -> string, plugins: PluginMap, order: seq<ApisixPlugin>,
                        config: string, vh: VirtualHost, hosts: seq<string>, r: XdsRoute) returns (route: Option<Route>)
    requires WellFormed(r) && hosts == Ordered(HostSet(vh.domains))
    ensures route.Some? <==> Supported(r)
    ensures route.Some? ==> route.value == Build(genId, plugins, order, config, vh, r)
  {
    hide RouteName, RoutePlugins, Description, MatchConditions, Priority, RouteVars, RouteTimeout, OrAnon, HostSet;
    var cluster, uri := ClusterName(r), Url(r);
    if cluster.None? || uri.None? {
      return None;
    }
    var vars := CollectVars(r);
    if vars.None? {
      return None;
    }
    var name := RouteName(config, vh.name, r);
    var conditions := ConditionText(r, vars.value);
    var table := CollectPlugins(genId, plugins, order, r);
    route := Some(RouteObject(
      name, genId(name) + "_" + genId(conditions),
      Description(vh.name, r.name, cluster.value),
      Priority(hosts, OrAnon(r.name)), [uri.value], [], hosts, [], vars.value, table, "", genId(cluster.value), 1,
      RouteTimeout(r), false, map[], 0, 0));
  }

  /** The routes that count, each with its virtual host, in order. */
  function Kept(vh: VirtualHost, routes: seq<XdsRoute>): seq<(VirtualHost, XdsRoute)> {
    if routes == [] then []
    else Kept(vh, Init(routes)) + if Neglected(Last(routes)) then [] else [(vh, Last(routes))]
  }

  function AllKept(vhs: seq<VirtualHost>): seq<(VirtualHost, XdsRoute)> {
    if vhs == [] then [] else AllKept(Init(vhs)) + Kept(Last(vhs), Last(vhs).routes)
  }

  ghost predicate AllSupported(kept: seq<(VirtualHost, XdsRoute)>) {
    forall i :: 0 <= i < |kept| ==> Supported(kept[i].1)
  }

  ghost function BuildAll(genId: string -> string, plugins: PluginMap, order: seq<ApisixPlugin>,
                          config: string, kept: seq<(VirtualHost, XdsRoute)>): seq<Route>
    requires AllSupported(kept)
  {
    seq(|kept|, i requires 0 <= i < |kept| => Build(genId, plugins, order, config, kept[i].0, kept[i].1))
  }

  /** `translateVirtualHost`; `ok` is false when it reports an error. */
  method TranslateVirtualHost(genId: string -> string, plugins: PluginMap, order: seq<ApisixPlugin>,
                              config: string, vh: VirtualHost) returns (routes: seq<Route>, ok: bool)
    requires forall r :: r in vh.routes ==> WellFormed(r)
    ensures ok <==> AllSupported(Kept(vh, vh.routes))
    ensures ok ==> routes == BuildAll(genId, plugins, order, config, Kept(vh, vh.routes))
  {
    hide Build;
    var hosts := CollectHosts(vh.domains);
    routes, ok := [], true;
    for i := 0 to |vh.routes|
      invariant ok <==> AllSupported(Kept(vh, vh.routes[..i]))
      invariant ok ==> routes == BuildAll(genId, plugins, order, config, Kept(vh, vh.routes[..i]))
    {
      Snoc(vh.routes, i);
      var r := vh.routes[i];
      ghost var before, after := Kept(vh, vh.routes[..i]), Kept(vh, vh.routes[..i + 1]);
      if Neglected(r) {
        assert after == before;
        continue;
      }
      assert after == before + [(vh, r)];
      AllSupportedSnoc(before, (vh, r));
      var route := TranslateRoute(genId, plugins, order, config, vh, hosts, r);
      if route.None? {
        ok := false;
      } else {
        routes := routes + [route.value];
      }
    }
    assert vh.routes[..|vh.routes|] == vh.routes;
  }

  lemma AllSupportedSnoc(kept: seq<(VirtualHost, XdsRoute)>, x: (VirtualHost, XdsRoute))
    ensures AllSupported(kept + [x]) <==> AllSupported(kept) && Supported(x.1)
  {
    assert (kept + [x])[|kept|] == x;
    assert forall i :: 0 <= i < |kept| ==> (kept + [x])[i] == kept[i];
  }

  lemma AllSupportedConcat(a: seq<(VirtualHost, XdsRoute)>, b: seq<(VirtualHost, XdsRoute)>)
    ensures AllSupported(a + b) <==> AllSupported(a) && AllSupported(b)
  {
    assert forall i :: 0 <= i < |a| ==> (a + b)[i] == a[i];
    assert forall i :: 0 <= i < |b| ==> (a + b)[|a| + i] == b[i];
  }

  lemma NothingBuilt(genId: string -> string, plugins: PluginMap, order: seq<ApisixPlugin>, config: string)
    ensures BuildAll(genId, plugins, order, config, []) == []
  {
  }

  lemma BuildAllConcat(genId: string -> string, plugins: PluginMap, order: seq<ApisixPlugin>, config: string,
                       a: seq<(VirtualHost, XdsRoute)>, b: seq<(VirtualHost, XdsRoute)>)
    requires AllSupported(a) && AllSupported(b)
    ensures AllSupported(a + b)
    ensures BuildAll(genId, plugins, order, config, a + b) ==
            BuildAll(genId, plugins, order, config, a) + BuildAll(genId, plugins, order, config, b)
  {
    hide Build;
    AllSupportedConcat(a, b);
  }

  ghost predicate Translatable(rc: RouteConfiguration) {
    AllSupported(AllKept(rc.virtualHosts))
  }

  /**
   `TranslateRouteConfiguration`, all or nothing: exactly one APISIX route per route that is not
   neglected, in order over all virtual hosts, or no route at all as soon as one of them is unsupported.
   */
  method TranslateRouteConfiguration(genId: string -> string, plugins: PluginMap, order: seq<ApisixPlugin>,
                                     rc: RouteConfiguration) returns (routes: Option<seq<Route>>)
    requires WellFormedConfiguration(rc)
    ensures routes.Some? <==> Translatable(rc)
    ensures routes.Some? ==> routes.value == BuildAll(genId, plugins, order, rc.name, AllKept(rc.virtualHosts))
  {
    hide Build, BuildAll, Supported;
    var all := [];
    NothingBuilt(genId, plugins, order, rc.name);
    for i := 0 to |rc.virtualHosts|
      invariant AllSupported(AllKept(rc.virtualHosts[..i]))
      invariant all == BuildAll(genId, plugins, order, rc.name, AllKept(rc.virtualHosts[..i]))
    {
      Snoc(rc.virtualHosts, i);
      var vh := rc.virtualHosts[i];
      AllSupportedConcat(AllKept(rc.virtualHosts[..i]), Kept(vh, vh.routes));
      var partial, ok := TranslateVirtualHost(genId, plugins, order, rc.name, vh);
      if !ok {
        AllKeptPrefix(rc.virtualHosts, i + 1);
        return None;
      }
      BuildAllConcat(genId, plugins, order, rc.name, AllKept(rc.virtualHosts[..i]), Kept(vh, vh.routes));
      all := all + partial;
    }
    assert rc.virtualHosts[..|rc.virtualHosts|] == rc.virtualHosts;
    routes := Some(all);
  }

  lemma {:induction false} AllKeptPrefix(vhs: seq<VirtualHost>, n: nat)
    requires n <= |vhs| && !AllSupported(AllKept(vhs[..n]))
    ensures !AllSupported(AllKept(vhs))
  {
    if n == |vhs| {
      assert vhs[..n] == vhs;
    } else {
      assert Init(vhs)[..n] == vhs[..n];
      AllKeptPrefix(Init(vhs), n);
      AllSupportedConcat(AllKept(Init(vhs)), Kept(Last(vhs), Last(vhs).routes));
    }
  }

  /** Hosts are canonical: strictly sorted, and empty if and only if some domain is `*` or there is no domain. */
  lemma HostsCanonical(domains: seq<string>)
    ensures StrictlySorted(Ordered(HostSet(domains)))
    ensures Ordered(HostSet(domains)) == [] <==> "*" in domains || domains == []
    ensures "*" !in domains ==>
              forall h :: h in Ordered(HostSet(domains)) <==> exists d :: d in domains && h == Before(d, ':')
  {
    var hosts := Ordered(HostSet(domains));
    NoElements(hosts);
    assert forall h :: h in hosts <==> h in Elements(hosts);
    if "*" !in domains && domains != [] {
      assert Before(domains[0], ':') in HostSet(domains);
    }
  }

  /** Permuting or repeating the domains of a virtual host does not change the routes it gives. */
  lemma DomainsAsSet(genId: string -> string, plugins: PluginMap, order: seq<ApisixPlugin>, config: string,
                     vh: VirtualHost, domains: seq<string>, r: XdsRoute)
    requires Supported(r) && forall d :: d in domains <==> d in vh.domains
    ensures Build(genId, plugins, order, config, vh, r) ==
            Build(genId, plugins, order, config, vh.(domains := domains), r)
  {
    hide RouteName, RoutePlugins, Description;
    assert HostSet(vh.domains) == HostSet(domains);
  }

  /** How APISIX reads a traffic-split entry: no upstream id means the route's own upstream. */
  function Resolve(route: Route, w: WeightedUpstream): (string, nat) {
    (if w.upstreamId == "" then route.upstreamId else w.upstreamId, w.weight)
  }

  /**
   Weighted clusters are preserved: resolving the traffic-split entries of the route gives back
   Envoy's clusters in order with their weights, exactly when no cluster but the last has an
   empty id that the last one's id does not share.
   */
  lemma WeightsPreserved(genId: string -> string, plugins: PluginMap, order: seq<ApisixPlugin>, config: string,
                         vh: VirtualHost, r: XdsRoute)
    requires Supported(r) && r.action.cluster.WeightedClusters?
    ensures var route := Build(genId, plugins, order, config, vh, r);
            var clusters := r.action.cluster.clusters;
            && TRAFFIC_SPLIT in route.plugins && route.plugins[TRAFFIC_SPLIT].TrafficSplit?
            && var weighted := route.plugins[TRAFFIC_SPLIT].weighted;
               && |weighted| == |clusters|
               && ((forall i :: 0 <= i < |clusters| ==>
                      Resolve(route, weighted[i]) == (genId(clusters[i].name), clusters[i].weight))
                   <==>
                   (forall i :: 0 <= i < |clusters| - 1 ==>
                      (genId(clusters[i].name) == "" ==> genId(Last(clusters).name) == "")))
  {
    hide RouteName, Description, MatchConditions, RouteVars, Patched;
    var route := Build(genId, plugins, order, config, vh, r);
    var clusters := r.action.cluster.clusters;
    var weighted := route.plugins[TRAFFIC_SPLIT].weighted;
    assert weighted == Split(genId, clusters);
    assert route.upstreamId == genId(Last(clusters).name);
    assert forall i :: 0 <= i < |clusters| - 1 ==>
             (Resolve(route, weighted[i]) == (genId(clusters[i].name), clusters[i].weight) <==>
              (genId(clusters[i].name) == "" ==> genId(Last(clusters).name) == ""));
  }

  /**
   A plugin update does not preserve the entries that translation adds: each stays if and only
   if a current plugin has its name, and with its value only if that plugin is not a direct one.
   */
  lemma TranslatedEntriesLost(genId: string -> string, plugins: PluginMap, order: seq<ApisixPlugin>, config: string,
                              vh: VirtualHost, r: XdsRoute, current: PluginMap, currentOrder: seq<ApisixPlugin>,
                              k: string)
    requires Supported(r) && WellKeyed(current) && Enumerates(currentOrder, current)
    requires var route := Build(genId, plugins, order, config, vh, r);
             k in route.plugins && k in {TRAFFIC_SPLIT, PROMETHEUS, FAULT_INJECTION}
    ensures var route := Build(genId, plugins, order, config, vh, r);
            var patched := PatchRoute(route, current, currentOrder);
            && (k in patched.plugins <==> k in current)
            && (k in current ==>
                  patched.plugins[k] == if current[k].pluginType == "" then Config(current[k].config)
                                        else route.plugins[k])
  {
    hide RouteName, RoutePlugins, Description, Patched, MatchConditions, RouteVars;
    var route := Build(genId, plugins, order, config, vh, r);
    assert |TRAFFIC_SPLIT| == 13 && |PROMETHEUS| == 10 && |FAULT_INJECTION| == 15;
    assert |PRE_REQUEST_PLUGIN| == 18 && |POST_REQUEST_PLUGIN| == 19;
    EntrySurvives(route.plugins, current, currentOrder, k);
  }

  /** So the weights survive a plugin update if and only if a plugin that is not direct is called so. */
  lemma WeightsSurviveIff(genId: string -> string, plugins: PluginMap, order: seq<ApisixPlugin>, config: string,
                          vh: VirtualHost, r: XdsRoute, current: PluginMap, currentOrder: seq<ApisixPlugin>)
    requires Supported(r) && r.action.cluster.WeightedClusters? && WellKeyed(current)
    requires Enumerates(currentOrder, current)
    ensures var route := Build(genId, plugins, order, config, vh, r);
            var patched := PatchRoute(route, current, currentOrder);
            && TRAFFIC_SPLIT in route.plugins
            && ((TRAFFIC_SPLIT in patched.plugins &&
                 patched.plugins[TRAFFIC_SPLIT] == route.plugins[TRAFFIC_SPLIT]) <==>
                (TRAFFIC_SPLIT in current && current[TRAFFIC_SPLIT].pluginType != ""))
  {
    hide RouteName, Description, Patched, MatchConditions, RouteVars;
    WeightsPreserved(genId, plugins, order, config, vh, r);
    hide Build;
    TranslatedEntriesLost(genId, plugins, order, config, vh, r, current, currentOrder, TRAFFIC_SPLIT);
  }
}
