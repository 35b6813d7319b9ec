/** What a translated route says, field by field, and which requests it serves compared with Envoy's route. */
module RouteMeaning {
  import opened GoTypes
  import opened Apisix
  import opened Matchers
  import opened Plugins
  import opened RouteTranslator
  import opened Strings

  // Which routes are translated.

  predicate KnownPattern(m: StringMatcher) {
    m.pattern != UnknownPattern
  }

  predicate KnownHeader(h: HeaderMatcher) {
    h.specifier != UnknownHeaderMatch && (h.specifier.StringMatch? ==> KnownPattern(h.specifier.matcher))
  }

  predicate KnownQuery(q: QueryMatcher) {
    q.specifier.QueryString? ==> KnownPattern(q.specifier.matcher)
  }

  /** A route is supported if and only if its action, its path and every one of its matchers is of a known kind. */
  lemma SupportedIff(r: XdsRoute)
    ensures Supported(r) <==>
            && r.action.Forward? && !r.action.cluster.OtherCluster?
            && (r.action.cluster.WeightedClusters? ==> r.action.cluster.clusters != [])
            && (r.path.ExactPath? || r.path.PathPrefix?)
            && (forall h :: h in r.headers ==> KnownHeader(h))
            && (forall q :: q in r.queries ==> KnownQuery(q))
  {
    forall h: HeaderMatcher ensures HeaderPattern(h.specifier).Some? <==> KnownHeader(h) {
      match h.specifier {
        case StringMatch(m) => PatternKnown(m);
        case _ =>
      }
    }
    forall q: QueryMatcher ensures QuerySupported(q) <==> KnownQuery(q) {
      if q.specifier.QueryString? {
        PatternKnown(q.specifier.matcher);
      }
    }
    assert HeadersSupported(r.headers) <==> forall h :: h in r.headers ==> KnownHeader(h);
    assert QueriesSupported(r.queries) <==> forall q :: q in r.queries ==> KnownQuery(q);
  }

  lemma PatternKnown(m: StringMatcher)
    ensures StringMatchValue(m).Some? <==> KnownPattern(m)
  {
  }

  // The fields of the built route.

  /** `h` is the domain without its port, if it has one. */
  ghost predicate HostOf(domain: string, h: string) {
    ':' !in h && (domain == h || h + ":" <= domain)
  }

  /** The hosts are the domains without ports, strictly sorted, or none if some domain is `*`. */
  lemma BuiltHosts(genId: string -> string, plugins: PluginMap, order: seq<ApisixPlugin>, config: string,
                   vh: VirtualHost, r: XdsRoute)
    requires Supported(r)
    ensures var hosts := Build(genId, plugins, order, config, vh, r).hosts;
            && StrictlySorted(hosts)
            && (hosts == [] <==> "*" in vh.domains || vh.domains == [])
            && ("*" !in vh.domains ==> forall h :: h in hosts <==> exists d :: d in vh.domains && HostOf(d, h))
  {
    hide RouteName, RoutePlugins, Description, MatchConditions, RouteVars, Supported, Ordered, HostSet;
    HostsCanonical(vh.domains);
    forall d, h ensures h == Before(d, ':') <==> HostOf(d, h) {
      assert [':'] == ":";
      BeforeExact(d, ':', h);
    }
  }

  /** The last of the weighted clusters, or the only cluster. */
  ghost predicate DefaultCluster(r: XdsRoute, name: string) {
    && r.action.Forward?
    && match r.action.cluster
       case SingleCluster(n) => name == n
       case WeightedClusters(clusters) => clusters != [] && name == clusters[|clusters| - 1].name
       case OtherCluster => false
  }

  /** The scalar fields. */
  lemma BuiltScalars(genId: string -> string, plugins: PluginMap, order: seq<ApisixPlugin>, config: string,
                     vh: VirtualHost, r: XdsRoute, cluster: string)
    requires Supported(r) && DefaultCluster(r, cluster)
    ensures var route := Build(genId, plugins, order, config, vh, r);
            && (r.path.ExactPath? ==> route.uris == [r.path.s])
            && (r.path.PathPrefix? ==> route.uris == [r.path.s + "*"])
            && route.upstreamId == genId(cluster)
            && route.name == RouteName(config, vh.name, r)
            && route.id == genId(route.name) + "_" + genId(MatchConditions(r))
            && route.desc == "GENERATED_BY_AMESH: VIRTUAL_HOST: " + vh.name + ", NAME: " + r.name +
                             ", CLUSTER: " + cluster
            && route.status == 1
            && route.priority == (if route.hosts == [] || r.name == "allow_any" then 0 else 999)
            && route.methods == [] && route.remoteAddrs == [] && route.serviceId == "" && !route.enableWebsocket
            && route.labels == map[] && route.createTime == 0 && route.updateTime == 0
  {
    hide RouteName, RoutePlugins, MatchConditions, RouteVars, Ordered, HostSet;
    assert r.name == "" ==> "anon" != "allow_any";
  }

  /** The timeouts are Envoy's timeout three times over, if it is positive. */
  lemma BuiltTimeout(genId: string -> string, plugins: PluginMap, order: seq<ApisixPlugin>, config: string,
                     vh: VirtualHost, r: XdsRoute)
    requires Supported(r)
    ensures var timeout := Build(genId, plugins, order, config, vh, r).timeout;
            match r.action.timeoutSeconds
            case Some(t) =>
              && (t <= 0 ==> timeout == None)
              && (t > 0 ==> timeout.Some? && timeout.value.connect == timeout.value.send == timeout.value.read == t)
            case None => timeout == None
  {
    hide RouteName, RoutePlugins, Description, MatchConditions, RouteVars, Ordered, HostSet;
  }

  /** The plugins that translation itself adds; all others are the current plugins'. */
  lemma BuiltPlugins(genId: string -> string, plugins: PluginMap, order: seq<ApisixPlugin>, config: string,
                     vh: VirtualHost, r: XdsRoute, k: string)
    requires Supported(r)
    ensures var table, own := Build(genId, plugins, order, config, vh, r).plugins, Patched(map[], plugins, order);
            && "prometheus" in table && table["prometheus"] == Prometheus(true)
            && (r.fault.Some? ==> "fault-injection" in table &&
                                  table["fault-injection"] == FaultInjection(r.fault.value))
            && (r.action.cluster.WeightedClusters? ==> "traffic-split" in table && table["traffic-split"].TrafficSplit?)
            && (k != "prometheus" && !(k == "fault-injection" && r.fault.Some?) &&
                !(k == "traffic-split" && r.action.cluster.WeightedClusters?) ==>
                  (k in table <==> k in own) && (k in own ==> table[k] == own[k]))
  {
    hide RouteName, Description, MatchConditions, RouteVars, Ordered, HostSet, Patched;
    assert |TRAFFIC_SPLIT| == 13 && |PROMETHEUS| == 10 && |FAULT_INJECTION| == 15;
  }

  // Which requests it serves.

  /** A request as both sides see it: host, path, and nginx's variables for headers and query parameters. */
  datatype Request = Request(host: string, path: string, values: map<string, string>)

  /** Whether a host pattern accepts a host; both proxies have wildcards, which are not interpreted here. */
  type HostPatterns = (string, string) -> bool

  /** How APISIX reads a URI: a final `*` makes it a prefix. */
  ghost predicate UriServes(uri: string, path: string) {
    if uri != "" && Last(uri) == '*' then Init(uri) <= path else path == uri
  }

  ghost predicate Serves(accepts: HostPatterns, route: Route, q: Request) {
    && (route.hosts == [] || exists h :: h in route.hosts && accepts(h, q.host))
    && (exists u :: u in route.uris && UriServes(u, q.path))
    && AllHold(route.vars, q.values)
  }

  ghost predicate AllHold(vars: seq<Var>, values: map<string, string>) {
    forall i :: 0 <= i < |vars| ==> VarHolds(vars[i], values)
  }

  ghost predicate EnvoyHost(accepts: HostPatterns, domains: seq<string>, host: string) {
    domains == [] || "*" in domains || exists d, h :: d in domains && HostOf(d, h) && accepts(h, host)
  }

  ghost predicate EnvoyPath(path: PathSpecifier, s: string) {
    match path
    case ExactPath(p) => s == p
    case PathPrefix(p) => p <= s
    case OtherPath => false
  }

  /** A request on which all matchers of the route are literal and find their header or parameter. */
  ghost predicate Plain(r: XdsRoute, q: Request, header: string -> string, parameter: string -> string) {
    && (forall i :: 0 <= i < |r.headers| ==>
          LiteralMatcher(r.headers[i].specifier) && r.headers[i].specifier != PresentMatch(false) &&
          '\n' !in header(r.headers[i].name))
    && HeadersPresent(r.headers, header, q.values)
    && (forall i :: 0 <= i < |r.queries| ==>
          LiteralQuery(r.queries[i]) && ParameterPresent(r.queries[i], parameter, q.values))
  }

  ghost predicate EnvoyMatchers(r: XdsRoute, q: Request, header: string -> string, parameter: string -> string)
    requires Plain(r, q, header, parameter)
  {
    && (forall i :: 0 <= i < |r.headers| ==> HeaderHolds(r.headers[i], header(r.headers[i].name)))
    && (forall i :: 0 <= i < |r.queries| ==> QueryHolds(r.queries[i], parameter(r.queries[i].name)))
  }

  /** The URI serves exactly Envoy's paths if and only if it is not an exact path that ends in a `*`. */
  lemma UriExactIff(genId: string -> string, plugins: PluginMap, order: seq<ApisixPlugin>, config: string,
                    vh: VirtualHost, r: XdsRoute)
    requires Supported(r)
    ensures var uris := Build(genId, plugins, order, config, vh, r).uris;
            (forall path :: (exists u :: u in uris && UriServes(u, path)) <==> EnvoyPath(r.path, path)) <==>
            !(r.path.ExactPath? && r.path.s != "" && Last(r.path.s) == '*')
  {
    hide Build, Supported, UriServes;
    var uris := Build(genId, plugins, order, config, vh, r).uris;
    var uri := OneUri(genId, plugins, order, config, vh, r);
    forall path ensures (exists u :: u in uris && UriServes(u, path)) <==> UriServes(uri, path) {
      assert uri in uris;
    }
    UriIff(r.path, uri);
  }

  lemma OneUri(genId: string -> string, plugins: PluginMap, order: seq<ApisixPlugin>, config: string,
               vh: VirtualHost, r: XdsRoute) returns (uri: string)
    requires Supported(r)
    ensures Build(genId, plugins, order, config, vh, r).uris == [uri]
    ensures (r.path.ExactPath? && uri == r.path.s) || (r.path.PathPrefix? && uri == r.path.s + "*")
  {
    hide RouteName, RoutePlugins, Description, MatchConditions, RouteVars, Ordered, HostSet;
    uri := Build(genId, plugins, order, config, vh, r).uris[0];
  }

  lemma UriIff(path: PathSpecifier, uri: string)
    requires (path.ExactPath? && uri == path.s) || (path.PathPrefix? && uri == path.s + "*")
    ensures (forall s :: UriServes(uri, s) <==> EnvoyPath(path, s)) <==>
            !(path.ExactPath? && path.s != "" && Last(path.s) == '*')
  {
    if path.PathPrefix? {
      assert Last(uri) == '*' && Init(uri) == path.s;
    } else if uri != "" && Last(uri) == '*' {
      assert UriServes(uri, Init(uri)) && !EnvoyPath(path, Init(uri));
    }
  }

  lemma HostsServeIff(accepts: HostPatterns, genId: string -> string, plugins: PluginMap, order: seq<ApisixPlugin>,
                      config: string, vh: VirtualHost, r: XdsRoute, host: string)
    requires Supported(r)
    ensures var hosts := Build(genId, plugins, order, config, vh, r).hosts;
            (hosts == [] || exists h :: h in hosts && accepts(h, host)) <==> EnvoyHost(accepts, vh.domains, host)
  {
    hide Build, Supported, HostOf;
    BuiltHosts(genId, plugins, order, config, vh, r);
    var hosts := Build(genId, plugins, order, config, vh, r).hosts;
    if "*" !in vh.domains && vh.domains != [] {
      if h :| h in hosts && accepts(h, host) {
        var d :| d in vh.domains && HostOf(d, h);
      }
      if d, h :| d in vh.domains && HostOf(d, h) && accepts(h, host) {
        assert h in hosts;
      }
    }
  }

  lemma VarsServeIff(genId: string -> string, plugins: PluginMap, order: seq<ApisixPlugin>, config: string,
                     vh: VirtualHost, r: XdsRoute, q: Request, header: string -> string, parameter: string -> string)
    requires Supported(r) && Plain(r, q, header, parameter)
    ensures var vars := Build(genId, plugins, order, config, vh, r).vars;
            && |vars| == |r.headers| + |r.queries|
            && (AllHold(vars, q.values) <==> EnvoyMatchers(r, q, header, parameter))
  {
    hide RouteName, RoutePlugins, Description, MatchConditions, Ordered, HostSet, VarHolds, HeaderHolds, QueryHolds,
         LiteralMatcher, LiteralQuery, HeaderVar, QueryVar, HeaderPattern, HeadersPresent, ParameterPresent;
    var first := seq(|r.headers|, i requires 0 <= i < |r.headers| => HeaderVar(r.headers[i]));
    var rest := seq(|r.queries|, i requires 0 <= i < |r.queries| => QueryVar(r.queries[i]));
    HeadersMeaning(r.headers, first, header, q.values);
    QueriesMeaning(r.queries, rest, parameter, q.values);
    BothHold(first, rest, q.values);
    assert Build(genId, plugins, order, config, vh, r).vars == first + rest;
  }

  lemma BothHold(a: seq<Var>, b: seq<Var>, values: map<string, string>)
    ensures AllHold(a + b, values) <==> AllHold(a, values) && AllHold(b, values)
  {
    hide VarHolds;
    assert forall i :: 0 <= i < |a| ==> (a + b)[i] == a[i];
    assert forall i :: 0 <= i < |b| ==> (a + b)[|a| + i] == b[i];
  }

  /**
   The built route serves a request if and only if Envoy's route does: the host is one of the
   virtual host's domains, ports aside, the path is the exact one or begins with the prefix, and all
   header and query matchers hold. The request is asked to hold the headers and parameters that
   are matched, the matchers to be literal, and an exact path not to end in a `*`.
   */
  lemma RouteMeaning(accepts: HostPatterns, genId: string -> string, plugins: PluginMap, order: seq<ApisixPlugin>,
                     config: string, vh: VirtualHost, r: XdsRoute, q: Request, header: string -> string,
                     parameter: string -> string)
    requires Supported(r) && Plain(r, q, header, parameter)
    requires r.path.ExactPath? && r.path.s != "" ==> Last(r.path.s) != '*'
    ensures Serves(accepts, Build(genId, plugins, order, config, vh, r), q) <==>
            && EnvoyHost(accepts, vh.domains, q.host) && EnvoyPath(r.path, q.path)
            && EnvoyMatchers(r, q, header, parameter)
  {
    hide Build, Supported, EnvoyHost, EnvoyPath, EnvoyMatchers, UriServes, Plain, AllHold;
    HostsServeIff(accepts, genId, plugins, order, config, vh, r, q.host);
    UriExactIff(genId, plugins, order, config, vh, r);
    VarsServeIff(genId, plugins, order, config, vh, r, q, header, parameter);
  }
}
