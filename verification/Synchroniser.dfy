/**
 The xDS provisioner as a state machine: what each response, and each plugin update, does to
 the routes and upstreams it remembers and which events it sends. Go's map iteration order,
 where it shows, is part of the input.
 */
module Synchroniser {
  import opened GoTypes
  import opened Apisix
  import opened Diff
  import opened Endpoints
  import opened Manifest
  import opened Plugins
  import opened RouteTranslator
  import opened Strings

  /** The surroundings: the id generator, the JSON encoder and the xDS source address. */
  datatype Env = Env(genId: string -> string, marshal: Marshal, src: string)

  datatype State = State(routes: Slice<Route>, upstreams: map<string, Upstream>,
                         edsRequired: set<string>, plugins: PluginMap)

  const INITIAL := State(Nil, map[], {}, map[])

  datatype LoadAssignment = LoadAssignment(clusterName: string, localities: seq<LocalityEndpoints>)

  /** A resource that does not unmarshal is None. */
  datatype Input =
    | Rds(configurations: seq<Option<RouteConfiguration>>, pluginOrder: seq<ApisixPlugin>)
    | Cds(clusters: seq<Option<Cluster>>, upstreamOrder: seq<string>)
    | Eds(assignments: seq<Option<LoadAssignment>>)
    | Lds(rdsNames: seq<string>)
    | UnsupportedType
    | SetPlugins(plugins: PluginMap)
    | UpdateRoutesPlugin(pluginOrder: seq<ApisixPlugin>)

  /** Each name once, in some order. */
  ghost predicate Lists(order: seq<string>, names: set<string>) {
    Elements(order) == names && forall i, j :: 0 <= i < j < |order| ==> order[i] != order[j]
  }

  ghost predicate ValidInput(st: State, input: Input) {
    match input
    case Rds(rcs, order) =>
      Enumerates(order, st.plugins) && forall rc :: rc in rcs && rc.Some? ==> WellFormedConfiguration(rc.value)
    case Cds(_, order) => Lists(order, st.upstreams.Keys)
    case SetPlugins(plugins) => WellKeyed(plugins)
    case UpdateRoutesPlugin(order) => Enumerates(order, st.plugins)
    case _ => true
  }

  function FromNil<T>(xs: seq<T>): Slice<T> {
    if xs == [] then Nil else Of(xs)
  }

  /** The routes and the names of the configurations of an RDS response that translate. */
  ghost function AcceptedRoutes(env: Env, st: State, order: seq<ApisixPlugin>,
                                rcs: seq<Option<RouteConfiguration>>): seq<Route> {
    if rcs == [] then []
    else
      AcceptedRoutes(env, st, order, Init(rcs)) +
      var rc := Last(rcs);
      if rc.Some? && Translatable(rc.value)
      then BuildAll(env.genId, st.plugins, order, rc.value.name, AllKept(rc.value.virtualHosts))
      else []
  }

  ghost function AcceptedNames(rcs: seq<Option<RouteConfiguration>>): seq<string> {
    if rcs == [] then []
    else
      AcceptedNames(Init(rcs)) +
      if Last(rcs).Some? && Translatable(Last(rcs).value) then [Last(rcs).value.name] else []
  }

  /** `ignoreEds`. */
  predicate IgnoreEds(src: string, cluster: string) {
    Contains(cluster, "BlackHoleCluster") ||
    Contains(cluster, "PassthroughCluster") ||
    Contains(cluster, "InboundPassthroughCluster") ||
    Contains(cluster, "kubernetes.default.svc.cluster.local") ||
    Contains(cluster, "kube-system.svc.cluster.local") ||
    Contains(cluster, "istio-system.svc.cluster.local") ||
    Contains(cluster, Before(TrimPrefix(src, "grpc://"), ':'))
  }

  /** What a CDS response builds up: the new upstreams, the new manifest, the clusters to ask EDS for. */
  datatype CdsResult = CdsResult(upstreams: map<string, Upstream>, manifest: seq<Upstream>, required: set<string>)

  function CdsCluster(env: Env, before: map<string, Upstream>, r: CdsResult, cluster: Option<Cluster>): CdsResult {
    match cluster
    case None => r
    case Some(c) =>
      match TranslateCluster(env.genId, c)
      case Err(_) => if IgnoreEds(env.src, c.name) then r else r.(required := r.required + {c.name})
      case Ok(ups) =>
        CdsResult(
          r.upstreams[c.name := ups],
          r.manifest + ManifestEntry(before, c, ups),
          if c.clusterType.Eds? then r.required + {c.name} else r.required)
  }

  /** An EDS cluster keeps its old upstream until EDS answers; others appear once they have nodes. */
  function ManifestEntry(before: map<string, Upstream>, c: Cluster, ups: Upstream): seq<Upstream> {
    if c.clusterType.Eds? then
      if c.name in before && HasNodes(before[c.name]) then [before[c.name]] else []
    else if HasNodes(ups) then [ups] else []
  }

  function CdsAll(env: Env, before: map<string, Upstream>, clusters: seq<Option<Cluster>>): CdsResult {
    if clusters == [] then CdsResult(map[], [], {})
    else CdsCluster(env, before, CdsAll(env, before, Init(clusters)), Last(clusters))
  }

  /** The upstreams that have nodes, in the given order of their names. */
  function Noded(ups: map<string, Upstream>, order: seq<string>): seq<Upstream> {
    if order == [] then []
    else
      Noded(ups, Init(order)) +
      if Last(order) in ups && HasNodes(ups[Last(order)]) then [ups[Last(order)]] else []
  }

  /** What an EDS response builds up. */
  datatype EdsResult = EdsResult(upstreams: map<string, Upstream>, manifest: seq<Upstream>, names: seq<string>,
                                 further: set<string>)

  function EdsAssignment(env: Env, r: EdsResult, assignment: Option<LoadAssignment>): EdsResult {
    match assignment
    case None => r
    case Some(cla) =>
      if cla.clusterName !in r.upstreams then r
      else
        match Assignment(cla.localities)
        case Err(_) => if IgnoreEds(env.src, cla.clusterName) then r else r.(further := r.further + {cla.clusterName})
        case Ok(nodes) =>
          // The old upstream is copied through its JSON text, so it has to have one.
          if env.marshal(r.upstreams[cla.clusterName]).None? then r
          else
            var ups := r.upstreams[cla.clusterName].(nodes := nodes);
            EdsResult(r.upstreams[ups.name := ups], r.manifest + [ups], r.names + [cla.clusterName], r.further)
  }

  function EdsAll(env: Env, ups: map<string, Upstream>, assignments: seq<Option<LoadAssignment>>): EdsResult {
    if assignments == [] then EdsResult(ups, [], [], {})
    else EdsAssignment(env, EdsAll(env, ups, Init(assignments)), Last(assignments))
  }

  /**
   A step: the new state, the batch of events, the acknowledged names, the EDS request, and
   whether the type is known.
   */
  datatype Outcome = Outcome(state: State, batch: seq<Event>, names: seq<string>, edsRequest: Option<set<string>>,
                             accepted: bool)

  /** Routes are swapped as a whole. */
  function SwapRoutes(env: Env, st: State, routes: Slice<Route>, names: seq<string>): Outcome {
    Outcome(st.(routes := routes), ManifestDiff(env.marshal, Manifest(st.routes, Nil), Manifest(routes, Nil)), names,
      None, true)
  }

  ghost function OnRds(env: Env, st: State, rcs: seq<Option<RouteConfiguration>>, order: seq<ApisixPlugin>): Outcome {
    SwapRoutes(env, st, FromNil(AcceptedRoutes(env, st, order, rcs)), AcceptedNames(rcs))
  }

  function OnPluginUpdate(env: Env, st: State, order: seq<ApisixPlugin>): Outcome {
    SwapRoutes(env, st, FromNil(PatchRoutes(st.routes.Elems(), st.plugins, order)), [])
  }

  function OnCds(env: Env, st: State, clusters: seq<Option<Cluster>>, order: seq<string>): Outcome {
    var r := CdsAll(env, st.upstreams, clusters);
    Outcome(st.(upstreams := r.upstreams, edsRequired := r.required),
            ManifestDiff(env.marshal, Manifest(Nil, FromNil(Noded(st.upstreams, order))),
              Manifest(Nil, FromNil(r.manifest))),
            [], Some(r.required), true)
  }

  function OnEds(env: Env, st: State, assignments: seq<Option<LoadAssignment>>): Outcome {
    var r := EdsAll(env, st.upstreams, assignments);
    Outcome(st.(upstreams := r.upstreams), Batch(EventUpdate, r.manifest), r.names,
            if r.further == {} then None else Some(r.further), true)
  }

  ghost function Step(env: Env, st: State, input: Input): Outcome {
    match input
    case Rds(rcs, order) => OnRds(env, st, rcs, order)
    case Cds(clusters, order) => OnCds(env, st, clusters, order)
    case Eds(assignments) => OnEds(env, st, assignments)
    case Lds(_) => Outcome(st, [], [], None, true)
    case UnsupportedType => Outcome(st, [], [], None, false)
    case SetPlugins(plugins) => Outcome(st.(plugins := plugins), [], [], None, true)
    case UpdateRoutesPlugin(order) => OnPluginUpdate(env, st, order)
  }

  /** The provisioner and the store it feeds. */
  datatype System = System(state: State, store: Store)

  /** Feeding inputs one after the other, each batch being replayed before the next swap. */
  ghost function Run(env: Env, inputs: seq<Input>): System {
    if inputs == [] then System(INITIAL, map[])
    else
      var sys := Run(env, Init(inputs));
      var o := Step(env, sys.state, Last(inputs));
      System(o.state, Replay(env.marshal, sys.store, o.batch))
  }

  ghost predicate ValidRun(env: Env, inputs: seq<Input>) {
    inputs == [] || (ValidRun(env, Init(inputs)) && ValidInput(Run(env, Init(inputs)).state, Last(inputs)))
  }
}
