/**
 The APISIX objects that Amesh builds, as values. A field of the original structs that
 no code of Amesh ever sets is not listed here.
 */
module Apisix {
  import opened GoTypes

  datatype Timeout = Timeout(connect: int, send: int, read: int)

  datatype Node = Node(host: string, port: int, weight: int)

  /** A matcher expression: each item is a string or a nested expression. */
  datatype Var = Var(items: seq<VarItem>)
  datatype VarItem = Str(s: string) | Nested(v: Var)

  datatype ExtPlugin = ExtPlugin(name: string, value: string)
  datatype WeightedUpstream = WeightedUpstream(upstreamId: string, weight: nat)

  /** What a route's plugin map holds; plugin configurations are opaque texts. */
  datatype PluginValue =
    | Config(text: string)
    | ExtPlugins(conf: seq<ExtPlugin>)
    | Prometheus(preferName: bool)
    | FaultInjection(text: string)
    | TrafficSplit(weighted: seq<WeightedUpstream>)

  /** What an event carries (an `interface{}` in Go): a route or an upstream. */
  datatype Object =
    | RouteObject(
        name: string, id: string, desc: string, priority: int,
        uris: seq<string>, methods: seq<string>, hosts: seq<string>, remoteAddrs: seq<string>,
        vars: seq<Var>, plugins: map<string, PluginValue>, serviceId: string, upstreamId: string,
        status: int, timeout: Option<Timeout>, enableWebsocket: bool, labels: map<string, string>,
        createTime: int, updateTime: int)
    | UpstreamObject(
        name: string, id: string, lbType: string, scheme: string,
        timeouts: Option<Timeout>, nodes: seq<Node>)

  const EMPTY_ROUTE :=
    RouteObject("", "", "", 0, [], [], [], [], [], map[], "", "", 0, None, false, map[], 0, 0)
  const EMPTY_UPSTREAM := UpstreamObject("", "", "", "", None, [])

  type Route = o: Object | o.RouteObject? witness EMPTY_ROUTE
  type Upstream = o: Object | o.UpstreamObject? witness EMPTY_UPSTREAM

  predicate HasNodes(u: Upstream) {
    |u.nodes| > 0
  }

  /** The storage key of an object: its family, then its id. */
  function Prefix(o: Object): string {
    if o.RouteObject? then "/routes/" else "/upstreams/"
  }

  function Key(o: Object): string {
    Prefix(o) + o.id
  }

  predicate IsRouteKey(k: string) {
    "/routes/" <= k
  }

  predicate IsUpstreamKey(k: string) {
    "/upstreams/" <= k
  }

  lemma PrefixInjective(p: string, a: string, b: string)
    ensures p + a == p + b <==> a == b
  {
    assert (p + a)[|p|..] == a;
    assert (p + b)[|p|..] == b;
  }

  /** The key fixes the family and the id of its object. */
  lemma KeyInjective(x: Object, y: Object)
    ensures Key(x) == Key(y) <==> x.RouteObject? == y.RouteObject? && x.id == y.id
    ensures x.RouteObject? <==> IsRouteKey(Key(x))
    ensures x.UpstreamObject? <==> IsUpstreamKey(Key(x))
  {
    assert Key(x)[1] == if x.RouteObject? then 'r' else 'u';
    assert Key(y)[1] == if y.RouteObject? then 'r' else 'u';
    PrefixInjective(Prefix(x), x.id, y.id);
  }

  /** No key belongs to both families. */
  lemma FamiliesDisjoint(k: string)
    ensures IsRouteKey(k) ==> !IsUpstreamKey(k)
  {
    if IsRouteKey(k) {
      assert k[1] == 'r';
      assert "/upstreams/"[1] == 'u';
    }
  }

  datatype Event =
    | AddEvent(key: string, payload: Object)
    | UpdateEvent(key: string, payload: Object)
    | DeleteEvent(key: string, tombstone: Object)

  datatype EventType = EventAdd | EventUpdate | EventDelete

  function MakeEvent(t: EventType, o: Object): Event {
    match t
    case EventAdd => AddEvent(Key(o), o)
    case EventUpdate => UpdateEvent(Key(o), o)
    case EventDelete => DeleteEvent(Key(o), o)
  }

  /** `json.Marshal`: a deterministic function that may fail. */
  type Marshal = Object -> Option<string>

  ghost predicate Total(marshal: Marshal) {
    forall o :: marshal(o).Some?
  }

  function Text(marshal: Marshal, o: Object): string {
    match marshal(o)
    case Some(s) => s
    case None => ""
  }
}
