/** Endpoints and clusters: from Envoy load assignments and clusters to APISIX nodes and upstreams. */
module Endpoints {
  import opened GoTypes
  import opened Apisix

  datatype PortSpecifier = PortValue(port: nat) | NamedPort(name: string) | NoPort
  datatype HostIdentifier =
    | SocketAddress(tcp: bool, address: string, port: PortSpecifier)
    | OtherAddress
    | OtherIdentifier
  datatype LbEndpoint = LbEndpoint(weight: Option<nat>, host: HostIdentifier)
  datatype LocalityEndpoints = LocalityEndpoints(weight: Option<nat>, endpoints: seq<LbEndpoint>)

  /** Go's `int32(x)` for an unsigned 32-bit `x`. */
  function Int32(x: nat): int {
    var y := x % 0x1_0000_0000;
    if y < 0x8000_0000 then y else y - 0x1_0000_0000
  }

  /** A TCP socket address whose port is not given by name. */
  predicate Usable(ep: LbEndpoint) {
    ep.host.SocketAddress? && ep.host.tcp && !ep.host.port.NamedPort?
  }

  /** The weight that counts for an endpoint: its own, else its locality's, else 100. */
  function EffectiveWeight(locality: Option<nat>, ep: LbEndpoint): nat {
    if ep.weight.Some? then ep.weight.value else if locality.Some? then locality.value else 100
  }

  function NodeOf(locality: Option<nat>, ep: LbEndpoint): Node
    requires Usable(ep)
  {
    Node(ep.host.address, if ep.host.port.PortValue? then Int32(ep.host.port.port) else 0,
         Int32(EffectiveWeight(locality, ep)))
  }

  /** Every endpoint with the weight of its locality, locality by locality. */
  function AllEndpoints(localities: seq<LocalityEndpoints>): seq<(Option<nat>, LbEndpoint)> {
    if localities == [] then []
    else AllEndpoints(Init(localities)) + Weighted(Last(localities))
  }

  function Weighted(eps: LocalityEndpoints): seq<(Option<nat>, LbEndpoint)> {
    seq(|eps.endpoints|, i requires 0 <= i < |eps.endpoints| => (eps.weight, eps.endpoints[i]))
  }

  /** The nodes of the usable ones among them, in order. */
  function NodesOf(eps: seq<(Option<nat>, LbEndpoint)>): seq<Node> {
    if eps == [] then []
    else NodesOf(Init(eps)) + if Usable(Last(eps).1) then [NodeOf(Last(eps).0, Last(eps).1)] else []
  }

  function Nodes(localities: seq<LocalityEndpoints>): seq<Node> {
    NodesOf(AllEndpoints(localities))
  }

  datatype TranslateError = RequireFurtherEDS | UnknownClusterName

  datatype Result<+T> = Ok(value: T) | Err(error: TranslateError)

  /**
   `TranslateClusterLoadAssignment`: its nested loops compute the flat listing, and an empty
   endpoint list is the only way to be asked for a further EDS round.
   */
  method TranslateClusterLoadAssignment(localities: seq<LocalityEndpoints>) returns (r: Result<seq<Node>>)
    ensures r == Assignment(localities)
    ensures localities != [] ==> r == Ok(NodesOf(AllEndpoints(localities)))
    ensures localities == [] <==> r == Err(RequireFurtherEDS)
  {
    if |localities| == 0 {
      return Err(RequireFurtherEDS);
    }
    var nodes := [];
    for i := 0 to |localities|
      invariant nodes == Nodes(localities[..i])
    {
      Snoc(localities, i);
      var partial := TranslateLocality(localities[i]);
      NodesOfConcat(AllEndpoints(localities[..i]), Weighted(localities[i]));
      nodes := nodes + partial;
    }
    assert localities[..|localities|] == localities;
    r := Ok(nodes);
  }

  /** The inner loop. */
  method TranslateLocality(eps: LocalityEndpoints) returns (nodes: seq<Node>)
    ensures nodes == NodesOf(Weighted(eps))
  {
    var weight := 100;
    if eps.weight.Some? {
      weight := Int32(eps.weight.value);
    }
    nodes := [];
    ghost var all := Weighted(eps);
    for j := 0 to |eps.endpoints|
      invariant nodes == NodesOf(all[..j])
    {
      Snoc(all, j);
      var ep := eps.endpoints[j];
      var node := Node("", 0, weight);
      if ep.weight.Some? {
        node := node.(weight := Int32(ep.weight.value));
      }
      if !ep.host.SocketAddress? || !ep.host.tcp {
        continue;
      }
      node := node.(host := ep.host.address);
      match ep.host.port {
        case PortValue(port) => node := node.(port := Int32(port));
        case NamedPort(_) => continue;
        case NoPort =>
      }
      nodes := nodes + [node];
    }
    assert all[..|eps.endpoints|] == all;
  }

  lemma {:induction false} NodesOfConcat(a: seq<(Option<nat>, LbEndpoint)>, b: seq<(Option<nat>, LbEndpoint)>)
    ensures NodesOf(a + b) == NodesOf(a) + NodesOf(b)
  {
    if b == [] {
      assert a + b == a;
    } else {
      assert Init(a + b) == a + Init(b) && Last(a + b) == Last(b);
      NodesOfConcat(a, Init(b));
    }
  }

  function Assignment(localities: seq<LocalityEndpoints>): Result<seq<Node>> {
    if localities == [] then Err(RequireFurtherEDS) else Ok(Nodes(localities))
  }

  /** Go's conversion of an unsigned 32-bit number: the signed one that is equal to it modulo 2^32. */
  ghost predicate AsInt32(x: nat, y: int) {
    -0x8000_0000 <= y < 0x8000_0000 && (x - y) % 0x1_0000_0000 == 0
  }

  lemma Int32Exact(x: nat)
    ensures AsInt32(x, Int32(x)) && (x < 0x8000_0000 ==> Int32(x) == x)
    ensures x < 0x1_0000_0000 ==> (Int32(x) == x <==> x < 0x8000_0000) && (Int32(x) < 0 <==> x >= 0x8000_0000)
  {
  }

  /**
   The node of a TCP endpoint with a socket address and no named port: the address itself, the port
   or 0 if there is none, and the endpoint's weight, else its locality's, else 100. A number
   below 2^31 arrives as it is, and a 32-bit weight above turns negative.
   */
  lemma NodeExact(localities: seq<LocalityEndpoints>, i: nat)
    requires i < |AllEndpoints(localities)|
    requires var host := AllEndpoints(localities)[i].1.host;
             host.SocketAddress? && host.tcp && !host.port.NamedPort?
    ensures NodeAt(localities, i) < |Nodes(localities)|
    ensures var (locality, ep) := AllEndpoints(localities)[i];
            var node := Nodes(localities)[NodeAt(localities, i)];
            var weight := match (ep.weight, locality) {
                            case (Some(w), _) => w
                            case (None, Some(w)) => w
                            case (None, None) => 100
                          };
            && node.host == ep.host.address
            && (ep.host.port.NoPort? ==> node.port == 0)
            && (ep.host.port.PortValue? ==> AsInt32(ep.host.port.port, node.port))
            && (ep.host.port.PortValue? && ep.host.port.port < 0x8000_0000 ==> node.port == ep.host.port.port)
            && AsInt32(weight, node.weight)
            && (weight < 0x1_0000_0000 ==>
                  (node.weight == weight <==> weight < 0x8000_0000) && (node.weight < 0 <==> weight >= 0x8000_0000))
  {
    hide Int32, AsInt32;
    var (locality, ep) := AllEndpoints(localities)[i];
    NodesOfAt(AllEndpoints(localities), i);
    Int32Exact(EffectiveWeight(locality, ep));
    if ep.host.port.PortValue? {
      Int32Exact(ep.host.port.port);
    }
  }

  lemma {:induction false} AllEndpointsConcat(a: seq<LocalityEndpoints>, b: seq<LocalityEndpoints>)
    ensures AllEndpoints(a + b) == AllEndpoints(a) + AllEndpoints(b)
  {
    hide Weighted;
    if b == [] {
      assert a + b == a;
    } else {
      assert Init(a + b) == a + Init(b) && Last(a + b) == Last(b);
      AllEndpointsConcat(a, Init(b));
      var x, y, z := AllEndpoints(a), AllEndpoints(Init(b)), Weighted(Last(b));
      assert x + y + z == x + (y + z);
    }
  }

  /** The nodes of a listing are those of its parts one after the other, wherever it is cut between localities. */
  lemma NodesConcat(a: seq<LocalityEndpoints>, b: seq<LocalityEndpoints>)
    ensures Nodes([]) == [] && Nodes(a + b) == Nodes(a) + Nodes(b)
  {
    hide NodesOf;
    AllEndpointsConcat(a, b);
    NodesOfConcat(AllEndpoints(a), AllEndpoints(b));
    NodesOfNone();
  }

  /** And likewise wherever the endpoints of a locality are cut. */
  lemma LocalityConcat(weight: Option<nat>, a: seq<LbEndpoint>, b: seq<LbEndpoint>)
    ensures Nodes([LocalityEndpoints(weight, [])]) == []
    ensures Nodes([LocalityEndpoints(weight, a + b)]) ==
            Nodes([LocalityEndpoints(weight, a)]) + Nodes([LocalityEndpoints(weight, b)])
  {
    hide NodesOf;
    OneLocality(LocalityEndpoints(weight, []));
    OneLocality(LocalityEndpoints(weight, a));
    OneLocality(LocalityEndpoints(weight, b));
    OneLocality(LocalityEndpoints(weight, a + b));
    var x, y := Weighted(LocalityEndpoints(weight, a)), Weighted(LocalityEndpoints(weight, b));
    assert Weighted(LocalityEndpoints(weight, a + b)) == x + y;
    NodesOfConcat(x, y);
    NodesOfNone();
  }

  /** A single endpoint gives its node if it is usable and none otherwise. */
  lemma OneEndpoint(weight: Option<nat>, ep: LbEndpoint)
    ensures var one := [LocalityEndpoints(weight, [ep])];
            && AllEndpoints(one) == [(weight, ep)] && NodeAt(one, 0) == 0
            && |Nodes(one)| == if ep.host.SocketAddress? && ep.host.tcp && !ep.host.port.NamedPort? then 1 else 0
  {
    hide NodesOf;
    OneLocality(LocalityEndpoints(weight, [ep]));
    assert Weighted(LocalityEndpoints(weight, [ep])) == [(weight, ep)];
    NodesOfNone();
    NodesOfOne((weight, ep));
    assert AllEndpoints([LocalityEndpoints(weight, [ep])])[..0] == [];
  }

  lemma OneLocality(eps: LocalityEndpoints)
    ensures AllEndpoints([eps]) == Weighted(eps)
  {
    assert Init([eps]) == [] && AllEndpoints([]) == [];
  }

  lemma NodesOfNone()
    ensures NodesOf([]) == []
  {
  }

  lemma NodesOfOne(x: (Option<nat>, LbEndpoint))
    ensures |NodesOf([x])| == if Usable(x.1) then 1 else 0
  {
    assert Init([x]) == [];
  }

  /** Where the node of the i-th endpoint stands: after the usable endpoints before it. */
  function NodeAt(localities: seq<LocalityEndpoints>, i: nat): nat
    requires i <= |AllEndpoints(localities)|
  {
    |NodesOf(AllEndpoints(localities)[..i])|
  }

  lemma {:induction false} NodesOfAt(eps: seq<(Option<nat>, LbEndpoint)>, i: nat)
    requires i < |eps| && Usable(eps[i].1)
    ensures |NodesOf(eps[..i])| < |NodesOf(eps)| && NodesOf(eps)[|NodesOf(eps[..i])|] == NodeOf(eps[i].0, eps[i].1)
  {
    if i == |eps| - 1 {
      assert eps[..i] == Init(eps);
    } else {
      NodesOfAt(Init(eps), i);
      assert Init(eps)[..i] == eps[..i];
    }
  }

  datatype ClusterType = Static | StrictDns | LogicalDns | Eds | OriginalDst | CustomType(name: string)
  datatype LbPolicy = RoundRobin | LeastRequest | OtherPolicy
  datatype Cluster = Cluster(name: string, clusterType: ClusterType, lbPolicy: LbPolicy,
                             connectTimeout: Option<int>, localities: seq<LocalityEndpoints>)

  function LbType(p: LbPolicy): string {
    match p
    case RoundRobin => "roundrobin"
    case LeastRequest => "least_conn"
    case OtherPolicy => ""
  }

  /** What `TranslateCluster` gives. An EDS cluster, and one of a custom type, becomes an upstream without nodes. */
  function TranslateCluster(genId: string -> string, c: Cluster): (r: Result<Upstream>)
    ensures r.Ok? ==> r.value.name == c.name && r.value.id == genId(c.name) && r.value.scheme == "http"
    ensures r.Ok? ==> (r.value.lbType == "roundrobin" <==> c.lbPolicy.RoundRobin?)
    ensures r.Ok? ==> (r.value.lbType == "least_conn" <==> c.lbPolicy.LeastRequest?)
    ensures r.Ok? && c.lbPolicy.OtherPolicy? ==> r.value.lbType == ""
    ensures r.Ok? && c.connectTimeout.None? ==> r.value.timeouts == None
    ensures r.Ok? && c.connectTimeout.Some? ==>
              && r.value.timeouts.Some? && r.value.timeouts.value.connect == c.connectTimeout.value
              && r.value.timeouts.value.send == r.value.timeouts.value.read == 60
    ensures r.Err? <==> !c.clusterType.Eds? && !c.clusterType.CustomType? && c.localities == []
    ensures r.Ok? ==>
              r.value.nodes == if c.clusterType.Eds? || c.clusterType.CustomType? then [] else Nodes(c.localities)
  {
    assert |LbType(RoundRobin)| == 10 && |LbType(LeastRequest)| == 10;
    assert LbType(RoundRobin)[0] != LbType(LeastRequest)[0];
    var ups := UpstreamObject(
                 c.name, genId(c.name), LbType(c.lbPolicy), "http",
                 if c.connectTimeout.Some? then Some(Timeout(c.connectTimeout.value, 60, 60)) else None,
                 []);
    if c.clusterType.CustomType? || c.clusterType.Eds? then Ok(ups)
    else
      match Assignment(c.localities)
      case Ok(nodes) => Ok(ups.(nodes := nodes))
      case Err(e) => Err(e)
  }

  /** An upstream under construction; the helper methods set its fields. */
  class UpstreamRef {
    var value: Upstream

    constructor (name: string, id: string)
      ensures value == UpstreamObject(name, id, "", "http", None, [])
    {
      value := UpstreamObject(name, id, "", "http", None, []);
    }

    /** `translateClusterLbPolicy`: an unsupported policy leaves the type unset. */
    method SetLbPolicy(c: Cluster)
      requires value.lbType == ""
      modifies this
      ensures value == old(value).(lbType := LbType(c.lbPolicy))
    {
      match c.lbPolicy {
        case RoundRobin => value := value.(lbType := "roundrobin");
        case LeastRequest => value := value.(lbType := "least_conn");
        case OtherPolicy =>
      }
    }

    /** `translateClusterTimeoutSettings`. */
    method SetTimeout(c: Cluster)
      modifies this
      ensures value == if c.connectTimeout.Some?
                       then old(value).(timeouts := Some(Timeout(c.connectTimeout.value, 60, 60)))
                       else old(value)
    {
      if c.connectTimeout.Some? {
        value := value.(timeouts := Some(Timeout(c.connectTimeout.value, 60, 60)));
      }
    }

    /** `translateClusterLoadAssignments`. */
    method SetNodes(c: Cluster) returns (error: Option<TranslateError>)
      modifies this
      ensures error.Some? <==> !c.clusterType.CustomType? && !c.clusterType.Eds? && c.localities == []
      ensures error.Some? ==> error.value == RequireFurtherEDS && value == old(value)
      ensures error.None? ==>
                value == if c.clusterType.CustomType? || c.clusterType.Eds? then old(value)
                         else old(value).(nodes := Nodes(c.localities))
    {
      if c.clusterType.CustomType? || c.clusterType.Eds? {
        return None;
      }
      var nodes := TranslateClusterLoadAssignment(c.localities);
      if nodes.Err? {
        return Some(nodes.error);
      }
      value := value.(nodes := nodes.value);
      return None;
    }
  }

  /** `TranslateCluster` on the object: the three helpers one after the other. */
  method BuildUpstream(genId: string -> string, c: Cluster) returns (r: Result<Upstream>)
    ensures r == TranslateCluster(genId, c)
  {
    hide Nodes;
    var ups := new UpstreamRef(c.name, genId(c.name));
    ups.SetLbPolicy(c);
    ups.SetTimeout(c);
    var error := ups.SetNodes(c);
    if error.Some? {
      return Err(error.value);
    }
    return Ok(ups.value);
  }
}
