/** The provisioner object: `translate` and its loops over mutable state, proved against the state machine. */
module Provisioner {
  import opened GoTypes
  import opened Apisix
  import opened Diff
  import opened Endpoints
  import opened Manifest
  import opened Plugins
  import opened RouteTranslator
  import opened Synchroniser
  import opened Agreement
  import AgentModule = Agent

  lemma AppendFromNil<T>(a: seq<T>, b: seq<T>)
    ensures Append(FromNil(a), b) == FromNil(a + b)
  {
    if b == [] {
      assert a + b == a;
    }
  }

  class XdsProvisioner {
    const env: Env
    var routes: Slice<Route>
    var upstreams: map<string, Upstream>
    var edsRequired: set<string>
    var plugins: PluginMap

    constructor (env: Env)
      ensures this.env == env && Abstract() == INITIAL
    {
      this.env := env;
      routes, upstreams, edsRequired, plugins := Nil, map[], {}, map[];
    }

    function Abstract(): State
      reads this
    {
      State(routes, upstreams, edsRequired, plugins)
    }

    /** The RDS branch of `translate`. */
    method TranslateRds(rcs: seq<Option<RouteConfiguration>>, order: seq<ApisixPlugin>)
      returns (names: seq<string>, events: seq<Event>)
      requires ValidInput(Abstract(), Rds(rcs, order))
      modifies this
      ensures var o := old(OnRds(env, Abstract(), rcs, order));
              Abstract() == o.state && events == o.batch && names == o.names && o.edsRequest == None && o.accepted
    {
      hide BuildAll, Translatable, ManifestDiff, Enumerates, WellFormedConfiguration;
      ghost var st := Abstract();
      names := [];
      var newRoutes: Slice<Route> := Nil;
      for i := 0 to |rcs|
        invariant Abstract() == st
        invariant names == AcceptedNames(rcs[..i])
        invariant newRoutes == FromNil(AcceptedRoutes(env, st, order, rcs[..i]))
      {
        Snoc(rcs, i);
        if rcs[i].None? {
          continue;
        }
        assert rcs[i] in rcs;
        var partial := TranslateRouteConfiguration(env.genId, plugins, order, rcs[i].value);
        if partial.None? {
          continue;
        }
        AppendFromNil(AcceptedRoutes(env, st, order, rcs[..i]), partial.value);
        names := names + [rcs[i].value.name];
        newRoutes := Append(newRoutes, partial.value);
      }
      assert rcs[..|rcs|] == rcs;
      var oldRoutes := routes;
      routes := newRoutes;
      events := GenerateIncrementalEvents(env.marshal, Some(Manifest(newRoutes, Nil)), Some(Manifest(oldRoutes, Nil)));
    }

    /** The CDS branch of `translate`; `order` is the order in which the old upstreams are visited. */
    method TranslateCds(clusters: seq<Option<Cluster>>, order: seq<string>)
      returns (events: seq<Event>, edsRequest: set<string>)
      requires ValidInput(Abstract(), Cds(clusters, order))
      modifies this
      ensures var o := old(OnCds(env, Abstract(), clusters, order));
              && Abstract() == o.state && events == o.batch
              && o.names == [] && o.edsRequest == Some(edsRequest) && o.accepted
    {
      hide ManifestDiff, CdsAll, Noded, Lists;
      var newUps, newManifest := CollectClusters(clusters);
      var oldManifest := ListUpstreams(order);
      upstreams := newUps;
      edsRequest := edsRequired;
      events :=
        GenerateIncrementalEvents(env.marshal, Some(Manifest(Nil, newManifest)), Some(Manifest(Nil, oldManifest)));
    }

    /** The loop over the clusters of a CDS response. */
    method CollectClusters(clusters: seq<Option<Cluster>>)
      returns (newUps: map<string, Upstream>, newManifest: Slice<Upstream>)
      modifies this`edsRequired
      ensures var r := CdsAll(env, upstreams, clusters);
              newUps == r.upstreams && newManifest == FromNil(r.manifest) && edsRequired == r.required
    {
      hide IgnoreEds, TranslateCluster;
      newUps, newManifest, edsRequired := map[], Nil, {};
      for i := 0 to |clusters|
        invariant var r := CdsAll(env, upstreams, clusters[..i]);
                  newUps == r.upstreams && newManifest == FromNil(r.manifest) && edsRequired == r.required
      {
        Snoc(clusters, i);
        if clusters[i].None? {
          continue;
        }
        var c := clusters[i].value;
        var ups := BuildUpstream(env.genId, c);
        if ups.Err? {
          if !IgnoreEds(env.src, c.name) {
            edsRequired := edsRequired + {c.name};
          }
          continue;
        }
        AppendFromNil(CdsAll(env, upstreams, clusters[..i]).manifest, ManifestEntry(upstreams, c, ups.value));
        if c.clusterType.Eds? {
          edsRequired := edsRequired + {c.name};
          if c.name in upstreams && HasNodes(upstreams[c.name]) {
            newManifest := Append(newManifest, [upstreams[c.name]]);
          }
        } else if HasNodes(ups.value) {
          newManifest := Append(newManifest, [ups.value]);
        }
        newUps := newUps[ups.value.name := ups.value];
      }
      assert clusters[..|clusters|] == clusters;
    }

    /** The loop over the old upstreams. */
    method ListUpstreams(order: seq<string>) returns (oldManifest: Slice<Upstream>)
      ensures oldManifest == FromNil(Noded(upstreams, order))
    {
      oldManifest := Nil;
      for i := 0 to |order|
        invariant oldManifest == FromNil(Noded(upstreams, order[..i]))
      {
        Snoc(order, i);
        if order[i] in upstreams && HasNodes(upstreams[order[i]]) {
          AppendFromNil(Noded(upstreams, order[..i]), [upstreams[order[i]]]);
          oldManifest := Append(oldManifest, [upstreams[order[i]]]);
        }
      }
      assert order[..|order|] == order;
    }

    /** The EDS branch of `translate`: the upstreams are replaced one by one, and every one of them is announced. */
    method TranslateEds(assignments: seq<Option<LoadAssignment>>)
      returns (names: seq<string>, events: seq<Event>, further: set<string>)
      modifies this
      ensures var o := old(OnEds(env, Abstract(), assignments));
              && Abstract() == o.state && events == o.batch && names == o.names
              && o.edsRequest == (if further == {} then None else Some(further)) && o.accepted
    {
      hide EdsAll;
      var manifest;
      names, manifest, further := ReplaceUpstreams(assignments);
      events := [];
      for i := 0 to |manifest|
        invariant Abstract() == old(OnEds(env, Abstract(), assignments)).state
        invariant events == Batch(EventUpdate, manifest[..i])
      {
        Snoc(manifest, i);
        BatchAppend(EventUpdate, manifest[..i], manifest[i]);
        events := events + [UpdateEvent(Key(manifest[i]), manifest[i])];
      }
      assert manifest[..|manifest|] == manifest;
    }

    /** The loop over the assignments of an EDS response. */
    method ReplaceUpstreams(assignments: seq<Option<LoadAssignment>>)
      returns (names: seq<string>, manifest: seq<Upstream>, further: set<string>)
      modifies this`upstreams
      ensures old(EdsAll(env, upstreams, assignments)) == EdsResult(upstreams, manifest, names, further)
    {
      hide IgnoreEds, Nodes;
      ghost var before := upstreams;
      names, manifest, further := [], [], {};
      for i := 0 to |assignments|
        invariant EdsAll(env, before, assignments[..i]) == EdsResult(upstreams, manifest, names, further)
      {
        Snoc(assignments, i);
        if assignments[i].None? {
          continue;
        }
        var cla := assignments[i].value;
        if cla.clusterName !in upstreams {
          continue;
        }
        var nodes := TranslateClusterLoadAssignment(cla.localities);
        if nodes.Err? {
          if !IgnoreEds(env.src, cla.clusterName) {
            further := further + {cla.clusterName};
          }
          continue;
        }
        if env.marshal(upstreams[cla.clusterName]).None? {
          continue;
        }
        var ups := upstreams[cla.clusterName].(nodes := nodes.value);
        names := names + [cla.clusterName];
        upstreams := upstreams[ups.name := ups];
        manifest := manifest + [ups];
      }
      assert assignments[..|assignments|] == assignments;
    }

    /** `UpdateRoutesPlugin`. */
    method UpdateRoutes(order: seq<ApisixPlugin>) returns (events: seq<Event>)
      requires ValidInput(Abstract(), UpdateRoutesPlugin(order))
      modifies this
      ensures var o := old(OnPluginUpdate(env, Abstract(), order));
              Abstract() == o.state && events == o.batch && o.names == [] && o.edsRequest == None && o.accepted
    {
      hide ManifestDiff, PatchRoute, Enumerates;
      var oldRoutes := routes;
      var xs := oldRoutes.Elems();
      var newRoutes: Slice<Route> := Nil;
      for i := 0 to |xs|
        invariant Abstract() == old(Abstract()) && newRoutes == FromNil(PatchRoutes(xs, plugins, order)[..i])
      {
        var patched := PatchRoutes(xs, plugins, order);
        AppendFromNil(patched[..i], [patched[i]]);
        assert patched[..i] + [patched[i]] == patched[..i + 1];
        newRoutes := Append(newRoutes, [PatchRoute(xs[i], plugins, order)]);
      }
      assert PatchRoutes(xs, plugins, order)[..|xs|] == PatchRoutes(xs, plugins, order);
      routes := newRoutes;
      events := GenerateIncrementalEvents(env.marshal, Some(Manifest(newRoutes, Nil)), Some(Manifest(oldRoutes, Nil)));
    }

    /** One input, whatever its kind. */
    method Handle(input: Input)
      returns (names: seq<string>, events: seq<Event>, edsRequest: Option<set<string>>, accepted: bool)
      requires ValidInput(Abstract(), input)
      modifies this
      ensures var o := old(Step(env, Abstract(), input));
              Outcome(Abstract(), events, names, edsRequest, accepted) == o
    {
      hide OnRds, OnCds, OnEds, OnPluginUpdate;
      names, events, edsRequest, accepted := [], [], None, true;
      match input {
        case Rds(rcs, order) => names, events := TranslateRds(rcs, order);
        case Cds(clusters, order) =>
          var required;
          events, required := TranslateCds(clusters, order);
          edsRequest := Some(required);
        case Eds(assignments) =>
          var further;
          names, events, further := TranslateEds(assignments);
          if further != {} {
            edsRequest := Some(further);
          }
        case Lds(_) =>
        case UnsupportedType => accepted := false;
        case SetPlugins(newPlugins) => plugins := newPlugins;
        case UpdateRoutesPlugin(order) => events := UpdateRoutes(order);
      }
    }

    /** One turn of `translateLoop`: the request that answers a response. */
    method Answer(resp: Response, verInfo: string) returns (request: Request, events: seq<Event>, newVerInfo: string)
      requires ValidInput(Abstract(), resp.input)
      modifies this
      ensures var o := old(Step(env, Abstract(), resp.input));
              && Abstract() == o.state && events == o.batch
              && newVerInfo == (if resp.input.UnsupportedType? then verInfo else resp.version)
              && request == Request(resp.typeUrl, resp.nonce, newVerInfo, resp.input.UnsupportedType?, o.names)
    {
      StepNames(env, Abstract(), resp.input);
      hide Step, ValidInput;
      newVerInfo := verInfo;
      var names, batch, _, accepted := Handle(resp.input);
      events := batch;
      request := Request(resp.typeUrl, resp.nonce, resp.version, false, []);
      if !accepted {
        request := request.(errorDetail := true);
      } else {
        newVerInfo := resp.version;
        if |names| > 0 {
          request := request.(resourceNames := names);
        }
      }
      request := request.(version := newVerInfo);
    }

    /**
     `translateLoop` over the responses of one stream: one request per response, with its type
     and nonce; an error exactly when the type is unsupported; the version of the latest
     accepted response so far; and the names that `translate` accepted.
     */
    method TranslateLoop(responses: seq<Response>) returns (requests: seq<Request>, batches: seq<seq<Event>>)
      requires ValidResponses(env, Abstract(), responses)
      modifies this
      ensures Abstract() == StateAfter(env, old(Abstract()), responses)
      ensures |requests| == |batches| == |responses|
      ensures forall i :: 0 <= i < |responses| ==> Answered(env, old(Abstract()), responses, i, requests[i], batches[i])
    {
      hide Step, ValidInput, Answered;
      var verInfo := "";
      requests, batches := [], [];
      ghost var st := Abstract();
      for i := 0 to |responses|
        invariant Abstract() == StateAfter(env, st, responses[..i]) && verInfo == LatestVersion(responses, i)
        invariant |requests| == |batches| == i
        invariant forall j :: 0 <= j < i ==> Answered(env, st, responses, j, requests[j], batches[j])
      {
        Snoc(responses, i);
        ValidPrefix(env, st, responses, i);
        var request, events;
        request, events, verInfo := Answer(responses[i], verInfo);
        IsAnswer(env, st, responses, i, request, events);
        requests := requests + [request];
        batches := batches + [events];
      }
      assert responses[..|responses|] == responses;
    }
  }

  /** The request and the batch that the i-th response calls for. */
  ghost predicate Answered(env: Env, st: State, responses: seq<Response>, i: nat, request: Request, batch: seq<Event>)
    requires i < |responses|
  {
    var o := Step(env, StateAfter(env, st, responses[..i]), responses[i].input);
    && batch == o.batch
    && request == Request(responses[i].typeUrl, responses[i].nonce, LatestVersion(responses, i + 1),
                          responses[i].input.UnsupportedType?, o.names)
  }

  lemma IsAnswer(env: Env, st: State, responses: seq<Response>, i: nat, request: Request, batch: seq<Event>)
    requires i < |responses|
    requires var o := Step(env, StateAfter(env, st, responses[..i]), responses[i].input);
             && batch == o.batch
             && request == Request(responses[i].typeUrl, responses[i].nonce, LatestVersion(responses, i + 1),
                                   responses[i].input.UnsupportedType?, o.names)
    ensures Answered(env, st, responses, i, request, batch)
  {
    hide Step;
  }

  datatype Response = Response(input: Input, typeUrl: string, version: string, nonce: string)
  datatype Request = Request(typeUrl: string, nonce: string, version: string, errorDetail: bool,
                             resourceNames: seq<string>)

  /** The type URLs that `translate` knows. */
  const SUPPORTED_TYPES := {
    "type.googleapis.com/envoy.config.route.v3.RouteConfiguration",
    "type.googleapis.com/envoy.config.cluster.v3.Cluster",
    "type.googleapis.com/envoy.config.endpoint.v3.ClusterLoadAssignment",
    "type.googleapis.com/envoy.config.listener.v3.Listener"
  }

  /** Secret responses are outside this model. */
  const SECRET_TYPE := "type.googleapis.com/envoy.extensions.transport_sockets.tls.v3.Secret"

  /** A response is decoded by its type URL. */
  ghost predicate WellTyped(resp: Response) {
    && resp.typeUrl != SECRET_TYPE
    && !resp.input.SetPlugins? && !resp.input.UpdateRoutesPlugin?
    && (resp.input.UnsupportedType? <==> resp.typeUrl !in SUPPORTED_TYPES)
  }

  ghost function StateAfter(env: Env, st: State, responses: seq<Response>): State {
    if responses == [] then st else Step(env, StateAfter(env, st, Init(responses)), Last(responses).input).state
  }

  ghost predicate ValidResponses(env: Env, st: State, responses: seq<Response>) {
    responses == [] ||
    (ValidResponses(env, st, Init(responses)) &&
     ValidInput(StateAfter(env, st, Init(responses)), Last(responses).input))
  }

  lemma {:induction false} ValidPrefix(env: Env, st: State, responses: seq<Response>, i: nat)
    requires i < |responses| && ValidResponses(env, st, responses)
    ensures ValidInput(StateAfter(env, st, responses[..i]), responses[i].input)
  {
    hide Step, ValidInput;
    if i == |responses| - 1 {
      assert responses[..i] == Init(responses);
    } else {
      ValidPrefix(env, st, Init(responses), i);
      assert Init(responses)[..i] == responses[..i];
    }
  }

  lemma StepNames(env: Env, st: State, input: Input)
    ensures Step(env, st, input).accepted <==> !input.UnsupportedType?
    ensures input.UnsupportedType? ==> Step(env, st, input).names == []
  {
  }

  /** The version of the latest accepted response among the first `n`, or empty. */
  function LatestVersion(responses: seq<Response>, n: nat): string
    requires n <= |responses|
  {
    if n == 0 then ""
    else if !responses[n - 1].input.UnsupportedType? then responses[n - 1].version
    else LatestVersion(responses, n - 1)
  }

  /**
   The version of the latest accepted response of one type among the first `n`, or empty: what a
   NACK should carry.
   */
  function LatestVersionOf(responses: seq<Response>, n: nat, typeUrl: string): string
    requires n <= |responses|
  {
    if n == 0 then ""
    else if !responses[n - 1].input.UnsupportedType? && responses[n - 1].typeUrl == typeUrl
    then responses[n - 1].version
    else LatestVersionOf(responses, n - 1, typeUrl)
  }

  lemma {:induction false} NeverAccepted(responses: seq<Response>, n: nat, typeUrl: string)
    requires n <= |responses| && typeUrl !in SUPPORTED_TYPES && forall resp :: resp in responses ==> WellTyped(resp)
    ensures LatestVersionOf(responses, n, typeUrl) == ""
  {
    if n > 0 {
      assert responses[n - 1] in responses;
      NeverAccepted(responses, n - 1, typeUrl);
    }
  }

  /**
   The version a request carries, against the xDS protocol's section "ACK/NACK and resource
   type instance version". An ACK carries the version of the response it answers. A NACK should
   carry the latest accepted version of its own type; since one version is remembered for all
   types, it does so if and only if nothing with a version had been accepted before.
   */
  lemma AckVersions(responses: seq<Response>, i: nat)
    requires i < |responses| && forall resp :: resp in responses ==> WellTyped(resp)
    ensures !responses[i].input.UnsupportedType? ==> LatestVersion(responses, i + 1) == responses[i].version
    ensures responses[i].input.UnsupportedType? ==>
              (LatestVersion(responses, i + 1) == LatestVersionOf(responses, i + 1, responses[i].typeUrl) <==>
               LatestVersion(responses, i) == "")
  {
    assert responses[i] in responses;
    if responses[i].input.UnsupportedType? {
      NeverAccepted(responses, i + 1, responses[i].typeUrl);
    }
  }

  /**
   A stream that shows it: any accepted response with a version, then one of an unsupported type.
   The NACK of the second carries the version of the first, although its own type has none.
   */
  lemma NackCarriesForeignVersion(env: Env, st: State, first: Response, second: Response, nack: Request,
                                  batch: seq<Event>)
    requires WellTyped(first) && !first.input.UnsupportedType? && first.version != ""
    requires WellTyped(second) && second.input.UnsupportedType?
    requires Answered(env, st, [first, second], 1, nack, batch)
    ensures nack.errorDetail && nack.typeUrl == second.typeUrl && nack.version == first.version
    ensures nack.version != LatestVersionOf([first, second], 2, nack.typeUrl) == ""
  {
    hide Step;
    var responses := [first, second];
    AckVersions(responses, 1);
    NeverAccepted(responses, 2, second.typeUrl);
    assert LatestVersion(responses, 1) == first.version;
  }

  /**
   A session: the provisioner handles inputs one after the other and the agent stores each
   batch. The two objects end exactly in the run's final state and store.
   */
  method Serve(env: Env, inputs: seq<Input>, names: set<string>)
    returns (p: XdsProvisioner, agent: AgentModule.Agent)
    requires Total(env.marshal) && InjectiveOn(env.genId, names) && NamesInPlay(inputs) <= names
    requires ValidRun(env, inputs)
    ensures fresh(p) && fresh(agent) && p.env == env
    ensures System(p.Abstract(), agent.storage) == Run(env, inputs)
    ensures RoutesShown(env.marshal, agent.storage, p.routes.Elems())
    ensures Filed(env, p.upstreams) && UpstreamsShown(env, agent.storage, p.upstreams)
  {
    hide Step, ValidInput;
    p := new XdsProvisioner(env);
    agent := new AgentModule.Agent(env.marshal);
    RunPrefix(env, inputs, 0, names);
    for i := 0 to |inputs|
      invariant fresh(p) && fresh(agent) && p.env == env && agent.marshal == env.marshal
      invariant System(p.Abstract(), agent.storage) == Run(env, inputs[..i])
      invariant Synced(env, names, Run(env, inputs[..i]))
    {
      Snoc(inputs, i);
      RunPrefix(env, inputs, i, names);
      RunPrefix(env, inputs, i + 1, names);
      var _, events, _, _ := p.Handle(inputs[i]);
      agent.StoreEvents(events, "");
    }
    assert inputs[..|inputs|] == inputs;
  }

  lemma {:induction false} RunPrefix(env: Env, inputs: seq<Input>, i: nat, names: set<string>)
    requires Total(env.marshal) && InjectiveOn(env.genId, names) && NamesInPlay(inputs) <= names
    requires ValidRun(env, inputs) && i <= |inputs|
    ensures NamesInPlay(inputs[..i]) <= names && ValidRun(env, inputs[..i]) && Synced(env, names, Run(env, inputs[..i]))
  {
    hide Step, ValidInput, Synced;
    if i == |inputs| {
      assert inputs[..i] == inputs;
      RunSynced(env, inputs, names);
    } else {
      RunPrefix(env, Init(inputs), i, names);
      assert Init(inputs)[..i] == inputs[..i];
    }
  }
}
