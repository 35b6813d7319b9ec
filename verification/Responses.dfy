/**
 What a response amounts to, configuration by configuration, cluster by cluster and assignment by
 assignment: the routes and upstreams it leads to, the names it acknowledges, and what EDS is
 asked for.
 */
module Responses {
  import opened GoTypes
  import opened Apisix
  import opened Diff
  import opened Endpoints
  import opened Manifest
  import opened Plugins
  import opened RouteTranslator
  import opened Strings
  import opened Agreement
  import opened Synchroniser

  // RDS.

  ghost function RdsRoutes(env: Env, st: State, order: seq<ApisixPlugin>,
                           rcs: seq<Option<RouteConfiguration>>): seq<Route> {
    OnRds(env, st, rcs, order).state.routes.Elems()
  }

  lemma {:induction false} AcceptedConcat(env: Env, st: State, order: seq<ApisixPlugin>,
                                          a: seq<Option<RouteConfiguration>>, b: seq<Option<RouteConfiguration>>)
    ensures AcceptedRoutes(env, st, order, a + b) ==
            AcceptedRoutes(env, st, order, a) + AcceptedRoutes(env, st, order, b)
    ensures AcceptedNames(a + b) == AcceptedNames(a) + AcceptedNames(b)
  {
    hide AcceptedRoutes, AcceptedNames, RoutesOf, NamesOf;
    if b == [] {
      assert a + b == a;
      NothingAccepted(env, st, order);
    } else {
      assert Init(a + b) == a + Init(b) && Last(a + b) == Last(b);
      AcceptedConcat(env, st, order, a, Init(b));
      AcceptedStep(env, st, order, a + b);
      AcceptedStep(env, st, order, b);
      var x, y, z := AcceptedRoutes(env, st, order, a), AcceptedRoutes(env, st, order, Init(b)),
          RoutesOf(env, st, order, Last(b));
      assert x + y + z == x + (y + z);
    }
  }

  ghost function RoutesOf(env: Env, st: State, order: seq<ApisixPlugin>, rc: Option<RouteConfiguration>): seq<Route> {
    if rc.Some? && Translatable(rc.value)
    then BuildAll(env.genId, st.plugins, order, rc.value.name, AllKept(rc.value.virtualHosts)) else []
  }

  ghost function NamesOf(rc: Option<RouteConfiguration>): seq<string> {
    if rc.Some? && Translatable(rc.value) then [rc.value.name] else []
  }

  lemma AcceptedStep(env: Env, st: State, order: seq<ApisixPlugin>, rcs: seq<Option<RouteConfiguration>>)
    requires rcs != []
    ensures AcceptedRoutes(env, st, order, rcs) ==
            AcceptedRoutes(env, st, order, Init(rcs)) + RoutesOf(env, st, order, Last(rcs))
    ensures AcceptedNames(rcs) == AcceptedNames(Init(rcs)) + NamesOf(Last(rcs))
  {
    hide BuildAll, AllSupported, AllKept;
  }

  lemma NothingAccepted(env: Env, st: State, order: seq<ApisixPlugin>)
    ensures AcceptedRoutes(env, st, order, []) == [] && AcceptedNames([]) == []
  {
  }

  /** The routes and the acknowledged names of a response are those of its parts, one after the other. */
  lemma RdsConcat(env: Env, st: State, order: seq<ApisixPlugin>, a: seq<Option<RouteConfiguration>>,
                  b: seq<Option<RouteConfiguration>>)
    ensures RdsRoutes(env, st, order, a + b) == RdsRoutes(env, st, order, a) + RdsRoutes(env, st, order, b)
    ensures OnRds(env, st, a + b, order).names == OnRds(env, st, a, order).names + OnRds(env, st, b, order).names
    ensures RdsRoutes(env, st, order, []) == [] && OnRds(env, st, [], order).names == []
  {
    AcceptedConcat(env, st, order, a, b);
  }

  /** The route belongs to the virtual host and counts: its match is not case-insensitive. */
  ghost predicate Counts(vh: VirtualHost, r: XdsRoute) {
    r in vh.routes && r.caseSensitive != Some(false)
  }

  /** Every route of the configuration that counts is supported. */
  ghost predicate Accepted(rc: RouteConfiguration) {
    forall vh, r :: vh in rc.virtualHosts && Counts(vh, r) ==> Supported(r)
  }

  lemma {:induction false} KeptMember(vh: VirtualHost, routes: seq<XdsRoute>, x: (VirtualHost, XdsRoute))
    ensures x in Kept(vh, routes) <==> x.0 == vh && x.1 in routes && x.1.caseSensitive != Some(false)
  {
    if routes != [] {
      InitLast(routes);
      KeptMember(vh, Init(routes), x);
    }
  }

  lemma {:induction false} AllKeptMember(vhs: seq<VirtualHost>, x: (VirtualHost, XdsRoute))
    ensures x in AllKept(vhs) <==> x.0 in vhs && Counts(x.0, x.1)
  {
    hide Kept;
    if vhs != [] {
      InitLast(vhs);
      AllKeptMember(Init(vhs), x);
      KeptMember(Last(vhs), Last(vhs).routes, x);
    }
  }

  lemma TranslatableIff(rc: RouteConfiguration)
    ensures Translatable(rc) <==> Accepted(rc)
  {
    hide AllKept, Supported, Counts;
    var kept := AllKept(rc.virtualHosts);
    forall x ensures x in kept <==> x.0 in rc.virtualHosts && Counts(x.0, x.1) {
      AllKeptMember(rc.virtualHosts, x);
    }
    if Translatable(rc) {
      forall vh, r | vh in rc.virtualHosts && Counts(vh, r) ensures Supported(r) {
        assert (vh, r) in kept;
        var i :| 0 <= i < |kept| && kept[i] == (vh, r);
      }
    }
    if Accepted(rc) {
      forall i | 0 <= i < |kept| ensures Supported(kept[i].1) {
        assert kept[i] in kept;
      }
    }
  }

  /** One configuration: all its routes that count, or nothing, and its name if and only if it is accepted. */
  lemma RdsOne(env: Env, st: State, order: seq<ApisixPlugin>, rc: RouteConfiguration)
    ensures OnRds(env, st, [None], order).names == [] && RdsRoutes(env, st, order, [None]) == []
    ensures OnRds(env, st, [Some(rc)], order).names == if Accepted(rc) then [rc.name] else []
    ensures !Accepted(rc) ==> RdsRoutes(env, st, order, [Some(rc)]) == []
    ensures Accepted(rc) ==> AllSupported(AllKept(rc.virtualHosts))
    ensures Accepted(rc) ==> RdsRoutes(env, st, order, [Some(rc)]) ==
                             BuildAll(env.genId, st.plugins, order, rc.name, AllKept(rc.virtualHosts))
  {
    hide BuildAll, Accepted;
    TranslatableIff(rc);
    OneResource(env, st, order, Some(rc));
    OneResource(env, st, order, None);
  }

  lemma OneResource(env: Env, st: State, order: seq<ApisixPlugin>, rc: Option<RouteConfiguration>)
    ensures AcceptedNames([rc]) == NamesOf(rc) && AcceptedRoutes(env, st, order, [rc]) == RoutesOf(env, st, order, rc)
  {
    hide RoutesOf, NamesOf, AcceptedRoutes, AcceptedNames;
    assert Init([rc]) == [] && Last([rc]) == rc;
    AcceptedStep(env, st, order, [rc]);
    NothingAccepted(env, st, order);
  }

  /** The routes that count, in order: cut between virtual hosts, between routes, and for a single route. */
  lemma KeptExact(a: seq<VirtualHost>, b: seq<VirtualHost>, vh: VirtualHost, x: seq<XdsRoute>, y: seq<XdsRoute>,
                  r: XdsRoute)
    ensures AllKept([]) == [] && AllKept(a + b) == AllKept(a) + AllKept(b)
    ensures AllKept([vh]) == Kept(vh, vh.routes)
    ensures Kept(vh, []) == [] && Kept(vh, x + y) == Kept(vh, x) + Kept(vh, y)
    ensures Kept(vh, [r]) == if r.caseSensitive == Some(false) then [] else [(vh, r)]
  {
    AllKeptConcat(a, b);
    KeptConcat(vh, x, y);
    assert Init([vh]) == [] && Last([vh]) == vh && Init([r]) == [] && Last([r]) == r;
    assert AllKept([vh]) == AllKept([]) + Kept(vh, vh.routes);
    assert Kept(vh, []) == [];
  }

  lemma {:induction false} AllKeptConcat(a: seq<VirtualHost>, b: seq<VirtualHost>)
    ensures AllKept(a + b) == AllKept(a) + AllKept(b)
  {
    hide Kept;
    if b == [] {
      assert a + b == a;
    } else {
      assert Init(a + b) == a + Init(b) && Last(a + b) == Last(b);
      AllKeptConcat(a, Init(b));
      var x, y, z := AllKept(a), AllKept(Init(b)), Kept(Last(b), Last(b).routes);
      assert x + y + z == x + (y + z);
    }
  }

  lemma {:induction false} KeptConcat(vh: VirtualHost, a: seq<XdsRoute>, b: seq<XdsRoute>)
    ensures Kept(vh, a + b) == Kept(vh, a) + Kept(vh, b)
  {
    hide Neglected;
    if b == [] {
      assert a + b == a;
    } else {
      assert Init(a + b) == a + Init(b) && Last(a + b) == Last(b);
      KeptConcat(vh, a, Init(b));
    }
  }

  /** And the routes built for them, in that order. */
  lemma BuildAllExact(genId: string -> string, plugins: PluginMap, order: seq<ApisixPlugin>, config: string,
                      a: seq<(VirtualHost, XdsRoute)>, b: seq<(VirtualHost, XdsRoute)>, vh: VirtualHost, r: XdsRoute)
    requires AllSupported(a) && AllSupported(b) && Supported(r)
    ensures AllSupported(a + b) && AllSupported([(vh, r)])
    ensures BuildAll(genId, plugins, order, config, a + b) ==
            BuildAll(genId, plugins, order, config, a) + BuildAll(genId, plugins, order, config, b)
    ensures BuildAll(genId, plugins, order, config, [(vh, r)]) == [Build(genId, plugins, order, config, vh, r)]
  {
    hide Build, Supported;
    BuildAllConcat(genId, plugins, order, config, a, b);
  }

  lemma BuildAllMember(genId: string -> string, plugins: PluginMap, order: seq<ApisixPlugin>, config: string,
                       kept: seq<(VirtualHost, XdsRoute)>, x: Route)
    requires AllSupported(kept)
    ensures x in BuildAll(genId, plugins, order, config, kept) <==>
            exists k :: k in kept && Supported(k.1) && x == Build(genId, plugins, order, config, k.0, k.1)
  {
    hide Build, Supported;
    var routes := BuildAll(genId, plugins, order, config, kept);
    if x in routes {
      var i :| 0 <= i < |routes| && routes[i] == x;
      assert kept[i] in kept;
    }
    if k :| k in kept && Supported(k.1) && x == Build(genId, plugins, order, config, k.0, k.1) {
      var i :| 0 <= i < |kept| && kept[i] == k;
      assert routes[i] == x;
    }
  }

  /** The route is built for this route of this virtual host of this configuration. */
  ghost predicate Source(env: Env, st: State, order: seq<ApisixPlugin>, x: Route, rc: RouteConfiguration,
                         vh: VirtualHost, r: XdsRoute) {
    && Accepted(rc) && vh in rc.virtualHosts && Counts(vh, r)
    && Supported(r) && x == Build(env.genId, st.plugins, order, rc.name, vh, r)
  }

  lemma OneMember(env: Env, st: State, order: seq<ApisixPlugin>, rc: RouteConfiguration, x: Route)
    ensures x in RdsRoutes(env, st, order, [Some(rc)]) <==> exists vh, r :: Source(env, st, order, x, rc, vh, r)
  {
    hide RdsRoutes, AllKept, BuildAll, Build, Supported, Counts;
    RdsOne(env, st, order, rc);
    if Accepted(rc) {
      var kept := AllKept(rc.virtualHosts);
      forall k ensures k in kept <==> k.0 in rc.virtualHosts && Counts(k.0, k.1) {
        AllKeptMember(rc.virtualHosts, k);
      }
      BuildAllMember(env.genId, st.plugins, order, rc.name, kept, x);
      if x in RdsRoutes(env, st, order, [Some(rc)]) {
        var k :| k in kept && Supported(k.1) && x == Build(env.genId, st.plugins, order, rc.name, k.0, k.1);
        assert Source(env, st, order, x, rc, k.0, k.1);
      }
      if vh, r :| Source(env, st, order, x, rc, vh, r) {
        assert (vh, r) in kept;
      }
    }
  }

  /**
   The routes after an RDS response: exactly one for every route, of every virtual host, of every
   configuration whose routes are all supported, leaving out case-insensitive matches.
   */
  lemma {:induction false} RdsMember(env: Env, st: State, order: seq<ApisixPlugin>,
                                     rcs: seq<Option<RouteConfiguration>>, x: Route)
    ensures x in RdsRoutes(env, st, order, rcs) <==>
            exists rc, vh, r :: Some(rc) in rcs && Source(env, st, order, x, rc, vh, r)
  {
    hide RdsRoutes, Source;
    RdsConcat(env, st, order, [], []);
    if rcs != [] {
      var last := Last(rcs);
      InitLast(rcs);
      RdsConcat(env, st, order, Init(rcs), [last]);
      RdsMember(env, st, order, Init(rcs), x);
      match last {
        case Some(rc) => OneMember(env, st, order, rc, x);
        case None => NoMember(env, st, order, x);
      }
    }
  }

  lemma NoMember(env: Env, st: State, order: seq<ApisixPlugin>, x: Route)
    ensures RdsRoutes(env, st, order, [None]) == []
  {
    OneResource(env, st, order, None);
  }

  /** A name is acknowledged if and only if a configuration of that name is accepted. */
  lemma {:induction false} RdsAcknowledges(env: Env, st: State, order: seq<ApisixPlugin>,
                                           rcs: seq<Option<RouteConfiguration>>, n: string)
    ensures n in OnRds(env, st, rcs, order).names <==> exists rc :: Some(rc) in rcs && Accepted(rc) && rc.name == n
  {
    hide Accepted, AcceptedRoutes, ManifestDiff;
    RdsConcat(env, st, order, [], []);
    if rcs != [] {
      var last := Last(rcs);
      InitLast(rcs);
      RdsConcat(env, st, order, Init(rcs), [last]);
      RdsAcknowledges(env, st, order, Init(rcs), n);
      OneResource(env, st, order, last);
      if last.Some? {
        TranslatableIff(last.value);
      }
    }
  }

  // A plugin update.

  /**
   A plugin update keeps every route in its place with everything but its plugins; of those, an
   entry that is not one of the two external ones is there if and only if a current plugin has its
   name and is direct or was there before, with the plugin's configuration or the old value.
   */
  lemma UpdateExact(env: Env, st: State, order: seq<ApisixPlugin>, i: nat, k: string)
    requires WellKeyed(st.plugins) && Enumerates(order, st.plugins) && i < |st.routes.Elems()|
    requires k != "ext-plugin-pre-req" && k != "ext-plugin-post-req"
    ensures var before, after := st.routes.Elems(), OnPluginUpdate(env, st, order).state.routes.Elems();
            && |after| == |before| && after[i].(plugins := before[i].plugins) == before[i]
            && (k in after[i].plugins <==>
                k in st.plugins && (st.plugins[k].pluginType == "" || k in before[i].plugins))
            && (k in after[i].plugins ==>
                  after[i].plugins[k] ==
                  if st.plugins[k].pluginType == "" then Config(st.plugins[k].config) else before[i].plugins[k])
  {
    hide Patched, ManifestDiff, Enumerates;
    var before := st.routes.Elems();
    PatchedExact(before[i].plugins, st.plugins, order, k);
    assert PatchRoutes(before, st.plugins, order)[i] == PatchRoute(before[i], st.plugins, order);
  }

  // CDS.

  /** The i-th resource is a cluster of that name and translates. */
  ghost predicate TranslatesAt(env: Env, clusters: seq<Option<Cluster>>, i: nat, n: string) {
    && i < |clusters| && clusters[i].Some? && clusters[i].value.name == n
    && (clusters[i].value.clusterType.Eds? || clusters[i].value.clusterType.CustomType? ||
        clusters[i].value.localities != [])
  }

  lemma TranslatesIff(env: Env, c: Cluster)
    ensures TranslateCluster(env.genId, c).Ok? <==>
            c.clusterType.Eds? || c.clusterType.CustomType? || c.localities != []
  {
  }

  /** One cluster files its upstream if it translates, and leaves the others alone. */
  lemma CdsFiles(env: Env, before: map<string, Upstream>, clusters: seq<Option<Cluster>>, n: string)
    requires clusters != []
    ensures var ups, rest := CdsAll(env, before, clusters).upstreams, CdsAll(env, before, Init(clusters)).upstreams;
            if TranslatesAt(env, clusters, |clusters| - 1, n)
            then n in ups && TranslateCluster(env.genId, Last(clusters).value) == Ok(ups[n])
            else (n in ups <==> n in rest) && (n in rest ==> ups[n] == rest[n])
  {
    hide IgnoreEds, ManifestEntry, TranslateCluster;
    if Last(clusters).Some? {
      TranslatesIff(env, Last(clusters).value);
    }
  }

  /** After a CDS response a name is known if and only if some cluster of that name translates. */
  lemma {:induction false} CdsKnows(env: Env, before: map<string, Upstream>, clusters: seq<Option<Cluster>>, n: string)
    ensures n in CdsAll(env, before, clusters).upstreams <==> exists i: nat :: TranslatesAt(env, clusters, i, n)
  {
    hide CdsAll, TranslatesAt;
    if clusters == [] {
      NoClusters(env, before, n);
    } else {
      var m: nat := |clusters| - 1;
      CdsKnows(env, before, Init(clusters), n);
      CdsFiles(env, before, clusters, n);
      forall i: nat ensures TranslatesAt(env, clusters, i, n) <==>
                            TranslatesAt(env, Init(clusters), i, n) || (i == m && TranslatesAt(env, clusters, m, n))
      {
        TranslatesBefore(env, clusters, i, n);
      }
    }
  }

  lemma NoClusters(env: Env, before: map<string, Upstream>, n: string)
    ensures CdsAll(env, before, []).upstreams == map[] && !exists i: nat :: TranslatesAt(env, [], i, n)
  {
  }

  lemma TranslatesBefore(env: Env, clusters: seq<Option<Cluster>>, i: nat, n: string)
    requires clusters != []
    ensures TranslatesAt(env, clusters, i, n) <==>
            TranslatesAt(env, Init(clusters), i, n) || (i == |clusters| - 1 && TranslatesAt(env, clusters, i, n))
  {
    if i < |clusters| - 1 {
      assert Init(clusters)[i] == clusters[i];
    }
  }

  /** And then it has the upstream of the last such cluster. */
  lemma {:induction false} CdsKeepsLast(env: Env, before: map<string, Upstream>, clusters: seq<Option<Cluster>>, i: nat,
                                        n: string)
    requires TranslatesAt(env, clusters, i, n)
    requires forall j: nat :: i < j < |clusters| ==> !TranslatesAt(env, clusters, j, n)
    ensures var ups := CdsAll(env, before, clusters).upstreams;
            n in ups && TranslateCluster(env.genId, clusters[i].value) == Ok(ups[n])
  {
    hide CdsAll;
    CdsFiles(env, before, clusters, n);
    if i < |clusters| - 1 {
      TranslatesBefore(env, clusters, i, n);
      forall j: nat | i < j < |clusters| - 1 ensures !TranslatesAt(env, Init(clusters), j, n) {
        TranslatesBefore(env, clusters, j, n);
      }
      CdsKeepsLast(env, before, Init(clusters), i, n);
    }
  }

  /** EDS is asked for an EDS cluster, and for one that is neither custom nor has endpoints, unless it is ignored. */
  ghost predicate AsksFor(env: Env, c: Cluster) {
    c.clusterType.Eds? || (!c.clusterType.CustomType? && c.localities == [] && !IgnoreEds(env.src, c.name))
  }

  /** The EDS request that follows a CDS response names exactly those clusters. */
  lemma CdsRequests(env: Env, st: State, clusters: seq<Option<Cluster>>, order: seq<string>, n: string)
    ensures var o := OnCds(env, st, clusters, order);
            && o.edsRequest == Some(o.state.edsRequired) && o.names == []
            && (n in o.edsRequest.value <==> exists c :: Some(c) in clusters && c.name == n && AsksFor(env, c))
  {
    hide CdsAll, Noded, ManifestDiff;
    CdsRequired(env, st.upstreams, clusters, n);
  }

  lemma {:induction false} CdsRequired(env: Env, before: map<string, Upstream>, clusters: seq<Option<Cluster>>,
                                       n: string)
    ensures n in CdsAll(env, before, clusters).required <==>
            exists c :: Some(c) in clusters && c.name == n && AsksFor(env, c)
  {
    hide IgnoreEds, ManifestEntry, TranslateCluster;
    if clusters != [] {
      var last := Last(clusters);
      InitLast(clusters);
      CdsRequired(env, before, Init(clusters), n);
      if last.Some? {
        assert TranslateCluster(env.genId, last.value).Err? <==>
               !last.value.clusterType.Eds? && !last.value.clusterType.CustomType? && last.value.localities == [];
      }
    }
  }

  // EDS.

  /** The names that one assignment acknowledges, and that it has asked for again. */
  ghost function Acknowledged(ups: map<string, Upstream>, a: Option<LoadAssignment>): seq<string> {
    if a.Some? && a.value.clusterName in ups && a.value.localities != [] then [a.value.clusterName] else []
  }

  ghost function AskedAgain(env: Env, ups: map<string, Upstream>, a: Option<LoadAssignment>): set<string> {
    if a.Some? && a.value.clusterName in ups && a.value.localities == [] && !IgnoreEds(env.src, a.value.clusterName)
    then {a.value.clusterName} else {}
  }

  lemma EdsOneName(env: Env, ups: map<string, Upstream>, r: EdsResult, a: Option<LoadAssignment>)
    requires Total(env.marshal) && r.upstreams.Keys == ups.Keys
    ensures var r' := EdsAssignment(env, r, a);
            r'.names == r.names + Acknowledged(ups, a) && r'.further == r.further + AskedAgain(env, ups, a)
  {
    hide IgnoreEds, Nodes;
    if a.Some? && a.value.clusterName in r.upstreams {
      assert env.marshal(r.upstreams[a.value.clusterName]).Some?;
    }
  }

  lemma {:induction false} EdsNames(env: Env, ups: map<string, Upstream>, as': seq<Option<LoadAssignment>>, n: string)
    requires Total(env.marshal) && Filed(env, ups)
    ensures as' != [] ==>
              EdsAll(env, ups, as').names == EdsAll(env, ups, Init(as')).names + Acknowledged(ups, Last(as'))
    ensures n in EdsAll(env, ups, as').names <==>
            n in ups && exists a :: Some(a) in as' && a.clusterName == n && a.localities != []
    ensures n in EdsAll(env, ups, as').further <==>
            n in ups && !IgnoreEds(env.src, n) && exists a :: Some(a) in as' && a.clusterName == n && a.localities == []
  {
    hide IgnoreEds, EdsAssignment;
    if as' != [] {
      InitLast(as');
      EdsNames(env, ups, Init(as'), n);
      EdsFiled(env, ups, Init(as'));
      EdsOneName(env, ups, EdsAll(env, ups, Init(as')), Last(as'));
    }
  }

  /**
   An EDS response acknowledges, in order, the known clusters it has localities for, and asks again
   for the known ones it has an empty assignment for and that are not ignored.
   */
  lemma EdsAnswers(env: Env, st: State, as': seq<Option<LoadAssignment>>, n: string)
    requires Total(env.marshal) && Filed(env, st.upstreams)
    ensures var o := OnEds(env, st, as');
            && (as' == [] ==> o.names == [])
            && (as' != [] ==> o.names == OnEds(env, st, Init(as')).names + Acknowledged(st.upstreams, Last(as')))
            && (n in o.names <==>
                n in st.upstreams && exists a :: Some(a) in as' && a.clusterName == n && a.localities != [])
            && (o.edsRequest.Some? && n in o.edsRequest.value <==>
                n in st.upstreams && !IgnoreEds(env.src, n) &&
                exists a :: Some(a) in as' && a.clusterName == n && a.localities == [])
            && (forall e :: e in o.batch ==> e.UpdateEvent? && e.key == "/upstreams/" + e.payload.id)
  {
    hide EdsAll, IgnoreEds, Batch;
    EdsNames(env, st.upstreams, as', n);
    var manifest := EdsAll(env, st.upstreams, as').manifest;
    forall e | e in Batch(EventUpdate, manifest) ensures e.UpdateEvent? && e.key == "/upstreams/" + e.payload.id {
      UpdatesOnly(manifest, e);
    }
    if as' == [] {
      assert EdsAll(env, st.upstreams, []).names == [] by { NoAssignments(env, st.upstreams); }
    }
  }

  lemma NoAssignments(env: Env, ups: map<string, Upstream>)
    ensures EdsAll(env, ups, []).names == []
  {
  }

  lemma {:induction false} UpdatesOnly(us: seq<Upstream>, e: Event)
    requires e in Batch(EventUpdate, us)
    ensures e.UpdateEvent? && e.payload.UpstreamObject? && e.key == "/upstreams/" + e.payload.id
  {
    if e in Batch(EventUpdate, Init(us)) {
      UpdatesOnly(Init(us), e);
    } else {
      assert e == MakeEvent(EventUpdate, Last(us));
    }
  }

  /**
   EDS is not asked for clusters of the mesh's own making: those whose name contains one of five
   texts, or the host part of the source's address.
   */
  lemma IgnoredIff(host: string, port: string, cluster: string)
    requires ':' !in host
    ensures IgnoreEds("grpc://" + host + ":" + port, cluster) <==>
            || Contains(cluster, "BlackHoleCluster") || Contains(cluster, "PassthroughCluster")
            || Contains(cluster, "kubernetes.default.svc.cluster.local")
            || Contains(cluster, "kube-system.svc.cluster.local")
            || Contains(cluster, "istio-system.svc.cluster.local")
            || Contains(cluster, host)
  {
    hide Contains, Before, TrimPrefix;
    SourceHost(host, port);
    if Contains(cluster, "InboundPassthroughCluster") {
      assert "Inbound" + "PassthroughCluster" == "InboundPassthroughCluster";
      ContainsSuffix(cluster, "Inbound", "PassthroughCluster");
    }
  }

  lemma SourceHost(host: string, port: string)
    requires ':' !in host
    ensures Before(TrimPrefix("grpc://" + host + ":" + port, "grpc://"), ':') == host
  {
    hide Before;
    var src := "grpc://" + host + ":" + port;
    assert src == "grpc://" + (host + ":" + port) && src[7..] == host + ":" + port;
    assert [':'] == ":" && host + [':'] <= host + ":" + port;
    BeforeExact(host + ":" + port, ':', host);
  }

  lemma ContainsSuffix(s: string, a: string, b: string)
    requires Contains(s, a + b)
    ensures Contains(s, b)
  {
    var i :| 0 <= i <= |s| && a + b <= s[i..];
    assert s[i + |a|..] == s[i..][|a|..];
    assert b == (a + b)[|a|..];
    assert b <= s[i + |a|..];
  }

  // What each input leaves alone.

  /** Routes change with RDS and plugin updates only, upstreams with CDS and EDS only, plugins when they are set. */
  lemma Frames(env: Env, st: State, input: Input)
    ensures var st' := Step(env, st, input).state;
            && (!input.Rds? && !input.UpdateRoutesPlugin? ==> st'.routes == st.routes)
            && (!input.Cds? && !input.Eds? ==> st'.upstreams == st.upstreams)
            && (!input.Cds? ==> st'.edsRequired == st.edsRequired)
            && st'.plugins == (if input.SetPlugins? then input.plugins else st.plugins)
    ensures input.Lds? || input.UnsupportedType? || input.SetPlugins? ==>
              var o := Step(env, st, input);
              o.batch == [] && o.names == [] && o.edsRequest == None && (o.accepted <==> !input.UnsupportedType?)
  {
  }
}
