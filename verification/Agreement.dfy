/**
 The store that APISIX reads against the provisioner's own state, over every run.
 */
module Agreement {
  import opened GoTypes
  import opened Apisix
  import opened Diff
  import opened Endpoints
  import opened Manifest
  import opened Plugins
  import opened Synchroniser

  ghost predicate OnlyRouteKeys(es: seq<Event>) {
    forall e :: e in es ==> IsRouteKey(e.key)
  }

  ghost predicate OnlyUpstreamKeys(es: seq<Event>) {
    forall e :: e in es ==> IsUpstreamKey(e.key)
  }

  /** A batch does not change a key it has no event for. */
  lemma {:induction false} ReplayElsewhere(marshal: Marshal, s: Store, es: seq<Event>, k: string)
    requires forall e :: e in es ==> e.key != k
    ensures Lookup(Replay(marshal, s, es), k) == Lookup(s, k)
  {
    if es != [] {
      InitLast(es);
      ReplayElsewhere(marshal, s, Init(es), k);
    }
  }

  lemma {:induction false} BatchKeys(t: EventType, xs: seq<Object>, e: Event)
    requires e in Batch(t, xs)
    ensures exists x :: x in xs && e.key == Key(x)
  {
    InitLast(xs);
    if e in Batch(t, Init(xs)) {
      BatchKeys(t, Init(xs), e);
    } else {
      assert e.key == Key(Last(xs));
    }
  }

  /** The events of a diff carry keys of the two lists. */
  lemma DiffKeys(marshal: Marshal, xs: seq<Object>, ys: seq<Object>, e: Event)
    requires e in DiffEvents(marshal, xs, ys)
    ensures exists x :: (x in xs || x in ys) && e.key == Key(x)
  {
    if e in Batch(EventAdd, Fresh(xs, ys)) {
      BatchKeys(EventAdd, Fresh(xs, ys), e);
      var x :| x in Fresh(xs, ys) && e.key == Key(x);
      FreshMember(xs, ys, x);
    } else if e in Batch(EventDelete, Fresh(ys, xs)) {
      BatchKeys(EventDelete, Fresh(ys, xs), e);
      var x :| x in Fresh(ys, xs) && e.key == Key(x);
      FreshMember(ys, xs, x);
    } else {
      BatchKeys(EventUpdate, Updated(marshal, xs, ys), e);
      var x :| x in Updated(marshal, xs, ys) && e.key == Key(x);
      UpdatedMember(marshal, xs, ys, x);
    }
  }

  lemma RouteDiffKeys(marshal: Marshal, xs: seq<Route>, ys: seq<Route>)
    ensures OnlyRouteKeys(DiffEvents(marshal, xs, ys))
  {
    forall e | e in DiffEvents(marshal, xs, ys) ensures IsRouteKey(e.key) {
      DiffKeys(marshal, xs, ys, e);
      var x :| (x in xs || x in ys) && e.key == Key(x);
      KeyInjective(x, x);
    }
  }

  lemma UpstreamDiffKeys(marshal: Marshal, xs: seq<Upstream>, ys: seq<Upstream>)
    ensures OnlyUpstreamKeys(DiffEvents(marshal, xs, ys))
  {
    forall e | e in DiffEvents(marshal, xs, ys) ensures IsUpstreamKey(e.key) {
      DiffKeys(marshal, xs, ys, e);
      var x :| (x in xs || x in ys) && e.key == Key(x);
      KeyInjective(x, x);
    }
  }

  lemma UpstreamBatchKeys(t: EventType, xs: seq<Upstream>)
    ensures OnlyUpstreamKeys(Batch(t, xs))
  {
    forall e | e in Batch(t, xs) ensures IsUpstreamKey(e.key) {
      BatchKeys(t, xs, e);
      var x :| x in xs && e.key == Key(x);
      KeyInjective(x, x);
    }
  }

  /** The `/routes/` part of the store is exactly the last-wins view of the list. */
  ghost predicate RoutesShown(marshal: Marshal, s: Store, routes: seq<Route>) {
    forall k :: IsRouteKey(k) ==> Lookup(s, k) == Lookup(View(marshal, routes), k)
  }

  lemma RouteSwap(marshal: Marshal, s: Store, xs: seq<Route>, ys: seq<Route>)
    requires Total(marshal) && RoutesShown(marshal, s, xs)
    ensures RoutesShown(marshal, Replay(marshal, s, DiffEvents(marshal, xs, ys)), ys)
  {
    forall k | k in View(marshal, xs) ensures k in s && s[k] == View(marshal, xs)[k] {
      ViewKeys(marshal, xs, k);
      var x :| x in xs && Key(x) == k;
      KeyInjective(x, x);
      assert Lookup(s, k) == Lookup(View(marshal, xs), k);
    }
    PatchSound(marshal, "/routes/", xs, ys, s);
    var s' := (s - View(marshal, xs).Keys) + View(marshal, ys);
    forall k | IsRouteKey(k) ensures Lookup(s', k) == Lookup(View(marshal, ys), k) {
      assert Lookup(s, k) == Lookup(View(marshal, xs), k);
    }
  }

  lemma RoutesUntouched(marshal: Marshal, s: Store, routes: seq<Route>, es: seq<Event>)
    requires RoutesShown(marshal, s, routes) && OnlyUpstreamKeys(es)
    ensures RoutesShown(marshal, Replay(marshal, s, es), routes)
  {
    forall k | IsRouteKey(k) ensures Lookup(Replay(marshal, s, es), k) == Lookup(s, k) {
      FamiliesDisjoint(k);
      ReplayElsewhere(marshal, s, es, k);
    }
  }

  /** Every upstream is filed under its own name, with the id generated from it. */
  ghost predicate Filed(env: Env, ups: map<string, Upstream>) {
    forall n :: n in ups ==> ups[n].name == n && ups[n].id == env.genId(n)
  }

  ghost predicate InjectiveOn(f: string -> string, names: set<string>) {
    forall a, b :: a in names && b in names && f(a) == f(b) ==> a == b
  }

  function UpstreamKey(env: Env, name: string): string {
    "/upstreams/" + env.genId(name)
  }

  /** Every upstream that has nodes is in the store with exactly its text. */
  ghost predicate UpstreamsShown(env: Env, s: Store, ups: map<string, Upstream>) {
    forall n :: n in ups && HasNodes(ups[n]) ==> Lookup(s, UpstreamKey(env, n)) == Some(Text(env.marshal, ups[n]))
  }

  lemma UpstreamKeyInjective(env: Env, names: set<string>, a: string, b: string)
    requires InjectiveOn(env.genId, names) && a in names && b in names
    ensures UpstreamKey(env, a) == UpstreamKey(env, b) <==> a == b
    ensures IsUpstreamKey(UpstreamKey(env, a))
  {
    PrefixInjective("/upstreams/", env.genId(a), env.genId(b));
  }

  lemma {:induction false} NodedMember(ups: map<string, Upstream>, order: seq<string>, u: Upstream)
    requires u in Noded(ups, order)
    ensures exists n :: n in order && n in ups && HasNodes(ups[n]) && u == ups[n]
  {
    InitLast(order);
    if u in Noded(ups, Init(order)) {
      NodedMember(ups, Init(order), u);
    }
  }

  /** The names a CDS response mentions. */
  ghost function ClusterNames(clusters: seq<Option<Cluster>>): set<string> {
    set c | c in clusters && c.Some? :: c.value.name
  }

  /** What a CDS response leaves: filed upstreams under listed names, a manifest of listed names with nodes. */
  lemma {:induction false} CdsFiled(env: Env, before: map<string, Upstream>, clusters: seq<Option<Cluster>>)
    requires Filed(env, before)
    ensures var r := CdsAll(env, before, clusters);
            && Filed(env, r.upstreams) && r.upstreams.Keys <= ClusterNames(clusters)
            && forall u :: u in r.manifest ==> HasNodes(u) && u.name in r.upstreams && u.id == env.genId(u.name)
  {
    hide IgnoreEds, TranslateCluster, CdsCluster, Nodes;
    if clusters != [] {
      InitLast(clusters);
      CdsFiled(env, before, Init(clusters));
      assert ClusterNames(Init(clusters)) <= ClusterNames(clusters);
      assert Last(clusters).Some? ==> Last(clusters).value.name in ClusterNames(clusters);
      CdsClusterFiled(env, before, CdsAll(env, before, Init(clusters)), Last(clusters));
    }
  }

  lemma CdsClusterFiled(env: Env, before: map<string, Upstream>, r: CdsResult, cluster: Option<Cluster>)
    requires Filed(env, before) && Filed(env, r.upstreams)
    requires forall u :: u in r.manifest ==> HasNodes(u) && u.name in r.upstreams && u.id == env.genId(u.name)
    ensures var r' := CdsCluster(env, before, r, cluster);
            && Filed(env, r'.upstreams)
            && r'.upstreams.Keys <= r.upstreams.Keys + (if cluster.Some? then {cluster.value.name} else {})
            && forall u :: u in r'.manifest ==> HasNodes(u) && u.name in r'.upstreams && u.id == env.genId(u.name)
  {
    hide IgnoreEds, TranslateCluster, Nodes;
  }

  lemma ViewPush(marshal: Marshal, xs: seq<Object>, x: Object, k: string)
    ensures Lookup(View(marshal, xs + [x]), k) ==
            if k == Key(x) then Some(Text(marshal, x)) else Lookup(View(marshal, xs), k)
  {
    assert Init(xs + [x]) == xs && Last(xs + [x]) == x;
  }

  /** The manifest's last word on an upstream that has nodes is that upstream, repeated names or not. */
  lemma {:induction false} CdsLastWins(env: Env, names: set<string>, before: map<string, Upstream>,
                                       clusters: seq<Option<Cluster>>, n: string)
    requires Filed(env, before) && InjectiveOn(env.genId, names) && ClusterNames(clusters) <= names
    requires var r := CdsAll(env, before, clusters); n in r.upstreams && HasNodes(r.upstreams[n])
    ensures var r := CdsAll(env, before, clusters);
            Lookup(View(env.marshal, r.manifest), UpstreamKey(env, n)) == Some(Text(env.marshal, r.upstreams[n]))
  {
    hide IgnoreEds, TranslateCluster, Nodes, View, LbType;
    InitLast(clusters);
    var r := CdsAll(env, before, Init(clusters));
    var cluster := Last(clusters);
    assert ClusterNames(Init(clusters)) <= ClusterNames(clusters);
    CdsFiled(env, before, clusters);
    if cluster.Some? && TranslateCluster(env.genId, cluster.value).Ok? {
      var c, ups := cluster.value, TranslateCluster(env.genId, cluster.value).value;
      assert c.name in ClusterNames(clusters);
      UpstreamKeyInjective(env, names, n, c.name);
      if n != c.name {
        CdsLastWins(env, names, before, Init(clusters), n);
      }
      var entry := ManifestEntry(before, c, ups);
      if entry != [] {
        assert entry == [entry[0]] && Key(entry[0]) == UpstreamKey(env, c.name);
        ViewPush(env.marshal, r.manifest, entry[0], UpstreamKey(env, n));
      } else {
        assert r.manifest + entry == r.manifest;
      }
    } else {
      CdsLastWins(env, names, before, Init(clusters), n);
    }
  }

  /** The store's view of the old manifest is part of the store. */
  lemma NodedShown(env: Env, s: Store, ups: map<string, Upstream>, order: seq<string>)
    requires Filed(env, ups) && UpstreamsShown(env, s, ups)
    ensures forall k :: k in View(env.marshal, Noded(ups, order)) ==>
                          k in s && s[k] == View(env.marshal, Noded(ups, order))[k]
  {
    forall k | k in View(env.marshal, Noded(ups, order))
      ensures Lookup(s, k) == Some(View(env.marshal, Noded(ups, order))[k])
    {
      ViewShown(env, s, ups, order, k);
    }
  }

  lemma {:induction false} ViewShown(env: Env, s: Store, ups: map<string, Upstream>, order: seq<string>, k: string)
    requires Filed(env, ups) && UpstreamsShown(env, s, ups) && k in View(env.marshal, Noded(ups, order))
    ensures Lookup(s, k) == Some(View(env.marshal, Noded(ups, order))[k])
  {
    if order != [] {
      var n := Last(order);
      if n in ups && HasNodes(ups[n]) {
        var xs := Noded(ups, Init(order));
        ViewPush(env.marshal, xs, ups[n], k);
        assert Key(ups[n]) == UpstreamKey(env, n);
        if k != Key(ups[n]) {
          ViewShown(env, s, ups, Init(order), k);
        }
      } else {
        assert Noded(ups, order) == Noded(ups, Init(order));
        ViewShown(env, s, ups, Init(order), k);
      }
    }
  }

  /** What a CDS batch does to the store, in one equation. */
  lemma CdsPatch(env: Env, s: Store, ups: map<string, Upstream>, clusters: seq<Option<Cluster>>, order: seq<string>)
    requires Total(env.marshal) && Filed(env, ups) && UpstreamsShown(env, s, ups)
    ensures var r := CdsAll(env, ups, clusters);
            var old', new' := Noded(ups, order), r.manifest;
            var batch := ManifestDiff(env.marshal, Manifest(Nil, FromNil(old')), Manifest(Nil, FromNil(new')));
            && batch == DiffEvents(env.marshal, old', new')
            && Replay(env.marshal, s, batch) == (s - View(env.marshal, old').Keys) + View(env.marshal, new')
  {
    hide CdsAll, Noded, View, Replay, DiffEvents, ManifestDiff;
    var r := CdsAll(env, ups, clusters);
    CdsFiled(env, ups, clusters);
    UpstreamsOnly(env.marshal, FromNil(Noded(ups, order)), FromNil(r.manifest));
    NodedShown(env, s, ups, order);
    PatchSound(env.marshal, "/upstreams/", Noded(ups, order), r.manifest, s);
  }

  lemma CdsKeepsShown(env: Env, names: set<string>, s: Store, ups: map<string, Upstream>,
                      clusters: seq<Option<Cluster>>, order: seq<string>)
    requires Total(env.marshal) && InjectiveOn(env.genId, names) && ClusterNames(clusters) <= names
    requires Filed(env, ups) && UpstreamsShown(env, s, ups)
    ensures var r := CdsAll(env, ups, clusters);
            UpstreamsShown(env, (s - View(env.marshal, Noded(ups, order)).Keys) + View(env.marshal, r.manifest),
                           r.upstreams)
  {
    var r := CdsAll(env, ups, clusters);
    forall n | n in r.upstreams && HasNodes(r.upstreams[n])
      ensures Lookup(View(env.marshal, r.manifest), UpstreamKey(env, n)) == Some(Text(env.marshal, r.upstreams[n]))
    {
      CdsLastWins(env, names, ups, clusters, n);
    }
  }

  lemma {:induction false} EdsFiled(env: Env, ups: map<string, Upstream>, assignments: seq<Option<LoadAssignment>>)
    requires Filed(env, ups)
    ensures var r := EdsAll(env, ups, assignments);
            && Filed(env, r.upstreams) && r.upstreams.Keys == ups.Keys
            && forall u :: u in r.manifest ==> u.name in ups && u.id == env.genId(u.name)
  {
    hide IgnoreEds, Assignment;
    if assignments != [] {
      EdsFiled(env, ups, Init(assignments));
    }
  }

  lemma {:induction false} EdsKeepsShown(env: Env, names: set<string>, s: Store, ups: map<string, Upstream>,
                                         assignments: seq<Option<LoadAssignment>>)
    requires Total(env.marshal) && InjectiveOn(env.genId, names) && ups.Keys <= names
    requires Filed(env, ups) && UpstreamsShown(env, s, ups)
    ensures var r := EdsAll(env, ups, assignments);
            UpstreamsShown(env, s + View(env.marshal, r.manifest), r.upstreams)
  {
    hide EdsAssignment, UpstreamsShown;
    if assignments == [] {
      assert s + View(env.marshal, []) == s;
    } else {
      EdsKeepsShown(env, names, s, ups, Init(assignments));
      EdsFiled(env, ups, Init(assignments));
      EdsOneShown(env, names, s, EdsAll(env, ups, Init(assignments)), Last(assignments));
    }
  }

  lemma EdsOneShown(env: Env, names: set<string>, s: Store, r: EdsResult, assignment: Option<LoadAssignment>)
    requires Total(env.marshal) && InjectiveOn(env.genId, names) && r.upstreams.Keys <= names
    requires Filed(env, r.upstreams) && UpstreamsShown(env, s + View(env.marshal, r.manifest), r.upstreams)
    ensures var r' := EdsAssignment(env, r, assignment);
            UpstreamsShown(env, s + View(env.marshal, r'.manifest), r'.upstreams)
  {
    hide IgnoreEds, Assignment, UpstreamsShown, View;
    if assignment.Some? {
      var cla := assignment.value;
      if cla.clusterName in r.upstreams && Assignment(cla.localities).Ok? {
        assert env.marshal(r.upstreams[cla.clusterName]).Some?;
        var u := r.upstreams[cla.clusterName].(nodes := Assignment(cla.localities).value);
        EdsPush(env, names, s, r.upstreams, r.manifest, u);
      }
    }
  }

  lemma EdsPush(env: Env, names: set<string>, s: Store, ups: map<string, Upstream>, manifest: seq<Upstream>,
                u: Upstream)
    requires InjectiveOn(env.genId, names) && ups.Keys <= names && u.name in ups && u.id == env.genId(u.name)
    requires UpstreamsShown(env, s + View(env.marshal, manifest), ups)
    ensures UpstreamsShown(env, s + View(env.marshal, manifest + [u]), ups[u.name := u])
  {
    hide View;
    var s', ups' := s + View(env.marshal, manifest + [u]), ups[u.name := u];
    assert Key(u) == UpstreamKey(env, u.name);
    forall n | n in ups' && HasNodes(ups'[n])
      ensures Lookup(s', UpstreamKey(env, n)) == Some(Text(env.marshal, ups'[n]))
    {
      ViewPush(env.marshal, manifest, u, UpstreamKey(env, n));
      UpstreamKeyInjective(env, names, n, u.name);
    }
  }

  /** The cluster names that occur in a run. */
  ghost function NamesInPlay(inputs: seq<Input>): set<string> {
    if inputs == [] then {}
    else NamesInPlay(Init(inputs)) + if Last(inputs).Cds? then ClusterNames(Last(inputs).clusters) else {}
  }

  /** The invariant of the whole system. */
  ghost predicate Synced(env: Env, names: set<string>, sys: System) {
    && RoutesShown(env.marshal, sys.store, sys.state.routes.Elems())
    && Filed(env, sys.state.upstreams) && sys.state.upstreams.Keys <= names
    && UpstreamsShown(env, sys.store, sys.state.upstreams)
  }

  lemma UpstreamsUntouched(env: Env, s: Store, ups: map<string, Upstream>, es: seq<Event>)
    requires UpstreamsShown(env, s, ups) && OnlyRouteKeys(es)
    ensures UpstreamsShown(env, Replay(env.marshal, s, es), ups)
  {
    forall n | n in ups && HasNodes(ups[n])
      ensures Lookup(Replay(env.marshal, s, es), UpstreamKey(env, n)) == Lookup(s, UpstreamKey(env, n))
    {
      assert IsUpstreamKey(UpstreamKey(env, n));
      forall e | e in es ensures e.key != UpstreamKey(env, n) { FamiliesDisjoint(e.key); }
      ReplayElsewhere(env.marshal, s, es, UpstreamKey(env, n));
    }
  }

  /** A swap of the route list, by an RDS response or a plugin update. */
  lemma RouteStep(env: Env, names: set<string>, sys: System, routes: Slice<Route>)
    requires Total(env.marshal) && Synced(env, names, sys)
    ensures var batch := ManifestDiff(env.marshal, Manifest(sys.state.routes, Nil), Manifest(routes, Nil));
            && OnlyRouteKeys(batch)
            && Synced(env, names, System(sys.state.(routes := routes), Replay(env.marshal, sys.store, batch)))
  {
    var xs, ys := sys.state.routes.Elems(), routes.Elems();
    RoutesOnly(env.marshal, sys.state.routes, routes);
    RouteDiffKeys(env.marshal, xs, ys);
    RouteSwap(env.marshal, sys.store, xs, ys);
    UpstreamsUntouched(env, sys.store, sys.state.upstreams, DiffEvents(env.marshal, xs, ys));
  }

  lemma CdsStep(env: Env, names: set<string>, sys: System, clusters: seq<Option<Cluster>>, order: seq<string>)
    requires Total(env.marshal) && InjectiveOn(env.genId, names) && ClusterNames(clusters) <= names
    requires Synced(env, names, sys)
    ensures var o := Step(env, sys.state, Cds(clusters, order));
            && OnlyUpstreamKeys(o.batch)
            && Synced(env, names, System(o.state, Replay(env.marshal, sys.store, o.batch)))
  {
    var ups := sys.state.upstreams;
    var r, old' := CdsAll(env, ups, clusters), Noded(ups, order);
    CdsFiled(env, ups, clusters);
    CdsPatch(env, sys.store, ups, clusters, order);
    CdsKeepsShown(env, names, sys.store, ups, clusters, order);
    UpstreamDiffKeys(env.marshal, old', r.manifest);
    RoutesUntouched(env.marshal, sys.store, sys.state.routes.Elems(), DiffEvents(env.marshal, old', r.manifest));
  }

  lemma EdsStep(env: Env, names: set<string>, sys: System, assignments: seq<Option<LoadAssignment>>)
    requires Total(env.marshal) && InjectiveOn(env.genId, names) && Synced(env, names, sys)
    ensures var o := Step(env, sys.state, Input.Eds(assignments));
            && OnlyUpstreamKeys(o.batch)
            && Synced(env, names, System(o.state, Replay(env.marshal, sys.store, o.batch)))
  {
    var ups := sys.state.upstreams;
    var r := EdsAll(env, ups, assignments);
    EdsFiled(env, ups, assignments);
    EdsKeepsShown(env, names, sys.store, ups, assignments);
    ReplayPuts(env.marshal, sys.store, EventUpdate, r.manifest);
    UpstreamBatchKeys(EventUpdate, r.manifest);
    RoutesUntouched(env.marshal, sys.store, sys.state.routes.Elems(), Batch(EventUpdate, r.manifest));
  }

  /** Every step keeps the invariant, and touches one family of keys only. */
  lemma StepKeepsSynced(env: Env, names: set<string>, sys: System, input: Input)
    requires Total(env.marshal) && InjectiveOn(env.genId, names) && Synced(env, names, sys)
    requires input.Cds? ==> ClusterNames(input.clusters) <= names
    ensures var o := Step(env, sys.state, input);
            && Synced(env, names, System(o.state, Replay(env.marshal, sys.store, o.batch)))
            && (if input.Cds? || input.Eds? then OnlyUpstreamKeys(o.batch) else OnlyRouteKeys(o.batch))
  {
    hide AcceptedRoutes, PatchRoutes, ManifestDiff, CdsAll, EdsAll, Noded, Batch;
    match input {
      case Rds(rcs, order) => RouteStep(env, names, sys, FromNil(AcceptedRoutes(env, sys.state, order, rcs)));
      case Cds(clusters, order) => CdsStep(env, names, sys, clusters, order);
      case Eds(assignments) => EdsStep(env, names, sys, assignments);
      case UpdateRoutesPlugin(order) =>
        RouteStep(env, names, sys, FromNil(PatchRoutes(sys.state.routes.Elems(), sys.state.plugins, order)));
      case _ =>
    }
  }

  /**
   The main theorem. Over every run from the empty state, with batches replayed in the order
   of the state swaps: the `/routes/` part of the store is exactly the last-wins view of the
   provisioner's routes; every upstream is filed under its own name with the id generated
   from it; and every upstream that has nodes is in the store with exactly its text, even
   when CDS responses repeat cluster names.
   */
  lemma {:induction false} RunSynced(env: Env, inputs: seq<Input>, names: set<string>)
    requires Total(env.marshal) && InjectiveOn(env.genId, names) && NamesInPlay(inputs) <= names
    ensures Synced(env, names, Run(env, inputs))
  {
    hide Step;
    if inputs != [] {
      var sys := Run(env, Init(inputs));
      RunSynced(env, Init(inputs), names);
      StepKeepsSynced(env, names, sys, Last(inputs));
    }
  }
}
