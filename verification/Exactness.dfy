/**
 When the store's upstreams are exactly the provisioner's upstreams that have nodes. A CDS
 response alone may break that, because an EDS cluster is replaced by one without nodes while
 the store keeps showing the old one; the EDS response that follows can restore it.
 */
module Exactness {
  import opened GoTypes
  import opened Apisix
  import opened Diff
  import opened Endpoints
  import opened Manifest
  import opened Strings
  import opened Agreement
  import opened Synchroniser

  /** Every upstream key of the store belongs to an upstream of `ups` that has nodes, or to one of the `held` names. */
  ghost predicate NothingElse(env: Env, s: Store, ups: map<string, Upstream>, held: set<string>) {
    forall k :: k in s && IsUpstreamKey(k) ==>
      exists n :: n in ups && k == UpstreamKey(env, n) && (HasNodes(ups[n]) || n in held)
  }

  ghost predicate Exact(env: Env, s: Store, ups: map<string, Upstream>) {
    UpstreamsShown(env, s, ups) && NothingElse(env, s, ups, {})
  }

  /** The successfully decoded clusters have distinct names. */
  ghost predicate DistinctNames(clusters: seq<Option<Cluster>>) {
    forall i, j :: 0 <= i < j < |clusters| && clusters[i].Some? && clusters[j].Some? ==>
      clusters[i].value.name != clusters[j].value.name
  }

  /** The EDS clusters of a response whose old upstream has nodes: the store goes on showing that one. */
  ghost predicate Awaits(ups: map<string, Upstream>, clusters: seq<Option<Cluster>>, n: string) {
    && n in ups && HasNodes(ups[n])
    && exists i :: 0 <= i < |clusters| && clusters[i].Some? && clusters[i].value.name == n &&
                   clusters[i].value.clusterType.Eds?
  }

  /** The last manifest entry of a CDS response for a name. */
  function Entry(env: Env, before: map<string, Upstream>, clusters: seq<Option<Cluster>>, n: string): Option<Upstream> {
    if clusters == [] then None
    else
      var c := Last(clusters);
      if c.Some? && c.value.name == n && TranslateCluster(env.genId, c.value).Ok? &&
         ManifestEntry(before, c.value, TranslateCluster(env.genId, c.value).value) != []
      then Some(ManifestEntry(before, c.value, TranslateCluster(env.genId, c.value).value)[0])
      else Entry(env, before, Init(clusters), n)
  }

  function TextOf(marshal: Marshal, u: Option<Upstream>): Option<string> {
    if u.Some? then Some(Text(marshal, u.value)) else None
  }

  lemma {:induction false} ManifestLookup(env: Env, names: set<string>, before: map<string, Upstream>,
                                          clusters: seq<Option<Cluster>>, n: string)
    requires Filed(env, before) && InjectiveOn(env.genId, names) && ClusterNames(clusters) <= names && n in names
    ensures Lookup(View(env.marshal, CdsAll(env, before, clusters).manifest), UpstreamKey(env, n)) ==
            TextOf(env.marshal, Entry(env, before, clusters, n))
  {
    hide IgnoreEds, TranslateCluster, Nodes;
    if clusters != [] {
      InitLast(clusters);
      var r, cluster := CdsAll(env, before, Init(clusters)), Last(clusters);
      assert ClusterNames(Init(clusters)) <= ClusterNames(clusters);
      ManifestLookup(env, names, before, Init(clusters), n);
      if cluster.Some? && TranslateCluster(env.genId, cluster.value).Ok? {
        var c, ups := cluster.value, TranslateCluster(env.genId, cluster.value).value;
        assert c.name in ClusterNames(clusters);
        UpstreamKeyInjective(env, names, n, c.name);
        var entry := ManifestEntry(before, c, ups);
        if entry != [] {
          assert entry == [entry[0]] && Key(entry[0]) == UpstreamKey(env, c.name);
          ViewPush(env.marshal, r.manifest, entry[0], UpstreamKey(env, n));
        } else {
          assert r.manifest + entry == r.manifest;
        }
      }
    }
  }

  /** The keys of the manifest are keys of listed names. */
  lemma ManifestKeys(env: Env, before: map<string, Upstream>, clusters: seq<Option<Cluster>>, k: string)
    requires Filed(env, before) && k in View(env.marshal, CdsAll(env, before, clusters).manifest)
    ensures exists n :: n in CdsAll(env, before, clusters).upstreams && k == UpstreamKey(env, n)
  {
    hide CdsAll;
    var r := CdsAll(env, before, clusters);
    CdsFiled(env, before, clusters);
    ViewKeys(env.marshal, r.manifest, k);
    var u :| u in r.manifest && Key(u) == k;
    assert UpstreamKey(env, u.name) == k;
  }

  /** With distinct names, what a response does for a cluster depends on that cluster alone. */
  lemma {:induction false} OneCluster(env: Env, before: map<string, Upstream>, clusters: seq<Option<Cluster>>, i: nat)
    requires DistinctNames(clusters) && i < |clusters| && clusters[i].Some?
    requires TranslateCluster(env.genId, clusters[i].value).Ok?
    ensures var c := clusters[i].value;
            var ups := TranslateCluster(env.genId, c).value;
            var r := CdsAll(env, before, clusters);
            && c.name in r.upstreams && r.upstreams[c.name] == ups
            && Entry(env, before, clusters, c.name) ==
               (if ManifestEntry(before, c, ups) == [] then None else Some(ManifestEntry(before, c, ups)[0]))
            && (c.clusterType.Eds? ==> c.name in r.required)
  {
    hide IgnoreEds, TranslateCluster, ManifestEntry, Nodes;
    var c := clusters[i].value;
    if i == |clusters| - 1 {
      NotListed(env, before, Init(clusters), c.name);
    } else {
      OneCluster(env, before, Init(clusters), i);
      assert Init(clusters)[i] == clusters[i];
    }
  }

  lemma {:induction false} NotListed(env: Env, before: map<string, Upstream>, clusters: seq<Option<Cluster>>, n: string)
    requires forall i :: 0 <= i < |clusters| && clusters[i].Some? ==> clusters[i].value.name != n
    ensures n !in CdsAll(env, before, clusters).upstreams && Entry(env, before, clusters, n) == None
  {
    hide IgnoreEds, TranslateCluster, ManifestEntry, Nodes;
    if clusters != [] {
      NotListed(env, before, Init(clusters), n);
    }
  }

  /** An upstream or a manifest entry comes from a listed cluster that was translated. */
  lemma {:induction false} FromCluster(env: Env, before: map<string, Upstream>, clusters: seq<Option<Cluster>>,
                                       n: string) returns (i: nat)
    requires n in CdsAll(env, before, clusters).upstreams
    ensures i < |clusters| && clusters[i].Some? && clusters[i].value.name == n &&
            TranslateCluster(env.genId, clusters[i].value).Ok?
  {
    hide IgnoreEds, TranslateCluster, ManifestEntry, Nodes;
    var c := Last(clusters);
    if c.Some? && c.value.name == n && TranslateCluster(env.genId, c.value).Ok? {
      i := |clusters| - 1;
    } else {
      i := FromCluster(env, before, Init(clusters), n);
    }
  }

  /**
   The shape of a distinct-name response, name by name: the manifest shows the new upstream if
   it has nodes, the old one if the cluster awaits EDS, and nothing otherwise.
   */
  lemma EntryShape(env: Env, before: map<string, Upstream>, clusters: seq<Option<Cluster>>, n: string)
    requires DistinctNames(clusters) && n in CdsAll(env, before, clusters).upstreams
    ensures var ups := CdsAll(env, before, clusters).upstreams;
            && Entry(env, before, clusters, n) ==
               (if Awaits(before, clusters, n) then Some(before[n])
                else if HasNodes(ups[n]) then Some(ups[n]) else None)
            && (Awaits(before, clusters, n) ==> !HasNodes(ups[n]))
  {
    hide CdsAll, Entry, IgnoreEds, Nodes;
    var i := FromCluster(env, before, clusters, n);
    OneCluster(env, before, clusters, i);
    var c := clusters[i].value;
    assert forall j :: 0 <= j < |clusters| && clusters[j].Some? && clusters[j].value.name == n ==> j == i;
  }

  lemma {:induction false} NodedLookup(env: Env, names: set<string>, ups: map<string, Upstream>, order: seq<string>,
                                       n: string)
    requires Filed(env, ups) && InjectiveOn(env.genId, names) && ups.Keys <= names && n in names
    ensures Lookup(View(env.marshal, Noded(ups, order)), UpstreamKey(env, n)) ==
            if n in order && n in ups && HasNodes(ups[n]) then Some(Text(env.marshal, ups[n])) else None
  {
    if order != [] {
      InitLast(order);
      NodedLookup(env, names, ups, Init(order), n);
      var m := Last(order);
      if m in ups && HasNodes(ups[m]) {
        UpstreamKeyInjective(env, names, n, m);
        ViewPush(env.marshal, Noded(ups, Init(order)), ups[m], UpstreamKey(env, n));
      } else {
        assert Noded(ups, order) == Noded(ups, Init(order));
      }
    }
  }

  lemma OrderHas(order: seq<string>, names: set<string>, n: string)
    requires Elements(order) == names
    ensures n in order <==> n in names
  {
    assert n in Elements(order) <==> n in order;
  }

  /** The store after a CDS response, from exact agreement: new upstreams with nodes, and the ones that await EDS. */
  lemma CdsOutcome(env: Env, names: set<string>, s: Store, ups: map<string, Upstream>,
                   clusters: seq<Option<Cluster>>, order: seq<string>, k: string)
    requires Total(env.marshal) && InjectiveOn(env.genId, names) && ClusterNames(clusters) <= names && ups.Keys <= names
    requires Filed(env, ups) && Exact(env, s, ups) && DistinctNames(clusters) && Elements(order) == ups.Keys
    requires IsUpstreamKey(k)
    ensures var r := CdsAll(env, ups, clusters);
            var s' := (s - View(env.marshal, Noded(ups, order)).Keys) + View(env.marshal, r.manifest);
            k in s' <==>
            exists n :: n in r.upstreams && k == UpstreamKey(env, n) &&
                        (HasNodes(r.upstreams[n]) || Awaits(ups, clusters, n))
  {
    hide CdsAll, Noded, View, Awaits;
    var r := CdsAll(env, ups, clusters);
    var v := View(env.marshal, r.manifest);
    CdsFiled(env, ups, clusters);
    if k in s {
      var n :| n in ups && k == UpstreamKey(env, n) && HasNodes(ups[n]);
      NodedLookup(env, names, ups, order, n);
      OrderHas(order, ups.Keys, n);
    }
    if k in v {
      ManifestKeys(env, ups, clusters, k);
      var n :| n in r.upstreams && k == UpstreamKey(env, n);
      ManifestLookup(env, names, ups, clusters, n);
      EntryShape(env, ups, clusters, n);
    }
    forall n | n in r.upstreams && k == UpstreamKey(env, n) && (HasNodes(r.upstreams[n]) || Awaits(ups, clusters, n))
      ensures k in v
    {
      ManifestLookup(env, names, ups, clusters, n);
      EntryShape(env, ups, clusters, n);
    }
  }

  lemma AwaitsListed(env: Env, ups: map<string, Upstream>, clusters: seq<Option<Cluster>>, n: string)
    requires DistinctNames(clusters) && Awaits(ups, clusters, n)
    ensures n in CdsAll(env, ups, clusters).upstreams
  {
    hide CdsAll, Entry, IgnoreEds, Nodes;
    var i :| 0 <= i < |clusters| && clusters[i].Some? && clusters[i].value.name == n &&
             clusters[i].value.clusterType.Eds?;
    OneCluster(env, ups, clusters, i);
  }

  ghost function Held(env: Env, ups: map<string, Upstream>, clusters: seq<Option<Cluster>>): set<string> {
    set n | n in CdsAll(env, ups, clusters).upstreams && Awaits(ups, clusters, n)
  }

  /** What the next EDS response starts from: everything in the store is accounted for, the held keys included. */
  ghost predicate Pending(env: Env, s: Store, ups: map<string, Upstream>, held: set<string>) {
    && Filed(env, ups) && UpstreamsShown(env, s, ups) && NothingElse(env, s, ups, held)
    && forall n :: n in held ==> n in ups && !HasNodes(ups[n]) && UpstreamKey(env, n) in s
  }

  lemma CdsPending(env: Env, names: set<string>, sys: System, clusters: seq<Option<Cluster>>, order: seq<string>)
    requires Total(env.marshal) && InjectiveOn(env.genId, names) && ClusterNames(clusters) <= names
    requires Synced(env, names, sys)
    requires Exact(env, sys.store, sys.state.upstreams) && DistinctNames(clusters)
    requires Lists(order, sys.state.upstreams.Keys)
    ensures var o := Step(env, sys.state, Cds(clusters, order));
            Pending(env, Replay(env.marshal, sys.store, o.batch), o.state.upstreams,
                    Held(env, sys.state.upstreams, clusters))
  {
    hide CdsAll, Noded, View, Awaits, ManifestDiff, Replay, Exact, NothingElse, UpstreamsShown, Held;
    var ups, s := sys.state.upstreams, sys.store;
    CdsFiled(env, ups, clusters);
    CdsPatch(env, s, ups, clusters, order);
    CdsKeepsShown(env, names, s, ups, clusters, order);
    CdsNothingElse(env, names, s, ups, clusters, order);
  }

  lemma CdsNothingElse(env: Env, names: set<string>, s: Store, ups: map<string, Upstream>,
                       clusters: seq<Option<Cluster>>, order: seq<string>)
    requires Total(env.marshal) && InjectiveOn(env.genId, names) && ClusterNames(clusters) <= names && ups.Keys <= names
    requires Filed(env, ups) && Exact(env, s, ups) && DistinctNames(clusters) && Elements(order) == ups.Keys
    ensures var r := CdsAll(env, ups, clusters);
            var s' := (s - View(env.marshal, Noded(ups, order)).Keys) + View(env.marshal, r.manifest);
            var held := Held(env, ups, clusters);
            && NothingElse(env, s', r.upstreams, held)
            && forall n :: n in held ==> n in r.upstreams && !HasNodes(r.upstreams[n]) && UpstreamKey(env, n) in s'
  {
    hide CdsAll, Noded, View, Awaits, Exact;
    var r, held := CdsAll(env, ups, clusters), Held(env, ups, clusters);
    var s' := (s - View(env.marshal, Noded(ups, order)).Keys) + View(env.marshal, r.manifest);
    forall k | k in s' && IsUpstreamKey(k)
      ensures exists n :: n in r.upstreams && k == UpstreamKey(env, n) && (HasNodes(r.upstreams[n]) || n in held)
    {
      CdsOutcome(env, names, s, ups, clusters, order, k);
    }
    forall n | n in held ensures !HasNodes(r.upstreams[n]) && UpstreamKey(env, n) in s' {
      CdsOutcome(env, names, s, ups, clusters, order, UpstreamKey(env, n));
      EntryShape(env, ups, clusters, n);
    }
  }

  /** A pending store is exact when, and only when, nothing is held. */
  lemma PendingExact(env: Env, names: set<string>, s: Store, ups: map<string, Upstream>, held: set<string>)
    requires InjectiveOn(env.genId, names) && ups.Keys <= names && Pending(env, s, ups, held)
    ensures Exact(env, s, ups) <==> held == {}
  {
    if Exact(env, s, ups) && held != {} {
      var n :| n in held;
      UpstreamKeyInjective(env, names, n, n);
      var m :| m in ups && UpstreamKey(env, n) == UpstreamKey(env, m) && HasNodes(ups[m]);
      UpstreamKeyInjective(env, names, n, m);
    }
  }

  /**
   From exact agreement, a CDS response with distinct names keeps it if and only if no EDS
   cluster it lists had nodes.
   */
  lemma CdsExactIff(env: Env, names: set<string>, sys: System, clusters: seq<Option<Cluster>>, order: seq<string>)
    requires Total(env.marshal) && InjectiveOn(env.genId, names) && ClusterNames(clusters) <= names
    requires Synced(env, names, sys)
    requires Exact(env, sys.store, sys.state.upstreams) && DistinctNames(clusters)
    requires Lists(order, sys.state.upstreams.Keys)
    ensures var o := Step(env, sys.state, Cds(clusters, order));
            Exact(env, Replay(env.marshal, sys.store, o.batch), o.state.upstreams) <==>
            forall n :: !Awaits(sys.state.upstreams, clusters, n)
  {
    hide CdsAll, Noded, View, Awaits, ManifestDiff, Replay, Exact, Pending;
    var ups := sys.state.upstreams;
    var o := Step(env, sys.state, Cds(clusters, order));
    CdsPending(env, names, sys, clusters, order);
    CdsFiled(env, ups, clusters);
    PendingExact(env, names, Replay(env.marshal, sys.store, o.batch), o.state.upstreams, Held(env, ups, clusters));
    forall n | Awaits(ups, clusters, n) ensures n in Held(env, ups, clusters) {
      AwaitsListed(env, ups, clusters, n);
    }
  }

  /** The nodes of the last assignment of a response that counts for a cluster. */
  function LastNodes(assignments: seq<Option<LoadAssignment>>, n: string): Option<seq<Node>> {
    if assignments == [] then None
    else
      var a := Last(assignments);
      if CountsFor(a, n) then Some(Nodes(a.value.localities))
      else LastNodes(Init(assignments), n)
  }

  lemma EdsFlatPush(env: Env, names: set<string>, manifest: seq<Upstream>, u: Upstream, n: string)
    requires InjectiveOn(env.genId, names) && n in names && u.name in names && u.id == env.genId(u.name)
    ensures Lookup(View(env.marshal, manifest + [u]), UpstreamKey(env, n)) ==
            if n == u.name then Some(Text(env.marshal, u))
            else Lookup(View(env.marshal, manifest), UpstreamKey(env, n))
  {
    UpstreamKeyInjective(env, names, n, u.name);
    ViewPush(env.marshal, manifest, u, UpstreamKey(env, n));
  }

  /** An assignment counts for a cluster if it names it and has endpoints. */
  predicate CountsFor(a: Option<LoadAssignment>, n: string) {
    a.Some? && a.value.clusterName == n && a.value.localities != []
  }

  lemma EdsOne(env: Env, names: set<string>, r: EdsResult, a: Option<LoadAssignment>, n: string)
    requires Total(env.marshal) && InjectiveOn(env.genId, names)
    requires Filed(env, r.upstreams) && r.upstreams.Keys <= names && n in r.upstreams
    ensures var r' := EdsAssignment(env, r, a);
            && n in r'.upstreams
            && (!CountsFor(a, n) ==> r'.upstreams[n] == r.upstreams[n])
            && (CountsFor(a, n) ==> r'.upstreams[n] == r.upstreams[n].(nodes := Nodes(a.value.localities)))
            && Lookup(View(env.marshal, r'.manifest), UpstreamKey(env, n)) ==
               if CountsFor(a, n) then Some(Text(env.marshal, r'.upstreams[n]))
               else Lookup(View(env.marshal, r.manifest), UpstreamKey(env, n))
  {
    hide IgnoreEds, Nodes, View;
    if a.Some? && a.value.clusterName in r.upstreams && a.value.localities != [] {
      assert env.marshal(r.upstreams[a.value.clusterName]).Some?;
      EdsFlatPush(env, names, r.manifest, r.upstreams[a.value.clusterName].(nodes := Nodes(a.value.localities)), n);
    }
  }

  /**
   What an EDS response does, cluster by cluster: the last assignment with endpoints decides the
   nodes and the text that is announced, and no endpoints changes nothing.
   */
  lemma {:induction false} EdsFlat(env: Env, names: set<string>, ups: map<string, Upstream>,
                                   assignments: seq<Option<LoadAssignment>>, n: string)
    requires Total(env.marshal) && Filed(env, ups) && InjectiveOn(env.genId, names) && ups.Keys <= names && n in ups
    ensures var r, last := EdsAll(env, ups, assignments), LastNodes(assignments, n);
            && n in r.upstreams
            && r.upstreams[n] == (if last.Some? then ups[n].(nodes := last.value) else ups[n])
            && Lookup(View(env.marshal, r.manifest), UpstreamKey(env, n)) ==
               if last.Some? then Some(Text(env.marshal, r.upstreams[n])) else None
  {
    hide EdsAssignment, Nodes;
    if assignments != [] {
      EdsFlat(env, names, ups, Init(assignments), n);
      EdsFiled(env, ups, Init(assignments));
      EdsOne(env, names, EdsAll(env, ups, Init(assignments)), Last(assignments), n);
    }
  }

  /** The response answers for every held cluster, and whatever it answers for ends up with a node. */
  ghost predicate Delivers(ups: map<string, Upstream>, held: set<string>, assignments: seq<Option<LoadAssignment>>) {
    forall n :: n in ups ==>
      && (n in held ==> LastNodes(assignments, n).Some?)
      && (LastNodes(assignments, n).Some? ==> |LastNodes(assignments, n).value| > 0)
  }

  lemma EdsKeys(env: Env, names: set<string>, s: Store, ups: map<string, Upstream>, held: set<string>,
                assignments: seq<Option<LoadAssignment>>, k: string)
    requires Total(env.marshal) && InjectiveOn(env.genId, names) && ups.Keys <= names
    requires Pending(env, s, ups, held) && IsUpstreamKey(k)
    ensures var r := EdsAll(env, ups, assignments);
            k in s + View(env.marshal, r.manifest) ==>
            exists n :: n in ups && k == UpstreamKey(env, n) &&
                        (HasNodes(ups[n]) || n in held || LastNodes(assignments, n).Some?)
  {
    hide EdsAll, View;
    var r := EdsAll(env, ups, assignments);
    if k in View(env.marshal, r.manifest) {
      ViewKeys(env.marshal, r.manifest, k);
      var u :| u in r.manifest && Key(u) == k;
      EdsFiled(env, ups, assignments);
      EdsFlat(env, names, ups, assignments, u.name);
      assert k == UpstreamKey(env, u.name);
    }
  }

  /** From a pending store, an EDS response gives exact agreement if and only if it delivers. */
  lemma EdsExactIff(env: Env, names: set<string>, s: Store, ups: map<string, Upstream>, held: set<string>,
                    assignments: seq<Option<LoadAssignment>>)
    requires Total(env.marshal) && InjectiveOn(env.genId, names) && ups.Keys <= names && Pending(env, s, ups, held)
    ensures var r := EdsAll(env, ups, assignments);
            Exact(env, s + View(env.marshal, r.manifest), r.upstreams) <==> Delivers(ups, held, assignments)
  {
    hide EdsAll, View, LastNodes;
    var r := EdsAll(env, ups, assignments);
    var s' := s + View(env.marshal, r.manifest);
    EdsFiled(env, ups, assignments);
    EdsKeepsShown(env, names, s, ups, assignments);
    forall n | n in ups
      ensures r.upstreams[n] ==
              (if LastNodes(assignments, n).Some? then ups[n].(nodes := LastNodes(assignments, n).value) else ups[n])
      ensures UpstreamKey(env, n) in View(env.marshal, r.manifest) <==> LastNodes(assignments, n).Some?
    {
      EdsFlat(env, names, ups, assignments, n);
    }
    if Exact(env, s', r.upstreams) {
      forall n | n in ups && (n in held || LastNodes(assignments, n).Some?) ensures HasNodes(r.upstreams[n]) {
        UpstreamKeyInjective(env, names, n, n);
        assert UpstreamKey(env, n) in s';
        var m :| m in r.upstreams && UpstreamKey(env, n) == UpstreamKey(env, m) && HasNodes(r.upstreams[m]);
        UpstreamKeyInjective(env, names, n, m);
      }
    }
    if Delivers(ups, held, assignments) {
      forall k | k in s' && IsUpstreamKey(k)
        ensures exists n :: n in r.upstreams && k == UpstreamKey(env, n) && HasNodes(r.upstreams[n])
      {
        EdsKeys(env, names, s, ups, held, assignments, k);
      }
    }
  }

  /**
   A full round. From exact agreement, a CDS response with distinct names and then an EDS
   response restore exact agreement, deletions included, if and only if the EDS response
   answers for every listed EDS cluster that had nodes, and the last counting assignment of
   every known cluster it answers for yields a node.
   */
  lemma RoundRestores(env: Env, names: set<string>, sys: System, clusters: seq<Option<Cluster>>, order: seq<string>,
                      assignments: seq<Option<LoadAssignment>>)
    requires Total(env.marshal) && InjectiveOn(env.genId, names) && ClusterNames(clusters) <= names
    requires Synced(env, names, sys)
    requires Exact(env, sys.store, sys.state.upstreams) && DistinctNames(clusters)
    requires Lists(order, sys.state.upstreams.Keys)
    ensures var o := Step(env, sys.state, Cds(clusters, order));
            var o' := Step(env, o.state, Input.Eds(assignments));
            Exact(env, Replay(env.marshal, Replay(env.marshal, sys.store, o.batch), o'.batch), o'.state.upstreams) <==>
            Delivers(o.state.upstreams, Held(env, sys.state.upstreams, clusters), assignments)
  {
    hide CdsAll, EdsAll, Noded, View, Awaits, ManifestDiff, Replay, Exact, Pending, Held, Delivers, Batch;
    var o := Step(env, sys.state, Cds(clusters, order));
    var s := Replay(env.marshal, sys.store, o.batch);
    CdsPending(env, names, sys, clusters, order);
    CdsFiled(env, sys.state.upstreams, clusters);
    var r := EdsAll(env, o.state.upstreams, assignments);
    ReplayPuts(env.marshal, s, EventUpdate, r.manifest);
    EdsExactIff(env, names, s, o.state.upstreams, Held(env, sys.state.upstreams, clusters), assignments);
  }

  lemma {:induction false} NodedDistinct(env: Env, names: set<string>, ups: map<string, Upstream>, order: seq<string>)
    requires Filed(env, ups) && InjectiveOn(env.genId, names) && ups.Keys <= names
    requires forall i, j :: 0 <= i < j < |order| ==> order[i] != order[j]
    ensures DistinctIds(Noded(ups, order))
  {
    if order != [] {
      var n, xs := Last(order), Noded(ups, Init(order));
      NodedDistinct(env, names, ups, Init(order));
      forall u | u in xs && n in ups ensures u.id != ups[n].id {
        NodedMember(ups, Init(order), u);
        var m :| m in Init(order) && m in ups && HasNodes(ups[m]) && u == ups[m];
      }
    }
  }

  lemma DistinctConcat(xs: seq<Object>, ys: seq<Object>)
    requires DistinctIds(xs) && |ys| <= 1 && forall x, y :: x in xs && y in ys ==> x.id != y.id
    ensures DistinctIds(xs + ys)
  {
  }

  lemma {:induction false} ManifestDistinct(env: Env, names: set<string>, before: map<string, Upstream>,
                                            clusters: seq<Option<Cluster>>)
    requires Filed(env, before) && InjectiveOn(env.genId, names) && ClusterNames(clusters) <= names
    requires DistinctNames(clusters)
    ensures DistinctIds(CdsAll(env, before, clusters).manifest)
  {
    hide IgnoreEds, TranslateCluster, Nodes;
    if clusters != [] {
      InitLast(clusters);
      assert ClusterNames(Init(clusters)) <= ClusterNames(clusters);
      ManifestDistinct(env, names, before, Init(clusters));
      CdsFiled(env, before, Init(clusters));
      var r, c := CdsAll(env, before, Init(clusters)), Last(clusters);
      if c.Some? {
        assert c.value.name in ClusterNames(clusters);
        NotListed(env, before, Init(clusters), c.value.name);
        if TranslateCluster(env.genId, c.value).Ok? {
          var entry := ManifestEntry(before, c.value, TranslateCluster(env.genId, c.value).value);
          assert |entry| <= 1 && forall u :: u in entry ==> u.id == env.genId(c.value.name);
          DistinctConcat(r.manifest, entry);
        }
      }
    }
  }

  /**
   Nodes never vanish while waiting for EDS: a CDS response with distinct names emits no event
   for a cluster it lists as EDS, and asks for it in the EDS request that follows.
   */
  lemma SilentForEds(env: Env, names: set<string>, sys: System, clusters: seq<Option<Cluster>>, order: seq<string>,
                     i: nat)
    requires Total(env.marshal) && InjectiveOn(env.genId, names) && ClusterNames(clusters) <= names
    requires Synced(env, names, sys)
    requires DistinctNames(clusters) && Lists(order, sys.state.upstreams.Keys)
    requires i < |clusters| && clusters[i].Some? && clusters[i].value.clusterType.Eds?
    ensures var o := Step(env, sys.state, Cds(clusters, order));
            && EventCount(o.batch, UpstreamKey(env, clusters[i].value.name)) == 0
            && o.edsRequest.Some? && clusters[i].value.name in o.edsRequest.value
  {
    hide CdsAll, Noded, View, ManifestDiff, Replay, EventCount, IgnoreEds, Entry;
    var ups, c := sys.state.upstreams, clusters[i].value;
    var r, old' := CdsAll(env, ups, clusters), Noded(ups, order);
    assert c.name in ClusterNames(clusters);
    OneCluster(env, ups, clusters, i);
    CdsPatch(env, sys.store, ups, clusters, order);
    NodedDistinct(env, names, ups, order);
    ManifestDistinct(env, names, ups, clusters);
    DiffMinimal(env.marshal, "/upstreams/", old', r.manifest, UpstreamKey(env, c.name));
    NodedLookup(env, names, ups, order, c.name);
    ManifestLookup(env, names, ups, clusters, c.name);
    OrderHas(order, ups.Keys, c.name);
  }

  lemma UpstreamKeyUntouched(marshal: Marshal, s: Store, es: seq<Event>, k: string)
    requires OnlyRouteKeys(es) && IsUpstreamKey(k)
    ensures Lookup(Replay(marshal, s, es), k) == Lookup(s, k)
  {
    forall e | e in es ensures e.key != k { FamiliesDisjoint(e.key); }
    ReplayElsewhere(marshal, s, es, k);
  }

  /**
   A key the provisioner has lost track of is never cleaned up: no step removes it while its
   upstream has no nodes.
   */
  lemma LeakPersists(env: Env, names: set<string>, sys: System, input: Input, n: string)
    requires Total(env.marshal) && InjectiveOn(env.genId, names) && Synced(env, names, sys) && n in names
    requires input.Cds? ==> ClusterNames(input.clusters) <= names
    requires UpstreamKey(env, n) in sys.store && !(n in sys.state.upstreams && HasNodes(sys.state.upstreams[n]))
    ensures UpstreamKey(env, n) in Replay(env.marshal, sys.store, Step(env, sys.state, input).batch)
  {
    hide CdsAll, EdsAll, Noded, View, ManifestDiff, AcceptedRoutes, Batch;
    var k, ups := UpstreamKey(env, n), sys.state.upstreams;
    UpstreamKeyInjective(env, names, n, n);
    match input {
      case Cds(clusters, order) =>
        CdsPatch(env, sys.store, ups, clusters, order);
        NodedLookup(env, names, ups, order, n);
      case Eds(assignments) =>
        ReplayPuts(env.marshal, sys.store, EventUpdate, EdsAll(env, ups, assignments).manifest);
      case _ =>
        StepKeepsSynced(env, names, sys, input);
        UpstreamKeyUntouched(env.marshal, sys.store, Step(env, sys.state, input).batch, k);
    }
  }

  /**
   How agreement is lost for good: a cluster that awaits EDS and is dropped by the next CDS
   response leaves its key behind, although the provisioner no longer knows it.
   */
  lemma DroppedWhileAwaiting(env: Env, names: set<string>, sys: System, clusters: seq<Option<Cluster>>,
                             order: seq<string>,
                             next: seq<Option<Cluster>>, nextOrder: seq<string>, n: string)
    requires Total(env.marshal) && InjectiveOn(env.genId, names) && ClusterNames(clusters) <= names
    requires Synced(env, names, sys)
    requires Exact(env, sys.store, sys.state.upstreams) && DistinctNames(clusters)
    requires Lists(order, sys.state.upstreams.Keys)
    requires ClusterNames(next) <= names && Awaits(sys.state.upstreams, clusters, n) && n !in ClusterNames(next)
    ensures var o := Step(env, sys.state, Cds(clusters, order));
            var o' := Step(env, o.state, Cds(next, nextOrder));
            var s' := Replay(env.marshal, Replay(env.marshal, sys.store, o.batch), o'.batch);
            UpstreamKey(env, n) in s' && n !in o'.state.upstreams && !Exact(env, s', o'.state.upstreams)
  {
    hide CdsAll, Noded, View, ManifestDiff, Replay, Synced, Awaits;
    var o := Step(env, sys.state, Cds(clusters, order));
    var s := Replay(env.marshal, sys.store, o.batch);
    var o' := Step(env, o.state, Cds(next, nextOrder));
    var s' := Replay(env.marshal, s, o'.batch);
    AwaitsListed(env, sys.state.upstreams, clusters, n);
    CdsPending(env, names, sys, clusters, order);
    assert n in Held(env, sys.state.upstreams, clusters);
    StepKeepsSynced(env, names, sys, Cds(clusters, order));
    ListedNames(env, names, System(o.state, s), n);
    LeakPersists(env, names, System(o.state, s), Cds(next, nextOrder), n);
    CdsFiled(env, o.state.upstreams, next);
    if Exact(env, s', o'.state.upstreams) {
      UpstreamKeyInjective(env, names, n, n);
      var m :| m in o'.state.upstreams && UpstreamKey(env, n) == UpstreamKey(env, m);
      UpstreamKeyInjective(env, names, n, m);
    }
  }

  lemma ListedNames(env: Env, names: set<string>, sys: System, n: string)
    requires Synced(env, names, sys) && n in sys.state.upstreams
    ensures n in names && Filed(env, sys.state.upstreams)
  {
  }
}
