/**
 Which upstream keys are in the store after a run. The names behind them are counted up input
 by input, without looking at any event, and that account is compared with what the
 provisioner still knows.
 */
module Accounting {
  import opened GoTypes
  import opened Apisix
  import opened Diff
  import opened Endpoints
  import opened Manifest
  import opened Agreement
  import opened Exactness
  import opened Synchroniser

  ghost function NodedNames(ups: map<string, Upstream>): set<string> {
    set n | n in ups && HasNodes(ups[n])
  }

  /** A listed cluster is shown if it is an EDS cluster that had nodes, or brings nodes of its own. */
  ghost predicate Shows(before: map<string, Upstream>, c: Cluster) {
    if c.clusterType.Eds? then c.name in NodedNames(before)
    else !c.clusterType.CustomType? && Nodes(c.localities) != []
  }

  ghost function CdsShown(before: map<string, Upstream>, clusters: seq<Option<Cluster>>): set<string> {
    set c | c in clusters && c.Some? && Shows(before, c.value) :: c.value.name
  }

  /** What a store shows under the upstream keys: for each name the upstream whose text is there. */
  type Shown = map<string, Upstream>

  /** What a CDS response writes: the last manifest entry of each name that it shows. */
  ghost function CdsWrites(env: Env, before: map<string, Upstream>, clusters: seq<Option<Cluster>>): Shown {
    map n | n in CdsShown(before, clusters) && Entry(env, before, clusters, n).Some? ::
      Entry(env, before, clusters, n).value
  }

  /** What an EDS response writes: the known clusters that it has endpoints for, nodes or not. */
  ghost function EdsWrites(ups: map<string, Upstream>, assignments: seq<Option<LoadAssignment>>): Shown {
    map n | n in ups && LastNodes(assignments, n).Some? :: ups[n].(nodes := LastNodes(assignments, n).value)
  }

  /** One input's entry in the account: a CDS response withdraws what had nodes, and only that. */
  ghost function Account(env: Env, shown: Shown, ups: map<string, Upstream>, input: Input): Shown {
    match input
    case Cds(clusters, _) => (shown - NodedNames(ups)) + CdsWrites(env, ups, clusters)
    case Eds(assignments) => shown + EdsWrites(ups, assignments)
    case _ => shown
  }

  /** What the store shows after a run. */
  ghost function InStore(env: Env, inputs: seq<Input>): Shown {
    if inputs == [] then map[]
    else Account(env, InStore(env, Init(inputs)), Run(env, Init(inputs)).state.upstreams, Last(inputs))
  }

  /** The upstream keys of a store are the keys of these names, with the texts of these upstreams. */
  ghost predicate Covers(env: Env, s: Store, shown: Shown) {
    && (forall k :: k in s && IsUpstreamKey(k) ==> exists n :: n in shown && k == UpstreamKey(env, n))
    && (forall n :: n in shown ==> Lookup(s, UpstreamKey(env, n)) == Some(Text(env.marshal, shown[n])))
  }

  lemma CoversName(env: Env, names: set<string>, s: Store, shown: Shown, n: string)
    requires InjectiveOn(env.genId, names) && shown.Keys <= names && n in names && Covers(env, s, shown)
    ensures Lookup(s, UpstreamKey(env, n)) == if n in shown then Some(Text(env.marshal, shown[n])) else None
  {
    UpstreamKeyInjective(env, names, n, n);
    if UpstreamKey(env, n) in s {
      var m :| m in shown && UpstreamKey(env, n) == UpstreamKey(env, m);
      UpstreamKeyInjective(env, names, n, m);
    }
  }

  lemma CoversMinus(env: Env, names: set<string>, s: Store, shown: Shown, ks: set<string>, gone: set<string>)
    requires InjectiveOn(env.genId, names) && shown.Keys <= names && gone <= names && Covers(env, s, shown)
    requires forall n :: n in names ==> (UpstreamKey(env, n) in ks <==> n in gone)
    ensures Covers(env, s - ks, shown - gone)
  {
    forall k | k in s - ks && IsUpstreamKey(k) ensures exists n :: n in shown - gone && k == UpstreamKey(env, n) {
      var n :| n in shown && k == UpstreamKey(env, n);
    }
  }

  lemma CoversPlus(env: Env, names: set<string>, s: Store, shown: Shown, t: Store, more: Shown)
    requires InjectiveOn(env.genId, names) && shown.Keys <= names && more.Keys <= names
    requires Covers(env, s, shown) && Covers(env, t, more)
    ensures Covers(env, s + t, shown + more)
  {
    forall k | k in s + t && IsUpstreamKey(k) ensures exists n :: n in shown + more && k == UpstreamKey(env, n) {
      var n :| (n in shown || n in more) && k == UpstreamKey(env, n);
      assert n in shown + more;
    }
    forall n | n in shown + more
      ensures Lookup(s + t, UpstreamKey(env, n)) == Some(Text(env.marshal, (shown + more)[n]))
    {
      CoversName(env, names, t, more, n);
    }
  }

  lemma NodedKeys(env: Env, names: set<string>, ups: map<string, Upstream>, order: seq<string>, n: string)
    requires Filed(env, ups) && InjectiveOn(env.genId, names) && ups.Keys <= names && Lists(order, ups.Keys)
    requires n in names
    ensures UpstreamKey(env, n) in View(env.marshal, Noded(ups, order)) <==> n in NodedNames(ups)
  {
    hide View, Noded;
    NodedLookup(env, names, ups, order, n);
    OrderHas(order, ups.Keys, n);
  }

  lemma {:induction false} EntryShown(env: Env, before: map<string, Upstream>, clusters: seq<Option<Cluster>>,
                                      n: string)
    ensures Entry(env, before, clusters, n).Some? <==> n in CdsShown(before, clusters)
  {
    hide IgnoreEds, Nodes, LbType;
    if clusters != [] {
      EntryShown(env, before, Init(clusters), n);
      InitLast(clusters);
      var c := Last(clusters);
      assert n in CdsShown(before, clusters) <==>
             n in CdsShown(before, Init(clusters)) || (c.Some? && c.value.name == n && Shows(before, c.value));
      if c.Some? {
        EntryShows(env, before, c.value);
      }
    }
  }

  lemma EntryShows(env: Env, before: map<string, Upstream>, c: Cluster)
    ensures Shows(before, c) <==>
            TranslateCluster(env.genId, c).Ok? && ManifestEntry(before, c, TranslateCluster(env.genId, c).value) != []
  {
  }

  lemma CdsCovers(env: Env, names: set<string>, before: map<string, Upstream>, clusters: seq<Option<Cluster>>)
    requires Filed(env, before) && InjectiveOn(env.genId, names) && ClusterNames(clusters) <= names
    ensures Covers(env, View(env.marshal, CdsAll(env, before, clusters).manifest), CdsWrites(env, before, clusters))
    ensures CdsWrites(env, before, clusters).Keys == CdsShown(before, clusters) <= ClusterNames(clusters)
  {
    hide View, CdsAll, Shows, Entry;
    var v, w := View(env.marshal, CdsAll(env, before, clusters).manifest), CdsWrites(env, before, clusters);
    CdsFiled(env, before, clusters);
    forall n | n in CdsShown(before, clusters) ensures Entry(env, before, clusters, n).Some? {
      EntryShown(env, before, clusters, n);
    }
    forall k | k in v && IsUpstreamKey(k) ensures exists n :: n in w && k == UpstreamKey(env, n) {
      ManifestKeys(env, before, clusters, k);
      var n :| n in CdsAll(env, before, clusters).upstreams && k == UpstreamKey(env, n);
      ManifestLookup(env, names, before, clusters, n);
      EntryShown(env, before, clusters, n);
    }
    forall n | n in w ensures Lookup(v, UpstreamKey(env, n)) == Some(Text(env.marshal, w[n])) {
      ManifestLookup(env, names, before, clusters, n);
    }
  }

  lemma EdsCovers(env: Env, names: set<string>, ups: map<string, Upstream>, assignments: seq<Option<LoadAssignment>>)
    requires Total(env.marshal) && Filed(env, ups) && InjectiveOn(env.genId, names) && ups.Keys <= names
    ensures Covers(env, View(env.marshal, EdsAll(env, ups, assignments).manifest), EdsWrites(ups, assignments))
  {
    hide View, EdsAll, LastNodes;
    var manifest, w := EdsAll(env, ups, assignments).manifest, EdsWrites(ups, assignments);
    var v := View(env.marshal, manifest);
    EdsFiled(env, ups, assignments);
    forall k | k in v && IsUpstreamKey(k) ensures exists n :: n in w && k == UpstreamKey(env, n) {
      ViewKeys(env.marshal, manifest, k);
      var u :| u in manifest && Key(u) == k;
      assert k == UpstreamKey(env, u.name);
      EdsFlat(env, names, ups, assignments, u.name);
    }
    forall n | n in w ensures Lookup(v, UpstreamKey(env, n)) == Some(Text(env.marshal, w[n])) {
      EdsFlat(env, names, ups, assignments, n);
    }
  }

  lemma CoversUntouched(env: Env, s: Store, shown: Shown, es: seq<Event>)
    requires Covers(env, s, shown) && OnlyRouteKeys(es)
    ensures Covers(env, Replay(env.marshal, s, es), shown)
  {
    hide Replay;
    forall k | IsUpstreamKey(k) ensures Lookup(Replay(env.marshal, s, es), k) == Lookup(s, k) {
      UpstreamKeyUntouched(env.marshal, s, es, k);
    }
    assert forall n :: IsUpstreamKey(UpstreamKey(env, n));
  }

  lemma CdsCovered(env: Env, names: set<string>, s: Store, ups: map<string, Upstream>, shown: Shown,
                   clusters: seq<Option<Cluster>>, order: seq<string>)
    requires Filed(env, ups) && InjectiveOn(env.genId, names) && ups.Keys <= names && Lists(order, ups.Keys)
    requires ClusterNames(clusters) <= names && shown.Keys <= names && Covers(env, s, shown)
    ensures var v, w := View(env.marshal, Noded(ups, order)), View(env.marshal, CdsAll(env, ups, clusters).manifest);
            Covers(env, (s - v.Keys) + w, (shown - NodedNames(ups)) + CdsWrites(env, ups, clusters))
  {
    hide CdsAll, Noded, View, Covers, CdsShown, CdsWrites, UpstreamKey;
    var v, w := View(env.marshal, Noded(ups, order)), View(env.marshal, CdsAll(env, ups, clusters).manifest);
    forall n | n in names ensures UpstreamKey(env, n) in v.Keys <==> n in NodedNames(ups) {
      NodedKeys(env, names, ups, order, n);
    }
    CdsCovers(env, names, ups, clusters);
    CoversMinus(env, names, s, shown, v.Keys, NodedNames(ups));
    CoversPlus(env, names, s - v.Keys, shown - NodedNames(ups), w, CdsWrites(env, ups, clusters));
  }

  lemma StepCovers(env: Env, names: set<string>, sys: System, shown: Shown, input: Input)
    requires Total(env.marshal) && InjectiveOn(env.genId, names) && Synced(env, names, sys)
    requires input.Cds? ==> ClusterNames(input.clusters) <= names
    requires ValidInput(sys.state, input) && shown.Keys <= names && Covers(env, sys.store, shown)
    ensures var shown' := Account(env, shown, sys.state.upstreams, input);
            && shown'.Keys <= names
            && Covers(env, Replay(env.marshal, sys.store, Step(env, sys.state, input).batch), shown')
  {
    hide CdsAll, EdsAll, Noded, View, ManifestDiff, AcceptedRoutes, Batch, Replay, Covers, CdsShown, CdsWrites;
    var ups := sys.state.upstreams;
    match input {
      case Cds(clusters, order) =>
        CdsPatch(env, sys.store, ups, clusters, order);
        CdsCovers(env, names, ups, clusters);
        CdsCovered(env, names, sys.store, ups, shown, clusters, order);
      case Eds(assignments) =>
        var manifest := EdsAll(env, ups, assignments).manifest;
        ReplayPuts(env.marshal, sys.store, EventUpdate, manifest);
        EdsCovers(env, names, ups, assignments);
        CoversPlus(env, names, sys.store, shown, View(env.marshal, manifest), EdsWrites(ups, assignments));
      case _ =>
        StepKeepsSynced(env, names, sys, input);
        CoversUntouched(env, sys.store, shown, Step(env, sys.state, input).batch);
    }
  }

  /**
   The account is right over every run: the upstream keys of the store are exactly the keys of
   the names counted up, and each has exactly the text last shown for it, repeated cluster names
   and clusters dropped long ago included.
   */
  lemma {:induction false} RunAccounted(env: Env, inputs: seq<Input>, names: set<string>)
    requires Total(env.marshal) && InjectiveOn(env.genId, names) && NamesInPlay(inputs) <= names
    requires ValidRun(env, inputs)
    ensures InStore(env, inputs).Keys <= names && Covers(env, Run(env, inputs).store, InStore(env, inputs))
  {
    hide Step, Covers, Account;
    if inputs == [] {
      assert Covers(env, map[], map[]) by { NothingCovered(env); }
    } else {
      RunAccounted(env, Init(inputs), names);
      RunSynced(env, Init(inputs), names);
      StepCovers(env, names, Run(env, Init(inputs)), InStore(env, Init(inputs)), Last(inputs));
    }
  }

  lemma NothingCovered(env: Env)
    ensures Covers(env, map[], map[])
  {
  }

  /** Name by name: what the store has under the key of a name, after any run. */
  lemma RunLookup(env: Env, inputs: seq<Input>, names: set<string>, n: string)
    requires Total(env.marshal) && InjectiveOn(env.genId, names) && NamesInPlay(inputs) <= names
    requires ValidRun(env, inputs) && n in names
    ensures var shown := InStore(env, inputs);
            Lookup(Run(env, inputs).store, UpstreamKey(env, n)) ==
            if n in shown then Some(Text(env.marshal, shown[n])) else None
  {
    hide Run, InStore, Covers, UpstreamKey;
    RunAccounted(env, inputs, names);
    CoversName(env, names, Run(env, inputs).store, InStore(env, inputs), n);
  }

  /** After any run, the store is exact if and only if the account names just the upstreams that have nodes. */
  lemma RunExactIff(env: Env, inputs: seq<Input>, names: set<string>)
    requires Total(env.marshal) && InjectiveOn(env.genId, names) && NamesInPlay(inputs) <= names
    requires ValidRun(env, inputs)
    ensures var sys := Run(env, inputs);
            Exact(env, sys.store, sys.state.upstreams) <==> InStore(env, inputs).Keys == NodedNames(sys.state.upstreams)
  {
    hide Run, InStore, RoutesShown;
    var sys, shown := Run(env, inputs), InStore(env, inputs);
    var ups := sys.state.upstreams;
    RunSynced(env, inputs, names);
    RunAccounted(env, inputs, names);
    forall n | n in NodedNames(ups) ensures n in shown {
      CoversName(env, names, sys.store, shown, n);
    }
    if Exact(env, sys.store, ups) {
      forall n | n in shown ensures n in NodedNames(ups) {
        UpstreamKeyInjective(env, names, n, n);
        assert UpstreamKey(env, n) in sys.store;
        var m :| m in ups && UpstreamKey(env, n) == UpstreamKey(env, m) && HasNodes(ups[m]);
        UpstreamKeyInjective(env, names, n, m);
      }
    }
  }

  /** The next state of a run, and the next entry of its account. */
  lemma Extend(env: Env, inputs: seq<Input>, input: Input)
    ensures var sys := Run(env, inputs);
            && Run(env, inputs + [input]).state == Step(env, sys.state, input).state
            && InStore(env, inputs + [input]) == Account(env, InStore(env, inputs), sys.state.upstreams, input)
            && (ValidRun(env, inputs + [input]) <==> ValidRun(env, inputs) && ValidInput(sys.state, input))
            && NamesInPlay(inputs + [input]) ==
               NamesInPlay(inputs) + if input.Cds? then ClusterNames(input.clusters) else {}
  {
    hide Step, Account, ValidInput;
    assert Init(inputs + [input]) == inputs && Last(inputs + [input]) == input;
  }

  /** The upstream of an EDS cluster, before EDS has answered. */
  ghost function Waiting(env: Env, c: Cluster): Upstream
    requires c.clusterType.Eds?
  {
    TranslateCluster(env.genId, c).value
  }

  /** The same with the nodes of an answer. */
  ghost function Answered(env: Env, c: Cluster, a: LoadAssignment): Upstream
    requires c.clusterType.Eds?
  {
    var u: Upstream := Waiting(env, c);
    u.(nodes := Nodes(a.localities))
  }

  lemma OneEdsCluster(env: Env, before: map<string, Upstream>, c: Cluster)
    requires c.clusterType.Eds?
    ensures CdsAll(env, before, [Some(c)]).upstreams == map[c.name := Waiting(env, c)]
    ensures CdsWrites(env, before, [Some(c)]) ==
            if c.name in NodedNames(before) then map[c.name := before[c.name]] else map[]
    ensures ClusterNames([Some(c)]) == {c.name}
  {
    hide IgnoreEds, LbType;
    var one := [Some(c)];
    assert Init(one) == [] && Last(one) == Some(c);
    assert forall x :: x in one <==> x == Some(c);
    assert CdsShown(before, one) == if c.name in NodedNames(before) then {c.name} else {};
    assert CdsAll(env, before, []).upstreams == map[];
  }

  lemma OneAssignment(env: Env, c: Cluster, a: LoadAssignment)
    requires Total(env.marshal) && c.clusterType.Eds? && a.clusterName == c.name && a.localities != []
    ensures var ups, one := map[c.name := Waiting(env, c)], [Some(a)];
            EdsAll(env, ups, one).upstreams == EdsWrites(ups, one) == map[c.name := Answered(env, c, a)]
  {
    hide IgnoreEds, LbType, Nodes;
    var ups, one := map[c.name := Waiting(env, c)], [Some(a)];
    assert Init(one) == [] && Last(one) == Some(a);
    assert LastNodes(one, c.name) == Some(Nodes(a.localities));
    assert EdsAll(env, ups, []).upstreams == ups && env.marshal(Waiting(env, c)).Some?;
  }

  /** What three kinds of input do to the upstreams and to the account. */
  lemma AfterCluster(env: Env, st: State, shown: Shown, c: Cluster, order: seq<string>)
    requires c.clusterType.Eds?
    ensures var ups := st.upstreams;
            && Step(env, st, Cds([Some(c)], order)).state.upstreams == map[c.name := Waiting(env, c)]
            && Account(env, shown, ups, Cds([Some(c)], order)) ==
               (shown - NodedNames(ups)) + if c.name in NodedNames(ups) then map[c.name := ups[c.name]] else map[]
  {
    hide CdsAll, CdsWrites, ManifestDiff, NodedNames, Waiting;
    OneEdsCluster(env, st.upstreams, c);
  }

  lemma AfterEndpoints(env: Env, st: State, shown: Shown, c: Cluster, a: LoadAssignment)
    requires Total(env.marshal) && c.clusterType.Eds? && a.clusterName == c.name && a.localities != []
    requires st.upstreams == map[c.name := Waiting(env, c)]
    ensures Step(env, st, Input.Eds([Some(a)])).state.upstreams == map[c.name := Answered(env, c, a)]
    ensures Account(env, shown, st.upstreams, Input.Eds([Some(a)])) == shown + map[c.name := Answered(env, c, a)]
  {
    hide EdsAll, EdsWrites, Batch, Waiting, Answered;
    OneAssignment(env, c, a);
  }

  lemma AfterNone(env: Env, st: State, shown: Shown, order: seq<string>)
    ensures Step(env, st, Cds([], order)).state.upstreams == map[]
    ensures Account(env, shown, st.upstreams, Cds([], order)) == shown - NodedNames(st.upstreams)
  {
    hide ManifestDiff;
    assert CdsShown(st.upstreams, []) == {};
    assert CdsWrites(env, st.upstreams, []) == map[];
  }

  lemma NodedOne(n: string, u: Upstream)
    ensures NodedNames(map[n := u]) == (if HasNodes(u) then {n} else {}) && NodedNames(map[]) == {}
  {
  }

  lemma EmptyRun(env: Env, c: Cluster)
    ensures Run(env, []).state.upstreams == map[] && InStore(env, []) == map[]
    ensures ValidRun(env, []) && NamesInPlay([]) == {}
    ensures ClusterNames([]) == {} && ClusterNames([Some(c)]) == {c.name}
  {
    assert forall x :: x in [Some(c)] <==> x == Some(c);
  }

  lemma AnnouncedPath(env: Env, c: Cluster, a: LoadAssignment)
    requires Total(env.marshal) && c.clusterType.Eds? && a.clusterName == c.name && a.localities != []
    ensures var inputs := [Cds([Some(c)], []), Input.Eds([Some(a)])];
            && ValidRun(env, inputs) && NamesInPlay(inputs) <= {c.name}
            && Run(env, inputs).state.upstreams == InStore(env, inputs) == map[c.name := Answered(env, c, a)]
  {
    hide Run, InStore, ValidRun, NamesInPlay, Step, Account, NodedNames, ClusterNames, Waiting, Answered;
    var i1, i2 := Cds([Some(c)], []), Input.Eds([Some(a)]);
    assert [] + [i1] == [i1] && [i1] + [i2] == [i1, i2] && Lists([], {});
    EmptyRun(env, c);
    Extend(env, [], i1);
    Extend(env, [i1], i2);
    NodedOne(c.name, Waiting(env, c));
    AfterCluster(env, Run(env, []).state, map[], c, []);
    assert InStore(env, [i1]) == map[];
    AfterEndpoints(env, Run(env, [i1]).state, map[], c, a);
  }

  /**
   EDS writes what it has, nodes or not: after a cluster and any answer with localities, the store
   shows the cluster with the answer's nodes, and is exact if and only if there are any.
   */
  lemma NodelessAnnounced(env: Env, c: Cluster, a: LoadAssignment)
    requires Total(env.marshal) && c.clusterType.Eds? && a.clusterName == c.name && a.localities != []
    ensures var inputs := [Cds([Some(c)], []), Input.Eds([Some(a)])];
            var sys := Run(env, inputs);
            && ValidRun(env, inputs)
            && Lookup(sys.store, UpstreamKey(env, c.name)) == Some(Text(env.marshal, Answered(env, c, a)))
            && (Exact(env, sys.store, sys.state.upstreams) <==> Nodes(a.localities) != [])
  {
    hide Run, InStore, ValidRun, NamesInPlay, Nodes, Exact, UpstreamKey, Waiting;
    var inputs := [Cds([Some(c)], []), Input.Eds([Some(a)])];
    AnnouncedPath(env, c, a);
    NodedOne(c.name, Answered(env, c, a));
    RunLookup(env, inputs, {c.name}, c.name);
    RunExactIff(env, inputs, {c.name});
  }

  /**
   Every EDS cluster can be left behind: four responses, the cluster, its endpoints, the cluster
   again and then no cluster, end with its key in the store, with the text it had while it was
   known, and nobody who knows it.
   */
  lemma LeakingRun(env: Env, c: Cluster, a: LoadAssignment)
    requires Total(env.marshal) && c.clusterType.Eds? && a.clusterName == c.name && Nodes(a.localities) != []
    ensures var inputs := [Cds([Some(c)], []), Input.Eds([Some(a)]), Cds([Some(c)], [c.name]), Cds([], [c.name])];
            var sys := Run(env, inputs);
            && ValidRun(env, inputs) && c.name !in sys.state.upstreams
            && Lookup(sys.store, UpstreamKey(env, c.name)) == Some(Text(env.marshal, Answered(env, c, a)))
            && !Exact(env, sys.store, sys.state.upstreams)
  {
    hide Run, InStore, ValidRun, NamesInPlay, Nodes, Exact, UpstreamKey, Answered;
    var n := c.name;
    var inputs := [Cds([Some(c)], []), Input.Eds([Some(a)]), Cds([Some(c)], [n]), Cds([], [n])];
    LeakingPath(env, c, a);
    NodedOne(n, Waiting(env, c));
    RunLookup(env, inputs, {n}, n);
    RunExactIff(env, inputs, {n});
  }

  lemma LeakingPath(env: Env, c: Cluster, a: LoadAssignment)
    requires Total(env.marshal) && c.clusterType.Eds? && a.clusterName == c.name && Nodes(a.localities) != []
    ensures var inputs := [Cds([Some(c)], []), Input.Eds([Some(a)]), Cds([Some(c)], [c.name]), Cds([], [c.name])];
            && ValidRun(env, inputs) && NamesInPlay(inputs) <= {c.name}
            && Run(env, inputs).state.upstreams == map[]
            && InStore(env, inputs) == map[c.name := Answered(env, c, a)]
  {
    hide Run, InStore, ValidRun, NamesInPlay, Step, Account, NodedNames, ClusterNames;
    var n, kept := c.name, map[c.name := Answered(env, c, a)];
    var i1, i2, i3, i4 := Cds([Some(c)], []), Input.Eds([Some(a)]), Cds([Some(c)], [n]), Cds([], [n]);
    assert a.localities != [] by { assert AllEndpoints([]) == []; }
    assert [i1, i2] + [i3] == [i1, i2, i3] && [i1, i2, i3] + [i4] == [i1, i2, i3, i4] && Lists([n], {n});
    AnnouncedPath(env, c, a);
    EmptyRun(env, c);
    Extend(env, [i1, i2], i3);
    Extend(env, [i1, i2, i3], i4);
    NodedOne(n, Answered(env, c, a));
    NodedOne(n, Waiting(env, c));
    AfterCluster(env, Run(env, [i1, i2]).state, kept, c, [n]);
    assert InStore(env, [i1, i2, i3]) == kept;
    AfterNone(env, Run(env, [i1, i2, i3]).state, kept, [n]);
    assert kept - {} == kept;
  }
}
