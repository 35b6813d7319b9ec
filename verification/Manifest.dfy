/** A manifest (routes and upstreams), the difference of two manifests and the events of a difference. */
module Manifest {
  import opened GoTypes
  import opened Apisix
  import opened Diff

  datatype Manifest = Manifest(routes: Slice<Route>, upstreams: Slice<Upstream>)

  const EMPTY_MANIFEST := Manifest(Nil, Nil)

  /** Upstreams without nodes are never added or updated. */
  function WithNodes(us: seq<Object>): seq<Object> {
    if us == [] then []
    else
      WithNodes(Init(us)) +
      if Last(us).UpstreamObject? && HasNodes(Last(us)) then [Last(us)] else []
  }

  /** The events of one kind for one manifest: its routes, then its upstreams. */
  function EventsOf(t: EventType, routes: seq<Object>, upstreams: seq<Object>): seq<Event> {
    Batch(t, routes) + Batch(t, Announced(t, upstreams))
  }

  function Announced(t: EventType, us: seq<Object>): seq<Object> {
    if t == EventDelete then us else WithNodes(us)
  }

  /** `Manifest.DiffFrom`, with the slices it builds: routes against routes, upstreams against upstreams. */
  method DiffFrom(marshal: Marshal, m: Manifest, m2: Manifest)
    returns (added: Parts, deleted: Parts, updated: Parts)
    ensures added == Parts(Fresh(m.routes.Elems(), m2.routes.Elems()), Fresh(m.upstreams.Elems(), m2.upstreams.Elems()))
    ensures deleted ==
            Parts(Fresh(m2.routes.Elems(), m.routes.Elems()), Fresh(m2.upstreams.Elems(), m.upstreams.Elems()))
    ensures updated == Parts(Updated(marshal, m.routes.Elems(), m2.routes.Elems()),
                             Updated(marshal, m.upstreams.Elems(), m2.upstreams.Elems()))
  {
    var a, d, u := Compare(marshal, m.routes, m2.routes);
    var au, du, uu := Compare(marshal, m.upstreams, m2.upstreams);
    added := Parts(a.Elems(), au.Elems());
    deleted := Parts(d.Elems(), du.Elems());
    updated := Parts(u.Elems(), uu.Elems());
  }

  /** The contents of a manifest that came out of a diff. */
  datatype Parts = Parts(routes: seq<Object>, upstreams: seq<Object>) {
    function Size(): nat {
      |upstreams| + |routes|
    }
  }

  /** `Manifest.Events`. */
  method Events(m: Parts, t: EventType) returns (events: seq<Event>)
    ensures events == EventsOf(t, m.routes, m.upstreams)
  {
    events := [];
    for i := 0 to |m.routes|
      invariant events == Batch(t, m.routes[..i])
    {
      Snoc(m.routes, i);
      BatchAppend(t, m.routes[..i], m.routes[i]);
      events := events + [MakeEvent(t, m.routes[i])];
    }
    assert m.routes[..|m.routes|] == m.routes;
    var upstreamEvents := UpstreamEvents(m.upstreams, t);
    events := events + upstreamEvents;
  }

  /** The second loop of `Manifest.Events`. */
  method UpstreamEvents(us: seq<Object>, t: EventType) returns (events: seq<Event>)
    ensures events == Batch(t, Announced(t, us))
  {
    events := [];
    for i := 0 to |us|
      invariant events == Batch(t, Announced(t, us[..i]))
    {
      AnnouncedStep(t, us, i);
      if t == EventDelete || (us[i].UpstreamObject? && HasNodes(us[i])) {
        events := events + [MakeEvent(t, us[i])];
      }
    }
    assert us[..|us|] == us;
  }

  lemma AnnouncedStep(t: EventType, us: seq<Object>, i: nat)
    requires i < |us|
    ensures Batch(t, Announced(t, us[..i + 1])) ==
            if t == EventDelete || (us[i].UpstreamObject? && HasNodes(us[i]))
            then Batch(t, Announced(t, us[..i])) + [MakeEvent(t, us[i])]
            else Batch(t, Announced(t, us[..i]))
  {
    Snoc(us, i);
    var announced := Announced(t, us[..i]);
    if t == EventDelete || (us[i].UpstreamObject? && HasNodes(us[i])) {
      assert Announced(t, us[..i + 1]) == announced + [us[i]];
      BatchAppend(t, announced, us[i]);
    } else {
      assert Announced(t, us[..i + 1]) == announced;
    }
  }

  lemma BatchAppend(t: EventType, xs: seq<Object>, x: Object)
    ensures Batch(t, xs + [x]) == Batch(t, xs) + [MakeEvent(t, x)]
  {
    assert Init(xs + [x]) == xs && Last(xs + [x]) == x;
  }

  function OrEmpty(m: Option<Manifest>): Manifest {
    match m
    case Some(v) => v
    case None => EMPTY_MANIFEST
  }

  /** The batch that takes a store from one manifest to another. */
  function ManifestDiff(marshal: Marshal, m: Manifest, m2: Manifest): seq<Event> {
    var r, r2, u, u2 := m.routes.Elems(), m2.routes.Elems(), m.upstreams.Elems(), m2.upstreams.Elems();
    EventsOf(EventAdd, Fresh(r, r2), Fresh(u, u2)) +
    EventsOf(EventDelete, Fresh(r2, r), Fresh(u2, u)) +
    EventsOf(EventUpdate, Updated(marshal, r, r2), Updated(marshal, u, u2))
  }

  /** `generateIncrementalEvents`. A nil manifest is treated exactly as an empty one. */
  method GenerateIncrementalEvents(marshal: Marshal, newManifest: Option<Manifest>, oldManifest: Option<Manifest>)
    returns (events: seq<Event>)
    ensures events == ManifestDiff(marshal, OrEmpty(oldManifest), OrEmpty(newManifest))
  {
    var added, deleted, updated := Parts([], []), Parts([], []), Parts([], []);
    if oldManifest.None? {
      var m := OrEmpty(newManifest);
      added := Parts(m.routes.Elems(), m.upstreams.Elems());
      FreshOverEmpty(marshal, m.routes.Elems());
      FreshOverEmpty(marshal, m.upstreams.Elems());
    } else if newManifest.None? {
      var m := oldManifest.value;
      deleted := Parts(m.routes.Elems(), m.upstreams.Elems());
      FreshOverEmpty(marshal, m.routes.Elems());
      FreshOverEmpty(marshal, m.upstreams.Elems());
    } else {
      added, deleted, updated := DiffFrom(marshal, oldManifest.value, newManifest.value);
    }
    if added.Size() + deleted.Size() + updated.Size() == 0 {
      return [];
    }
    var a := Events(added, EventAdd);
    var d := Events(deleted, EventDelete);
    var u := Events(updated, EventUpdate);
    events := a + d + u;
  }

  lemma {:induction false} WithNodesAll(us: seq<Object>)
    requires forall u :: u in us ==> u.UpstreamObject? && HasNodes(u)
    ensures WithNodes(us) == us
  {
    if us != [] {
      InitLast(us);
      WithNodesAll(Init(us));
    }
  }

  lemma {:induction false} FreshMember(xs: seq<Object>, ys: seq<Object>, y: Object)
    requires y in Fresh(xs, ys)
    ensures y in ys
  {
    if y !in Fresh(xs, Init(ys)) {
      assert y == Last(ys);
    } else {
      FreshMember(xs, Init(ys), y);
    }
  }

  lemma {:induction false} UpdatedMember(marshal: Marshal, xs: seq<Object>, ys: seq<Object>, y: Object)
    requires y in Updated(marshal, xs, ys)
    ensures y in ys
  {
    var x := Last(xs);
    if y in Updated(marshal, Init(xs), ys) {
      UpdatedMember(marshal, Init(xs), ys, y);
    } else {
      IndexValue(ys, x.id);
    }
  }

  lemma {:induction false} IndexValue(ys: seq<Object>, id: string)
    requires id in Index(ys)
    ensures Index(ys)[id] in ys
  {
    if Last(ys).id != id {
      IndexValue(Init(ys), id);
    }
  }

  lemma NoneEqual(marshal: Marshal)
    ensures Fresh([], []) == [] && Updated(marshal, [], []) == []
  {
  }

  lemma NoRoutes(t: EventType, us: seq<Object>)
    ensures EventsOf(t, [], us) == Batch(t, Announced(t, us))
  {
    assert Batch(t, []) == [];
  }

  lemma NoUpstreams(t: EventType, rs: seq<Object>)
    ensures EventsOf(t, rs, []) == Batch(t, rs)
  {
    assert Batch(t, Announced(t, [])) == [];
  }

  /** With only routes filled in, the batch is the plain diff of the two route lists. */
  lemma RoutesOnly(marshal: Marshal, r: Slice<Route>, r2: Slice<Route>)
    ensures ManifestDiff(marshal, Manifest(r, Nil), Manifest(r2, Nil)) == DiffEvents(marshal, r.Elems(), r2.Elems())
  {
    var xs, ys: seq<Object> := r.Elems(), r2.Elems();
    NoUpstreams(EventAdd, Fresh(xs, ys));
    NoUpstreams(EventDelete, Fresh(ys, xs));
    NoUpstreams(EventUpdate, Updated(marshal, xs, ys));
  }

  /** With only upstreams filled in, all of them with nodes, it is the plain diff of the two upstream lists. */
  lemma UpstreamsOnly(marshal: Marshal, u: Slice<Upstream>, u2: Slice<Upstream>)
    requires forall x :: x in u2.Elems() ==> HasNodes(x)
    ensures ManifestDiff(marshal, Manifest(Nil, u), Manifest(Nil, u2)) == DiffEvents(marshal, u.Elems(), u2.Elems())
  {
    hide Batch, WithNodes, Fresh, Updated;
    var xs, ys: seq<Object> := u.Elems(), u2.Elems();
    NoneEqual(marshal);
    assert forall x :: x in Fresh(xs, ys) ==> x.UpstreamObject? && HasNodes(x) by {
      forall x | x in Fresh(xs, ys) ensures x in ys { FreshMember(xs, ys, x); }
    }
    assert forall x :: x in Updated(marshal, xs, ys) ==> x.UpstreamObject? && HasNodes(x) by {
      forall x | x in Updated(marshal, xs, ys) ensures x in ys { UpdatedMember(marshal, xs, ys, x); }
    }
    WithNodesAll(Fresh(xs, ys));
    WithNodesAll(Updated(marshal, xs, ys));
    NoRoutes(EventAdd, Fresh(xs, ys));
    NoRoutes(EventDelete, Fresh(ys, xs));
    NoRoutes(EventUpdate, Updated(marshal, xs, ys));
  }

  /** The event of a kind for an object: its key, and the object itself. */
  ghost predicate IsEvent(t: EventType, x: Object, e: Event) {
    match t
    case EventAdd => e == AddEvent(Key(x), x)
    case EventUpdate => e == UpdateEvent(Key(x), x)
    case EventDelete => e == DeleteEvent(Key(x), x)
  }

  lemma {:induction false} BatchAt(t: EventType, xs: seq<Object>, i: nat)
    ensures |Batch(t, xs)| == |xs| && (i < |xs| ==> IsEvent(t, xs[i], Batch(t, xs)[i]))
  {
    if xs != [] {
      BatchAt(t, Init(xs), i);
    }
  }

  lemma {:induction false} WithNodesIff(us: seq<Object>, x: Object)
    ensures x in WithNodes(us) <==> x in us && x.UpstreamObject? && HasNodes(x)
  {
    if us != [] {
      InitLast(us);
      WithNodesIff(Init(us), x);
    }
  }

  lemma BatchMember(t: EventType, xs: seq<Object>, e: Event)
    ensures e in Batch(t, xs) <==> exists x :: x in xs && IsEvent(t, x, e)
  {
    hide Batch;
    BatchAt(t, xs, 0);
    forall i: nat | i < |xs| ensures IsEvent(t, xs[i], Batch(t, xs)[i]) {
      BatchAt(t, xs, i);
    }
    if e in Batch(t, xs) {
      var i :| 0 <= i < |Batch(t, xs)| && Batch(t, xs)[i] == e;
      assert xs[i] in xs;
    }
    if x :| x in xs && IsEvent(t, x, e) {
      var i :| 0 <= i < |xs| && xs[i] == x;
      assert Batch(t, xs)[i] == e;
    }
  }

  /** The events of a manifest: one of the kind for every route, and for every upstream that has nodes or is deleted. */
  lemma EventsMember(t: EventType, routes: seq<Object>, upstreams: seq<Object>, e: Event)
    ensures e in EventsOf(t, routes, upstreams) <==>
            exists x :: IsEvent(t, x, e) &&
              (x in routes || (x in upstreams && (t == EventDelete || (x.UpstreamObject? && HasNodes(x)))))
  {
    hide Batch, IsEvent, WithNodes;
    BatchMember(t, routes, e);
    BatchMember(t, Announced(t, upstreams), e);
    forall x ensures x in Announced(t, upstreams) <==>
                     x in upstreams && (t == EventDelete || (x.UpstreamObject? && HasNodes(x)))
    {
      WithNodesIff(upstreams, x);
    }
  }

  /** Whatever the two manifests, no upstream without nodes is ever added or updated. */
  lemma NeverNodeless(marshal: Marshal, m: Manifest, m2: Manifest, e: Event)
    requires e in ManifestDiff(marshal, m, m2) && !e.DeleteEvent?
    ensures e.key == Key(e.payload) && (e.payload.UpstreamObject? ==> HasNodes(e.payload))
  {
    hide EventsOf, Fresh, Updated;
    var r, r2, u, u2 := m.routes.Elems(), m2.routes.Elems(), m.upstreams.Elems(), m2.upstreams.Elems();
    EventsMember(EventAdd, Fresh(r, r2), Fresh(u, u2), e);
    EventsMember(EventDelete, Fresh(r2, r), Fresh(u2, u), e);
    EventsMember(EventUpdate, Updated(marshal, r, r2), Updated(marshal, u, u2), e);
    forall x | x in Fresh(r, r2) ensures x in r2 { FreshMember(r, r2, x); }
    forall x | x in Updated(marshal, r, r2) ensures x in r2 { UpdatedMember(marshal, r, r2, x); }
  }

  /** Where the kind of an event comes in a batch. */
  function Stage(e: Event): nat {
    if e.AddEvent? then 0 else if e.DeleteEvent? then 1 else 2
  }

  lemma StageOf(t: EventType, routes: seq<Object>, upstreams: seq<Object>, e: Event)
    requires e in EventsOf(t, routes, upstreams)
    ensures Stage(e) == if t == EventAdd then 0 else if t == EventDelete then 1 else 2
  {
    EventsMember(t, routes, upstreams, e);
  }

  /** Every batch holds its additions first, then its deletions, then its updates. */
  lemma KindsInOrder(marshal: Marshal, m: Manifest, m2: Manifest, i: nat, j: nat)
    requires i < j < |ManifestDiff(marshal, m, m2)|
    ensures Stage(ManifestDiff(marshal, m, m2)[i]) <= Stage(ManifestDiff(marshal, m, m2)[j])
  {
    hide EventsOf, Fresh, Updated, Stage;
    var r, r2, u, u2 := m.routes.Elems(), m2.routes.Elems(), m.upstreams.Elems(), m2.upstreams.Elems();
    var add := EventsOf(EventAdd, Fresh(r, r2), Fresh(u, u2));
    var delete := EventsOf(EventDelete, Fresh(r2, r), Fresh(u2, u));
    var update := EventsOf(EventUpdate, Updated(marshal, r, r2), Updated(marshal, u, u2));
    forall e | e in add ensures Stage(e) == 0 { StageOf(EventAdd, Fresh(r, r2), Fresh(u, u2), e); }
    forall e | e in delete ensures Stage(e) == 1 { StageOf(EventDelete, Fresh(r2, r), Fresh(u2, u), e); }
    forall e | e in update ensures Stage(e) == 2 {
      StageOf(EventUpdate, Updated(marshal, r, r2), Updated(marshal, u, u2), e);
    }
    Staged(add, delete, update, i, j);
  }

  lemma Staged(a: seq<Event>, b: seq<Event>, c: seq<Event>, i: nat, j: nat)
    requires i < j < |a + b + c|
    requires forall e :: e in a ==> Stage(e) == 0
    requires forall e :: e in b ==> Stage(e) == 1
    requires forall e :: e in c ==> Stage(e) == 2
    ensures Stage((a + b + c)[i]) <= Stage((a + b + c)[j])
  {
    hide Stage;
    forall k | 0 <= k < |a + b + c|
      ensures Stage((a + b + c)[k]) == if k < |a| then 0 else if k < |a| + |b| then 1 else 2
    {
      assert (a + b + c)[k] == if k < |a| then a[k] else if k < |a| + |b| then b[k - |a|] else c[k - |a| - |b|];
    }
  }
}
