/**
 The keyed diff of two object lists (`CompareRoutes` and `CompareUpstreams`, which are the
 same algorithm over two struct types), the replay of its events into a key/value store,
 and what the two do together.
 */
module Diff {
  import opened GoTypes
  import opened Apisix

  type Store = map<string, string>

  /** The map the diff builds from a list: the last object of an id wins. */
  function Index(xs: seq<Object>): map<string, Object> {
    if xs == [] then map[] else Index(Init(xs))[Last(xs).id := Last(xs)]
  }

  /** What a store that shows exactly the list `xs` holds: the text of the last object of each key. */
  function View(marshal: Marshal, xs: seq<Object>): Store {
    if xs == [] then map[] else View(marshal, Init(xs))[Key(Last(xs)) := Text(marshal, Last(xs))]
  }

  /** The objects of `ys` whose id does not occur in `xs`, in order. */
  function Fresh(xs: seq<Object>, ys: seq<Object>): seq<Object> {
    if ys == [] then []
    else Fresh(xs, Init(ys)) + if Last(ys).id in Index(xs) then [] else [Last(ys)]
  }

  /** A marshal failure on either side counts as a change. */
  predicate Changed(marshal: Marshal, ro: Object, rn: Object) {
    marshal(ro).None? || marshal(rn).None? || marshal(ro) != marshal(rn)
  }

  /** For every object of `xs` whose id is still in `ys` and whose text changed, the winner in `ys`. */
  function Updated(marshal: Marshal, xs: seq<Object>, ys: seq<Object>): seq<Object> {
    if xs == [] then [] else Updated(marshal, Init(xs), ys) + UpdateOf(marshal, Last(xs), ys)
  }

  function UpdateOf(marshal: Marshal, x: Object, ys: seq<Object>): seq<Object> {
    if x.id in Index(ys) && Changed(marshal, x, Index(ys)[x.id]) then [Index(ys)[x.id]] else []
  }

  /** `CompareRoutes` and `CompareUpstreams`. A nil list is treated exactly as an empty one. */
  method Compare(marshal: Marshal, r1: Slice<Object>, r2: Slice<Object>)
    returns (added: Slice<Object>, deleted: Slice<Object>, updated: Slice<Object>)
    ensures added.Elems() == Fresh(r1.Elems(), r2.Elems())
    ensures deleted.Elems() == Fresh(r2.Elems(), r1.Elems())
    ensures updated.Elems() == Updated(marshal, r1.Elems(), r2.Elems())
  {
    var xs, ys := r1.Elems(), r2.Elems();
    if r1 == Nil {
      FreshOverEmpty(marshal, ys);
      return r2, Nil, Nil;
    }
    if r2 == Nil {
      FreshOverEmpty(marshal, xs);
      return Nil, r1, Nil;
    }
    var r1Map := BuildIndex(xs);
    var r2Map := BuildIndex(ys);
    added, deleted, updated := Nil, Nil, Nil;
    for i := 0 to |ys|
      invariant added.Elems() == Fresh(xs, ys[..i])
    {
      Snoc(ys, i);
      if ys[i].id !in r1Map {
        added := Append(added, [ys[i]]);
      }
    }
    for i := 0 to |xs|
      invariant deleted.Elems() == Fresh(ys, xs[..i])
      invariant updated.Elems() == Updated(marshal, xs[..i], ys)
    {
      Snoc(xs, i);
      if xs[i].id !in r2Map {
        deleted := Append(deleted, [xs[i]]);
      } else {
        var rn := r2Map[xs[i].id];
        if marshal(xs[i]).None? || marshal(rn).None? {
          updated := Append(updated, [rn]);
        } else if marshal(xs[i]).value != marshal(rn).value {
          updated := Append(updated, [rn]);
        }
      }
    }
    assert xs[..|xs|] == xs && ys[..|ys|] == ys;
  }

  method BuildIndex(xs: seq<Object>) returns (m: map<string, Object>)
    ensures m == Index(xs)
  {
    m := map[];
    for i := 0 to |xs|
      invariant m == Index(xs[..i])
    {
      Snoc(xs, i);
      m := m[xs[i].id := xs[i]];
    }
    assert xs[..|xs|] == xs;
  }

  lemma {:induction false} FreshOverEmpty(marshal: Marshal, xs: seq<Object>)
    ensures Fresh([], xs) == xs
    ensures Updated(marshal, xs, []) == []
    ensures Fresh(xs, []) == [] && Updated(marshal, [], xs) == []
  {
    FreshOfNone(xs);
    UpdatedToNone(marshal, xs);
  }

  lemma {:induction false} FreshOfNone(xs: seq<Object>)
    ensures Fresh([], xs) == xs
  {
    if xs != [] {
      FreshOfNone(Init(xs));
      InitLast(xs);
      assert Last(xs).id !in Index([]);
    }
  }

  lemma {:induction false} UpdatedToNone(marshal: Marshal, xs: seq<Object>)
    ensures Updated(marshal, xs, []) == []
  {
    if xs != [] {
      UpdatedToNone(marshal, Init(xs));
      assert Last(xs).id !in Index([]);
    }
  }

  /** The events of one kind for a list of objects, in order. */
  function Batch(t: EventType, xs: seq<Object>): seq<Event> {
    if xs == [] then [] else Batch(t, Init(xs)) + [MakeEvent(t, Last(xs))]
  }

  /** One event in the store; an object that does not marshal is skipped. */
  function Apply(marshal: Marshal, s: Store, e: Event): Store {
    match e
    case DeleteEvent(k, _) => s - {k}
    case AddEvent(k, o) => if marshal(o).Some? then s[k := marshal(o).value] else s
    case UpdateEvent(k, o) => if marshal(o).Some? then s[k := marshal(o).value] else s
  }

  function Replay(marshal: Marshal, s: Store, es: seq<Event>): Store {
    if es == [] then s else Apply(marshal, Replay(marshal, s, Init(es)), Last(es))
  }

  /** The batch a diff produces: additions, then deletions, then updates. */
  function DiffEvents(marshal: Marshal, xs: seq<Object>, ys: seq<Object>): seq<Event> {
    Batch(EventAdd, Fresh(xs, ys)) + Batch(EventDelete, Fresh(ys, xs)) + Batch(EventUpdate, Updated(marshal, xs, ys))
  }

  /** All objects of both lists belong to the family with prefix `p`. */
  ghost predicate Family(p: string, xs: seq<Object>) {
    forall x :: x in xs ==> Prefix(x) == p
  }

  lemma {:induction false} ReplayConcat(marshal: Marshal, s: Store, a: seq<Event>, b: seq<Event>)
    ensures Replay(marshal, s, a + b) == Replay(marshal, Replay(marshal, s, a), b)
  {
    if b == [] {
      assert a + b == a;
    } else {
      assert Init(a + b) == a + Init(b) && Last(a + b) == Last(b);
      ReplayConcat(marshal, s, a, Init(b));
    }
  }

  lemma {:induction false} ReplayPuts(marshal: Marshal, s: Store, t: EventType, xs: seq<Object>)
    requires Total(marshal) && t != EventDelete
    ensures Replay(marshal, s, Batch(t, xs)) == s + View(marshal, xs)
  {
    if xs != [] {
      var k, v := Key(Last(xs)), Text(marshal, Last(xs));
      ReplayPuts(marshal, s, t, Init(xs));
      BatchSnoc(marshal, s, t, xs);
      MapPut(s, View(marshal, Init(xs)), k, v);
    } else {
      assert s + map[] == s;
    }
  }

  lemma BatchSnoc(marshal: Marshal, s: Store, t: EventType, xs: seq<Object>)
    requires xs != []
    ensures Replay(marshal, s, Batch(t, xs)) ==
            Apply(marshal, Replay(marshal, s, Batch(t, Init(xs))), MakeEvent(t, Last(xs)))
  {
    var es := Batch(t, xs);
    assert Init(es) == Batch(t, Init(xs)) && Last(es) == MakeEvent(t, Last(xs));
  }

  lemma MapPut(s: Store, v: Store, k: string, x: string)
    ensures (s + v)[k := x] == s + v[k := x]
  {
  }

  lemma {:induction false} ReplayDeletes(marshal: Marshal, s: Store, xs: seq<Object>)
    ensures Replay(marshal, s, Batch(EventDelete, xs)) == s - View(marshal, xs).Keys
  {
    if xs != [] {
      ReplayDeletes(marshal, s, Init(xs));
      BatchSnoc(marshal, s, EventDelete, xs);
      MapDelete(s, View(marshal, Init(xs)), Key(Last(xs)), Text(marshal, Last(xs)));
    }
  }

  lemma MapDelete(s: Store, v: Store, k: string, x: string)
    ensures s - v.Keys - {k} == s - v[k := x].Keys
  {
  }

  /** A list's id index and its key view say the same thing. */
  lemma {:induction false} IndexIsView(marshal: Marshal, p: string, xs: seq<Object>, id: string)
    requires Family(p, xs)
    ensures id in Index(xs) <==> p + id in View(marshal, xs)
    ensures id in Index(xs) ==> Index(xs)[id].id == id && Prefix(Index(xs)[id]) == p
    ensures id in Index(xs) ==> View(marshal, xs)[p + id] == Text(marshal, Index(xs)[id])
  {
    if xs != [] {
      var x := Last(xs);
      assert x in xs && Family(p, Init(xs));
      PrefixInjective(p, id, x.id);
      IndexIsView(marshal, p, Init(xs), id);
    }
  }

  /** A key of the view is the key of one of the objects, and conversely. */
  lemma {:induction false} ViewKeys(marshal: Marshal, xs: seq<Object>, k: string)
    ensures k in View(marshal, xs) <==> exists x :: x in xs && Key(x) == k
  {
    if xs != [] {
      ViewKeys(marshal, Init(xs), k);
      InitLast(xs);
    }
  }

  lemma OneView(marshal: Marshal, x: Object)
    ensures View(marshal, [x]) == map[Key(x) := Text(marshal, x)]
  {
    hide Key;
    assert Init([x]) == [] && Last([x]) == x;
    assert View(marshal, []) == map[];
  }

  lemma {:induction false} FreshView(marshal: Marshal, p: string, xs: seq<Object>, ys: seq<Object>)
    requires Family(p, xs) && Family(p, ys)
    ensures View(marshal, Fresh(xs, ys)) == View(marshal, ys) - View(marshal, xs).Keys
    ensures Family(p, Fresh(xs, ys))
  {
    if ys != [] {
      var y := Last(ys);
      assert y in ys && Family(p, Init(ys));
      FreshView(marshal, p, xs, Init(ys));
      IndexIsView(marshal, p, xs, y.id);
      var v, ks := View(marshal, Init(ys)), View(marshal, xs).Keys;
      if y.id !in Index(xs) {
        assert Init(Fresh(xs, ys)) == Fresh(xs, Init(ys)) && Last(Fresh(xs, ys)) == y;
        MapPutOutside(v, ks, Key(y), Text(marshal, y));
      } else {
        assert Fresh(xs, ys) == Fresh(xs, Init(ys));
        MapPutInside(v, ks, Key(y), Text(marshal, y));
      }
    }
  }

  lemma MapPutOutside(v: Store, ks: set<string>, k: string, x: string)
    requires k !in ks
    ensures (v - ks)[k := x] == v[k := x] - ks
  {
  }

  lemma MapPutInside(v: Store, ks: set<string>, k: string, x: string)
    requires k in ks
    ensures v - ks == v[k := x] - ks
  {
  }

  /** Updates write the new text, and a key in both lists that gets no update already had it. */
  lemma {:induction false} UpdatedView(marshal: Marshal, p: string, xs: seq<Object>, ys: seq<Object>)
    requires Family(p, xs) && Family(p, ys)
    ensures forall k :: k in View(marshal, Updated(marshal, xs, ys)) ==>
              k in View(marshal, xs) && k in View(marshal, ys) &&
              View(marshal, Updated(marshal, xs, ys))[k] == View(marshal, ys)[k]
    ensures forall k :: k in View(marshal, xs) && k in View(marshal, ys) &&
                        k !in View(marshal, Updated(marshal, xs, ys)) ==>
              View(marshal, xs)[k] == View(marshal, ys)[k]
  {
    if xs != [] {
      var x := Last(xs);
      assert x in xs && Family(p, Init(xs)) && Key(x) == p + x.id;
      UpdatedView(marshal, p, Init(xs), ys);
      IndexIsView(marshal, p, ys, x.id);
      if x.id in Index(ys) && Changed(marshal, x, Index(ys)[x.id]) {
        var us := Updated(marshal, xs, ys);
        assert Init(us) == Updated(marshal, Init(xs), ys) && Last(us) == Index(ys)[x.id];
        assert Key(Last(us)) == Key(x);
      } else {
        assert Updated(marshal, xs, ys) == Updated(marshal, Init(xs), ys);
      }
    }
  }

  /**
   Diff/patch soundness, for any two lists of one family, with or without repeated ids: on a
   store that shows the old list, replaying the diff replaces the old list's view by the new
   one's and touches no other key.
   */
  lemma PatchSound(marshal: Marshal, p: string, xs: seq<Object>, ys: seq<Object>, s: Store)
    requires Total(marshal) && Family(p, xs) && Family(p, ys)
    requires forall k :: k in View(marshal, xs) ==> k in s && s[k] == View(marshal, xs)[k]
    ensures Replay(marshal, s, DiffEvents(marshal, xs, ys)) == (s - View(marshal, xs).Keys) + View(marshal, ys)
  {
    var a, d, u := Fresh(xs, ys), Fresh(ys, xs), Updated(marshal, xs, ys);
    var s1 := s + View(marshal, a);
    var s2 := s1 - View(marshal, d).Keys;
    ReplayConcat(marshal, s, Batch(EventAdd, a) + Batch(EventDelete, d), Batch(EventUpdate, u));
    ReplayConcat(marshal, s, Batch(EventAdd, a), Batch(EventDelete, d));
    ReplayPuts(marshal, s, EventAdd, a);
    ReplayDeletes(marshal, s1, d);
    ReplayPuts(marshal, s2, EventUpdate, u);
    FreshView(marshal, p, xs, ys);
    FreshView(marshal, p, ys, xs);
    UpdatedView(marshal, p, xs, ys);
    MapPatch(s, View(marshal, xs), View(marshal, ys), View(marshal, u));
  }

  /** The same argument on the views alone. */
  lemma MapPatch(s: Store, vx: Store, vy: Store, vu: Store)
    requires forall k :: k in vx ==> k in s && s[k] == vx[k]
    requires forall k :: k in vu ==> k in vx && k in vy && vu[k] == vy[k]
    requires forall k :: k in vx && k in vy && k !in vu ==> vx[k] == vy[k]
    ensures ((s + (vy - vx.Keys)) - (vx - vy.Keys).Keys) + vu == (s - vx.Keys) + vy
  {
    var r, want := ((s + (vy - vx.Keys)) - (vx - vy.Keys).Keys) + vu, (s - vx.Keys) + vy;
    assert r.Keys == want.Keys;
    forall k | k in want ensures r[k] == want[k] {
      if k in vy && k in vx && k !in vu {
        assert vx[k] == vy[k];
      }
    }
  }

  ghost predicate DistinctIds(xs: seq<Object>) {
    forall i, j :: 0 <= i < j < |xs| ==> xs[i].id != xs[j].id
  }

  function Lookup(s: Store, k: string): Option<string> {
    if k in s then Some(s[k]) else None
  }

  /** How many events of a batch concern key `k`. */
  function EventCount(es: seq<Event>, k: string): nat {
    if es == [] then 0 else EventCount(Init(es), k) + if Last(es).key == k then 1 else 0
  }

  lemma {:induction false} CountConcat(a: seq<Event>, b: seq<Event>, k: string)
    ensures EventCount(a + b, k) == EventCount(a, k) + EventCount(b, k)
  {
    if b == [] {
      assert a + b == a;
    } else {
      assert Init(a + b) == a + Init(b) && Last(a + b) == Last(b);
      CountConcat(a, Init(b), k);
    }
  }

  lemma CountSnoc(t: EventType, xs: seq<Object>, k: string)
    requires xs != []
    ensures EventCount(Batch(t, xs), k) == EventCount(Batch(t, Init(xs)), k) + if Key(Last(xs)) == k then 1 else 0
  {
    var es := Batch(t, xs);
    assert Init(es) == Batch(t, Init(xs)) && Last(es) == MakeEvent(t, Last(xs));
  }

  lemma {:induction false} CountFresh(marshal: Marshal, t: EventType, p: string, xs: seq<Object>, ys: seq<Object>,
                                      k: string)
    requires Family(p, xs) && Family(p, ys) && DistinctIds(ys)
    ensures EventCount(Batch(t, Fresh(xs, ys)), k) == if k in View(marshal, ys) && k !in View(marshal, xs) then 1 else 0
  {
    hide Batch, EventCount, Text;
    if ys == [] {
      CountNone(t, k);
    } else {
      var y := Last(ys);
      assert y in ys && Family(p, Init(ys));
      CountFresh(marshal, t, p, xs, Init(ys), k);
      IndexIsView(marshal, p, xs, y.id);
      LastIsNew(marshal, p, ys);
      if y.id !in Index(xs) {
        var zs := Fresh(xs, ys);
        assert Init(zs) == Fresh(xs, Init(ys)) && Last(zs) == y;
        CountSnoc(t, zs, k);
      } else {
        assert Fresh(xs, ys) == Fresh(xs, Init(ys));
      }
    }
  }

  lemma LastIsNew(marshal: Marshal, p: string, xs: seq<Object>)
    requires Family(p, xs) && DistinctIds(xs) && xs != []
    ensures Key(Last(xs)) !in View(marshal, Init(xs))
  {
    var x := Last(xs);
    ViewKeys(marshal, Init(xs), Key(x));
    forall y | y in Init(xs) ensures Key(y) != Key(x) {
      assert y in xs;
      KeyInjective(x, y);
    }
  }

  lemma CountUpdateOf(marshal: Marshal, p: string, x: Object, ys: seq<Object>, k: string)
    requires Total(marshal) && Prefix(x) == p && Family(p, ys)
    ensures EventCount(Batch(EventUpdate, UpdateOf(marshal, x, ys)), k) ==
            if Key(x) == k && k in View(marshal, ys) && Text(marshal, x) != View(marshal, ys)[k] then 1 else 0
  {
    IndexIsView(marshal, p, ys, x.id);
    assert marshal(x).Some?;
    if x.id in Index(ys) {
      var y := Index(ys)[x.id];
      assert marshal(y).Some? && Key(y) == Key(x);
      assert Init([y]) == [] && Last([y]) == y;
      CountSnoc(EventUpdate, [y], k);
    }
  }

  lemma UpdateOfSize(marshal: Marshal, x: Object, ys: seq<Object>)
    ensures |UpdateOf(marshal, x, ys)| <= 1
  {
  }

  lemma CountNone(t: EventType, k: string)
    ensures EventCount(Batch(t, []), k) == 0
  {
  }

  lemma BatchConcat(t: EventType, a: seq<Object>, b: seq<Object>)
    requires |b| <= 1
    ensures Batch(t, a + b) == Batch(t, a) + Batch(t, b)
  {
    if b == [] {
      assert a + b == a;
    } else {
      assert Init(a + b) == a && Last(a + b) == b[0];
      assert Init(b) == [] && Last(b) == b[0];
    }
  }

  lemma {:induction false} CountUpdated(marshal: Marshal, p: string, xs: seq<Object>, ys: seq<Object>, k: string)
    requires Total(marshal) && Family(p, xs) && Family(p, ys) && DistinctIds(xs)
    ensures EventCount(Batch(EventUpdate, Updated(marshal, xs, ys)), k) ==
            if k in View(marshal, xs) && k in View(marshal, ys) && View(marshal, xs)[k] != View(marshal, ys)[k]
            then 1 else 0
  {
    hide UpdateOf, Batch, EventCount, Key, Text;
    if xs == [] {
      CountNone(EventUpdate, k);
    } else {
      var a, b := Updated(marshal, Init(xs), ys), UpdateOf(marshal, Last(xs), ys);
      assert Last(xs) in xs && Family(p, Init(xs));
      CountUpdated(marshal, p, Init(xs), ys, k);
      CountUpdateOf(marshal, p, Last(xs), ys, k);
      UpdateOfSize(marshal, Last(xs), ys);
      BatchConcat(EventUpdate, a, b);
      CountConcat(Batch(EventUpdate, a), Batch(EventUpdate, b), k);
      LastIsNew(marshal, p, xs);
    }
  }

  /** The diff is minimal: with distinct ids, a changed key gets exactly one event and an unchanged one none. */
  lemma DiffMinimal(marshal: Marshal, p: string, xs: seq<Object>, ys: seq<Object>, k: string)
    requires Total(marshal) && Family(p, xs) && Family(p, ys) && DistinctIds(xs) && DistinctIds(ys)
    ensures EventCount(DiffEvents(marshal, xs, ys), k) ==
            if Lookup(View(marshal, xs), k) == Lookup(View(marshal, ys), k) then 0 else 1
  {
    var a, d, u :=
      Batch(EventAdd, Fresh(xs, ys)), Batch(EventDelete, Fresh(ys, xs)), Batch(EventUpdate, Updated(marshal, xs, ys));
    CountConcat(a + d, u, k);
    CountConcat(a, d, k);
    CountFresh(marshal, EventAdd, p, xs, ys, k);
    CountFresh(marshal, EventDelete, p, ys, xs, k);
    CountUpdated(marshal, p, xs, ys, k);
  }

  lemma {:induction false} FreshOfSubset(ys: seq<Object>, xs: seq<Object>)
    requires Index(xs).Keys <= Index(ys).Keys
    ensures Fresh(ys, xs) == []
  {
    if xs != [] {
      FreshOfSubset(ys, Init(xs));
    }
  }

  lemma {:induction false} UpdatedEmpty(marshal: Marshal, xs: seq<Object>, ys: seq<Object>)
    ensures Updated(marshal, xs, ys) == [] <==>
            forall x :: x in xs && x.id in Index(ys) ==> !Changed(marshal, x, Index(ys)[x.id])
  {
    if xs != [] {
      UpdatedEmpty(marshal, Init(xs), ys);
      InitLast(xs);
    }
  }

  /**
   Comparing a list with itself is silent exactly when objects that share an id share their
   text; a list that repeats an id with two texts emits an update every time.
   */
  lemma SelfDiffSilent(marshal: Marshal, xs: seq<Object>)
    requires Total(marshal)
    ensures DiffEvents(marshal, xs, xs) == [] <==>
            forall x, y :: x in xs && y in xs && x.id == y.id ==> marshal(x) == marshal(y)
  {
    FreshOfSubset(xs, xs);
    UpdatedEmpty(marshal, xs, xs);
    var us := Updated(marshal, xs, xs);
    assert us != [] ==> |Batch(EventUpdate, us)| > 0;
    forall x | x in xs
      ensures x.id in Index(xs) && Index(xs)[x.id] in xs && Index(xs)[x.id].id == x.id
    {
      IndexMember(xs, x);
    }
    if forall x :: x in xs && x.id in Index(xs) ==> !Changed(marshal, x, Index(xs)[x.id]) {
      forall x, y | x in xs && y in xs && x.id == y.id ensures marshal(x) == marshal(y) {
        assert !Changed(marshal, x, Index(xs)[x.id]) && !Changed(marshal, y, Index(xs)[y.id]);
      }
    }
  }

  lemma {:induction false} IndexMember(xs: seq<Object>, x: Object)
    requires x in xs
    ensures x.id in Index(xs) && Index(xs)[x.id] in xs && Index(xs)[x.id].id == x.id
  {
    if x != Last(xs) && x.id != Last(xs).id {
      InitLast(xs);
      IndexMember(Init(xs), x);
    }
  }

  lemma {:induction false} IndexKeys(xs: seq<Object>, id: string)
    ensures id in Index(xs) <==> exists x :: x in xs && x.id == id
  {
    if xs != [] {
      InitLast(xs);
      IndexKeys(Init(xs), id);
    }
  }

  /**
   The additions, and the other way round the deletions: the objects whose id no object of the
   other list has, in order.
   */
  lemma {:induction false} FreshExact(xs: seq<Object>, a: seq<Object>, b: seq<Object>, y: Object)
    ensures y in Fresh(xs, a) <==> y in a && forall x :: x in xs ==> x.id != y.id
    ensures Fresh(xs, a + b) == Fresh(xs, a) + Fresh(xs, b)
  {
    FreshConcat(xs, a, b);
    FreshIff(xs, a, y);
  }

  lemma {:induction false} FreshIff(xs: seq<Object>, ys: seq<Object>, y: Object)
    ensures y in Fresh(xs, ys) <==> y in ys && forall x :: x in xs ==> x.id != y.id
  {
    if ys != [] {
      InitLast(ys);
      FreshIff(xs, Init(ys), y);
      IndexKeys(xs, Last(ys).id);
    }
  }

  lemma {:induction false} FreshConcat(xs: seq<Object>, a: seq<Object>, b: seq<Object>)
    ensures Fresh(xs, a + b) == Fresh(xs, a) + Fresh(xs, b)
  {
    hide Index;
    if b == [] {
      assert a + b == a;
    } else {
      assert Init(a + b) == a + Init(b) && Last(a + b) == Last(b);
      FreshConcat(xs, a, Init(b));
    }
  }
}
