/**
 Each batch is sent from its own goroutine. How much of the order of the batches the final
 store depends on.
 */
module Interleaving {
  import opened GoTypes
  import opened Apisix
  import opened Diff
  import opened Agreement
  import opened Synchroniser

  ghost predicate KeysDisjoint(a: seq<Event>, b: seq<Event>) {
    forall x, y :: x in a && y in b ==> x.key != y.key
  }

  lemma SameLookups(s: Store, t: Store)
    requires forall k :: Lookup(s, k) == Lookup(t, k)
    ensures s == t
  {
    assert forall k :: (k in s <==> Lookup(s, k).Some?) && (k in t <==> Lookup(t, k).Some?);
    assert s.Keys == t.Keys;
    forall k | k in s ensures s[k] == t[k] {
      assert Lookup(s, k) == Lookup(t, k);
    }
  }

  /** What a batch does to a key in the end. */
  datatype Effect = Kept | Put(text: string) | Gone

  function EffectOf(marshal: Marshal, es: seq<Event>, k: string): Effect {
    if es == [] then Kept
    else
      var e := Last(es);
      if e.key != k then EffectOf(marshal, Init(es), k)
      else if e.DeleteEvent? then Gone
      else if marshal(e.payload).Some? then Put(marshal(e.payload).value)
      else EffectOf(marshal, Init(es), k)
  }

  function ApplyEffect(effect: Effect, before: Option<string>): Option<string> {
    match effect
    case Kept => before
    case Put(text) => Some(text)
    case Gone => None
  }

  /** Replaying a batch gives every key its effect. */
  lemma {:induction false} ReplayEffect(marshal: Marshal, s: Store, es: seq<Event>, k: string)
    ensures Lookup(Replay(marshal, s, es), k) == ApplyEffect(EffectOf(marshal, es, k), Lookup(s, k))
  {
    if es != [] {
      ReplayEffect(marshal, s, Init(es), k);
    }
  }

  ghost predicate Harmless(marshal: Marshal, a: seq<Event>, b: seq<Event>, k: string) {
    EffectOf(marshal, a, k) == Kept || EffectOf(marshal, b, k) == Kept ||
    EffectOf(marshal, a, k) == EffectOf(marshal, b, k)
  }

  /**
   The exact condition for the order of two batches not to matter, on any store: no key is given
   two different ends by them.
   */
  lemma CommuteIff(marshal: Marshal, s: Store, a: seq<Event>, b: seq<Event>)
    ensures Replay(marshal, Replay(marshal, s, a), b) == Replay(marshal, Replay(marshal, s, b), a) <==>
            forall k :: Harmless(marshal, a, b, k)
  {
    hide Replay, EffectOf;
    var sa, sb := Replay(marshal, s, a), Replay(marshal, s, b);
    var ab, ba := Replay(marshal, sa, b), Replay(marshal, sb, a);
    forall k
      ensures Lookup(ab, k) == Lookup(ba, k) <==> Harmless(marshal, a, b, k)
    {
      ReplayEffect(marshal, s, a, k);
      ReplayEffect(marshal, s, b, k);
      ReplayEffect(marshal, sa, b, k);
      ReplayEffect(marshal, sb, a, k);
    }
    if forall k :: Harmless(marshal, a, b, k) {
      SameLookups(ab, ba);
    }
  }

  lemma {:induction false} NoEffect(marshal: Marshal, es: seq<Event>, k: string)
    requires forall e :: e in es ==> e.key != k
    ensures EffectOf(marshal, es, k) == Kept
  {
    if es != [] {
      InitLast(es);
      NoEffect(marshal, Init(es), k);
    }
  }

  /** Batches about different keys commute. */
  lemma BatchesCommute(marshal: Marshal, s: Store, a: seq<Event>, b: seq<Event>)
    requires KeysDisjoint(a, b)
    ensures Replay(marshal, Replay(marshal, s, a), b) == Replay(marshal, Replay(marshal, s, b), a)
  {
    hide Replay, EffectOf;
    forall k ensures Harmless(marshal, a, b, k) {
      if forall e :: e in a ==> e.key != k {
        NoEffect(marshal, a, k);
      } else {
        NoEffect(marshal, b, k);
      }
    }
    CommuteIff(marshal, s, a, b);
  }

  lemma {:induction false} EffectConcat(marshal: Marshal, a: seq<Event>, b: seq<Event>, k: string)
    ensures EffectOf(marshal, a + b, k) ==
            if EffectOf(marshal, b, k) == Kept then EffectOf(marshal, a, k) else EffectOf(marshal, b, k)
  {
    if b == [] {
      assert a + b == a;
    } else {
      assert Init(a + b) == a + Init(b) && Last(a + b) == Last(b);
      EffectConcat(marshal, a, Init(b), k);
    }
  }

  /** The effect of a batch of one kind: it writes, or removes, the view of its objects. */
  lemma {:induction false} BatchEffect(marshal: Marshal, t: EventType, xs: seq<Object>, k: string)
    requires Total(marshal)
    ensures EffectOf(marshal, Batch(t, xs), k) ==
            if k !in View(marshal, xs) then Kept else if t.EventDelete? then Gone else Put(View(marshal, xs)[k])
  {
    hide Key;
    if xs != [] {
      BatchEffect(marshal, t, Init(xs), k);
      var es := Batch(t, xs);
      assert Init(es) == Batch(t, Init(xs)) && Last(es) == MakeEvent(t, Last(xs));
      assert marshal(Last(xs)).Some?;
    }
  }

  /** A key of both lists that some old object shows with another text than the new list. */
  ghost predicate Rewritten(marshal: Marshal, xs: seq<Object>, ys: seq<Object>, k: string) {
    && k in View(marshal, xs) && k in View(marshal, ys)
    && exists x :: x in xs && Key(x) == k && Text(marshal, x) != View(marshal, ys)[k]
  }

  lemma {:induction false} UpdatedKeys(marshal: Marshal, p: string, xs: seq<Object>, ys: seq<Object>, k: string)
    requires Total(marshal) && Family(p, xs) && Family(p, ys)
    ensures k in View(marshal, Updated(marshal, xs, ys)) <==>
            k in View(marshal, ys) && exists x :: x in xs && Key(x) == k && Text(marshal, x) != View(marshal, ys)[k]
  {
    if xs != [] {
      var x := Last(xs);
      InitLast(xs);
      UpdatedKeys(marshal, p, Init(xs), ys, k);
      UpdatedOne(marshal, p, x, ys);
      var us, more := Updated(marshal, Init(xs), ys), UpdateOf(marshal, x, ys);
      if more == [] {
        assert us + more == us;
      } else {
        assert more == [more[0]];
        ViewPush(marshal, us, more[0], k);
      }
    }
  }

  lemma UpdatedOne(marshal: Marshal, p: string, x: Object, ys: seq<Object>)
    requires Total(marshal) && Prefix(x) == p && Family(p, ys)
    ensures var more := UpdateOf(marshal, x, ys);
            && |more| <= 1 && (more != [] ==> Key(more[0]) == Key(x))
            && (more != [] <==> Key(x) in View(marshal, ys) && Text(marshal, x) != View(marshal, ys)[Key(x)])
  {
    IndexIsView(marshal, p, ys, x.id);
    if x.id in Index(ys) {
      var y := Index(ys)[x.id];
      assert marshal(x).Some? && marshal(y).Some?;
    }
  }

  /**
   The effect of a diff on a key, for any two lists of one family, repeated ids included: the key
   is left alone if it is in neither list, or in both and every old object of it has the new text
   already; otherwise it is given its new text or removed.
   */
  lemma DiffEffect(marshal: Marshal, p: string, xs: seq<Object>, ys: seq<Object>, k: string)
    requires Total(marshal) && Family(p, xs) && Family(p, ys)
    ensures var v, w := View(marshal, xs), View(marshal, ys);
            EffectOf(marshal, DiffEvents(marshal, xs, ys), k) ==
            if k in w && (k !in v || Rewritten(marshal, xs, ys, k)) then Put(w[k])
            else if k in v && k !in w then Gone
            else Kept
  {
    hide View, EffectOf, Batch, Fresh, Updated, Key;
    var add, delete, update := Batch(EventAdd, Fresh(xs, ys)), Batch(EventDelete, Fresh(ys, xs)),
      Batch(EventUpdate, Updated(marshal, xs, ys));
    EffectConcat(marshal, add + delete, update, k);
    EffectConcat(marshal, add, delete, k);
    BatchEffect(marshal, EventAdd, Fresh(xs, ys), k);
    BatchEffect(marshal, EventDelete, Fresh(ys, xs), k);
    BatchEffect(marshal, EventUpdate, Updated(marshal, xs, ys), k);
    FreshView(marshal, p, xs, ys);
    FreshView(marshal, p, ys, xs);
    UpdatedView(marshal, p, xs, ys);
    UpdatedKeys(marshal, p, xs, ys, k);
  }

  /** Does the diff say anything about the key? */
  ghost predicate Touched(marshal: Marshal, xs: seq<Object>, ys: seq<Object>, k: string) {
    (k in View(marshal, xs) <==> k !in View(marshal, ys)) || Rewritten(marshal, xs, ys, k)
  }

  /** No key is touched twice, unless both times it is given the same text. */
  ghost predicate TouchedOnce(marshal: Marshal, xs: seq<Object>, ys: seq<Object>, zs: seq<Object>, k: string) {
    || !Touched(marshal, xs, ys, k) || !Touched(marshal, ys, zs, k)
    || (Lookup(View(marshal, ys), k).Some? && Lookup(View(marshal, ys), k) == Lookup(View(marshal, zs), k))
  }

  /**
   The same for two successive swaps of one list, repeated ids included: delivered the other way
   round they give the same store if and only if no key is touched by both, unless both times it
   is given the same text.
   */
  lemma SuccessiveSwaps(marshal: Marshal, p: string, xs: seq<Object>, ys: seq<Object>, zs: seq<Object>, s: Store)
    requires Total(marshal) && Family(p, xs) && Family(p, ys) && Family(p, zs)
    ensures var first, second := DiffEvents(marshal, xs, ys), DiffEvents(marshal, ys, zs);
            Replay(marshal, Replay(marshal, s, first), second) ==
            Replay(marshal, Replay(marshal, s, second), first) <==>
            forall k :: TouchedOnce(marshal, xs, ys, zs, k)
  {
    hide DiffEvents, View, EffectOf, Replay;
    var first, second := DiffEvents(marshal, xs, ys), DiffEvents(marshal, ys, zs);
    CommuteIff(marshal, s, first, second);
    forall k
      ensures Harmless(marshal, first, second, k) <==> TouchedOnce(marshal, xs, ys, zs, k)
    {
      DiffEffect(marshal, p, xs, ys, k);
      DiffEffect(marshal, p, ys, zs, k);
    }
  }

  /** Without repeated ids a key is touched exactly when its text changes. */
  lemma TouchedDistinct(marshal: Marshal, p: string, xs: seq<Object>, ys: seq<Object>, k: string)
    requires Family(p, xs) && DistinctIds(xs)
    ensures Touched(marshal, xs, ys, k) <==> Lookup(View(marshal, xs), k) != Lookup(View(marshal, ys), k)
  {
    hide View;
    forall x | x in xs ensures Key(x) in View(marshal, xs) && View(marshal, xs)[Key(x)] == Text(marshal, x) {
      DistinctView(marshal, p, xs, x);
    }
    ViewKeys(marshal, xs, k);
  }

  lemma {:induction false} DistinctView(marshal: Marshal, p: string, xs: seq<Object>, x: Object)
    requires Family(p, xs) && DistinctIds(xs) && x in xs
    ensures Key(x) in View(marshal, xs) && View(marshal, xs)[Key(x)] == Text(marshal, x)
  {
    InitLast(xs);
    KeyInjective(x, Last(xs));
    assert Last(xs) in xs;
    if x != Last(xs) {
      DistinctView(marshal, p, Init(xs), x);
      var i :| 0 <= i < |xs| && xs[i] == x;
    }
  }

  function ReplayAll(marshal: Marshal, s: Store, batches: seq<seq<Event>>): Store {
    if batches == [] then s else Replay(marshal, ReplayAll(marshal, s, Init(batches)), Last(batches))
  }

  /** `zs` interleaves `xs` and `ys`, keeping the order within each. */
  ghost predicate IsMerge(xs: seq<seq<Event>>, ys: seq<seq<Event>>, zs: seq<seq<Event>>)
    decreases |zs|
  {
    if zs == [] then xs == [] && ys == []
    else
      || (xs != [] && Last(zs) == Last(xs) && IsMerge(Init(xs), ys, Init(zs)))
      || (ys != [] && Last(zs) == Last(ys) && IsMerge(xs, Init(ys), Init(zs)))
  }

  ghost predicate AllRouteKeys(batches: seq<seq<Event>>) {
    forall b :: b in batches ==> OnlyRouteKeys(b)
  }

  ghost predicate AllUpstreamKeys(batches: seq<seq<Event>>) {
    forall b :: b in batches ==> OnlyUpstreamKeys(b)
  }

  lemma FamilyBatchesDisjoint(a: seq<Event>, b: seq<Event>)
    requires OnlyUpstreamKeys(a) && OnlyRouteKeys(b)
    ensures KeysDisjoint(a, b)
  {
    forall e, f | e in a && f in b ensures e.key != f.key {
      FamiliesDisjoint(f.key);
      assert IsUpstreamKey(e.key) && IsRouteKey(f.key);
    }
  }

  /** The order of the two batches does not matter. */
  ghost predicate Swappable(marshal: Marshal, a: seq<Event>, b: seq<Event>) {
    forall k :: Harmless(marshal, a, b, k)
  }

  lemma {:induction false} PastBatches(marshal: Marshal, s: Store, ys: seq<seq<Event>>, x: seq<Event>)
    requires forall y :: y in ys ==> Swappable(marshal, y, x)
    ensures Replay(marshal, ReplayAll(marshal, s, ys), x) == ReplayAll(marshal, Replay(marshal, s, x), ys)
  {
    hide Swappable;
    if ys != [] {
      InitLast(ys);
      PastBatches(marshal, s, Init(ys), x);
      assert Swappable(marshal, Last(ys), x);
      SwappableCommutes(marshal, ReplayAll(marshal, s, Init(ys)), Last(ys), x);
    }
  }

  lemma SwappableCommutes(marshal: Marshal, s: Store, a: seq<Event>, b: seq<Event>)
    requires Swappable(marshal, a, b)
    ensures Replay(marshal, Replay(marshal, s, a), b) == Replay(marshal, Replay(marshal, s, b), a)
  {
    CommuteIff(marshal, s, a, b);
  }

  lemma DisjointSwappable(marshal: Marshal, a: seq<Event>, b: seq<Event>)
    requires KeysDisjoint(a, b)
    ensures Swappable(marshal, a, b)
  {
    BatchesCommute(marshal, map[], a, b);
    CommuteIff(marshal, map[], a, b);
  }

  lemma PastUpstreams(marshal: Marshal, s: Store, ys: seq<seq<Event>>, x: seq<Event>)
    requires AllUpstreamKeys(ys) && OnlyRouteKeys(x)
    ensures Replay(marshal, ReplayAll(marshal, s, ys), x) == ReplayAll(marshal, Replay(marshal, s, x), ys)
  {
    hide Swappable;
    forall y | y in ys ensures Swappable(marshal, y, x) {
      FamilyBatchesDisjoint(y, x);
      DisjointSwappable(marshal, y, x);
    }
    PastBatches(marshal, s, ys, x);
  }

  // Any number of batches in any order.

  lemma {:induction false} ReplayAllConcat(marshal: Marshal, s: Store, a: seq<seq<Event>>, b: seq<seq<Event>>)
    ensures ReplayAll(marshal, s, a + b) == ReplayAll(marshal, ReplayAll(marshal, s, a), b)
  {
    if b == [] {
      assert a + b == a;
    } else {
      assert Init(a + b) == a + Init(b) && Last(a + b) == Last(b);
      ReplayAllConcat(marshal, s, a, Init(b));
    }
  }

  ghost predicate Below(indices: seq<nat>, n: nat) {
    forall i :: 0 <= i < |indices| ==> indices[i] < n
  }

  ghost predicate Increasing(indices: seq<nat>) {
    forall i, j :: 0 <= i < j < |indices| ==> indices[i] < indices[j]
  }

  /** The batches with the given indices. */
  ghost function Pick(batches: seq<seq<Event>>, indices: seq<nat>): seq<seq<Event>>
    requires Below(indices, |batches|)
  {
    seq(|indices|, i requires 0 <= i < |indices| => batches[indices[i]])
  }

  /** Whenever a later batch is delivered before an earlier one, the two are swappable. */
  ghost predicate InversionsSwappable(marshal: Marshal, batches: seq<seq<Event>>, delivered: seq<nat>)
    requires Below(delivered, |batches|)
  {
    forall i, j :: 0 <= i < j < |delivered| && delivered[i] > delivered[j] ==>
      Swappable(marshal, batches[delivered[i]], batches[delivered[j]])
  }

  /** Moving one batch to the end, past batches that it can be swapped with. */
  lemma MoveLast(marshal: Marshal, s: Store, batches: seq<seq<Event>>, a: seq<nat>, m: nat, b: seq<nat>)
    requires Below(a, |batches|) && m < |batches| && Below(b, |batches|)
    requires forall i :: 0 <= i < |b| ==> Swappable(marshal, batches[b[i]], batches[m])
    ensures Below(a + [m] + b, |batches|) && Below(a + b, |batches|)
    ensures ReplayAll(marshal, s, Pick(batches, a + [m] + b)) ==
            Replay(marshal, ReplayAll(marshal, s, Pick(batches, a + b)), batches[m])
  {
    hide Swappable, Replay, ReplayAll;
    var x, y, z := Pick(batches, a), batches[m], Pick(batches, b);
    assert Pick(batches, a + [m] + b) == (x + [y]) + z && Pick(batches, a + b) == x + z;
    ReplayAllConcat(marshal, s, x + [y], z);
    ReplayAllPush(marshal, s, x, y);
    ReplayAllConcat(marshal, s, x, z);
    PastBatches(marshal, ReplayAll(marshal, s, x), z, y);
  }

  lemma RemoveAt(indices: seq<nat>, p: nat)
    requires p < |indices| && Increasing(indices)
    ensures indices == indices[..p] + [indices[p]] + indices[p + 1..]
    ensures Increasing(indices[..p] + indices[p + 1..])
    ensures multiset(indices) == multiset(indices[..p] + indices[p + 1..]) + multiset{indices[p]}
  {
    assert indices == indices[..p] + [indices[p]] + indices[p + 1..];
  }

  /**
   Any number of batches, delivered in any order: the store is the same as in the original order,
   if every pair that is delivered the wrong way round can be swapped.
   */
  lemma {:induction false} AnyOrder(marshal: Marshal, s: Store, batches: seq<seq<Event>>, inOrder: seq<nat>,
                                    delivered: seq<nat>)
    requires Below(inOrder, |batches|) && Below(delivered, |batches|) && Increasing(inOrder)
    requires multiset(delivered) == multiset(inOrder) && InversionsSwappable(marshal, batches, delivered)
    ensures ReplayAll(marshal, s, Pick(batches, delivered)) == ReplayAll(marshal, s, Pick(batches, inOrder))
    decreases |delivered|
  {
    hide Swappable, Replay, ReplayAll, Increasing;
    if delivered == [] {
      SameSize(delivered, inOrder);
      assert inOrder == delivered;
    } else {
      var m, rest := Last(delivered), Init(delivered);
      var p := LastRemoved(inOrder, delivered);
      var a, b := inOrder[..p], inOrder[p + 1..];
      assert inOrder == a + [m] + b;
      AnyOrder(marshal, s, batches, a + b, rest);
      forall i | 0 <= i < |b| ensures Swappable(marshal, batches[b[i]], batches[m]) {
        var j := DeliveredEarlier(inOrder, delivered, p, p + 1 + i);
        assert batches[b[i]] == batches[delivered[j]];
      }
      MoveLast(marshal, s, batches, a, m, b);
      assert Pick(batches, delivered) == Pick(batches, rest) + [batches[m]];
      ReplayAllPush(marshal, s, Pick(batches, rest), batches[m]);
    }
  }

  /** Taking the batch that is delivered last out of both orders. */
  lemma LastRemoved(inOrder: seq<nat>, delivered: seq<nat>) returns (p: nat)
    requires delivered != [] && multiset(delivered) == multiset(inOrder) && Increasing(inOrder)
    ensures p < |inOrder| && inOrder[p] == Last(delivered)
    ensures Increasing(inOrder[..p] + inOrder[p + 1..])
    ensures multiset(Init(delivered)) == multiset(inOrder[..p] + inOrder[p + 1..])
  {
    InitLast(delivered);
    var m := Last(delivered);
    assert multiset(delivered) == multiset(Init(delivered)) + multiset{m};
    assert m in multiset(inOrder);
    p :| 0 <= p < |inOrder| && inOrder[p] == m;
    RemoveAt(inOrder, p);
    Cancel(multiset(Init(delivered)), multiset(inOrder[..p] + inOrder[p + 1..]), m);
  }

  lemma Cancel(a: multiset<nat>, b: multiset<nat>, m: nat)
    requires a + multiset{m} == b + multiset{m}
    ensures a == b
  {
    assert a == a + multiset{m} - multiset{m};
    assert b == b + multiset{m} - multiset{m};
  }

  /** A batch that comes after it in the original order is delivered before it. */
  lemma DeliveredEarlier(inOrder: seq<nat>, delivered: seq<nat>, p: nat, q: nat) returns (j: nat)
    requires delivered != [] && multiset(delivered) == multiset(inOrder) && Increasing(inOrder)
    requires p < q < |inOrder| && inOrder[p] == Last(delivered)
    ensures j < |delivered| - 1 && delivered[j] == inOrder[q] > Last(delivered)
  {
    assert inOrder[q] in multiset(delivered);
    j :| 0 <= j < |delivered| && delivered[j] == inOrder[q];
  }

  lemma SameSize(a: seq<nat>, b: seq<nat>)
    requires multiset(a) == multiset(b)
    ensures |a| == |b|
  {
    assert |multiset(a)| == |a| && |multiset(b)| == |b|;
  }

  /** Any interleaving of route batches and upstream batches gives the same store. */
  lemma {:induction false} MergeIndependent(marshal: Marshal, s: Store, xs: seq<seq<Event>>, ys: seq<seq<Event>>,
                                            zs: seq<seq<Event>>)
    requires AllRouteKeys(xs) && AllUpstreamKeys(ys) && IsMerge(xs, ys, zs)
    ensures ReplayAll(marshal, s, zs) == ReplayAll(marshal, ReplayAll(marshal, s, xs), ys)
    decreases |zs|
  {
    if zs != [] {
      if xs != [] && Last(zs) == Last(xs) && IsMerge(Init(xs), ys, Init(zs)) {
        InitLast(xs);
        MergeIndependent(marshal, s, Init(xs), ys, Init(zs));
        PastUpstreams(marshal, ReplayAll(marshal, s, Init(xs)), ys, Last(xs));
      } else {
        InitLast(ys);
        MergeIndependent(marshal, s, xs, Init(ys), Init(zs));
      }
    }
  }

  /** The batches of a run that come from RDS responses and plugin updates. */
  ghost function RouteBatches(env: Env, inputs: seq<Input>): seq<seq<Event>> {
    if inputs == [] then []
    else
      RouteBatches(env, Init(inputs)) +
      if Last(inputs).Cds? || Last(inputs).Eds? then []
      else [Step(env, Run(env, Init(inputs)).state, Last(inputs)).batch]
  }

  /** The batches of a run that come from CDS and EDS responses. */
  ghost function UpstreamBatches(env: Env, inputs: seq<Input>): seq<seq<Event>> {
    if inputs == [] then []
    else
      UpstreamBatches(env, Init(inputs)) +
      if Last(inputs).Cds? || Last(inputs).Eds? then [Step(env, Run(env, Init(inputs)).state, Last(inputs)).batch]
      else []
  }

  lemma ReplayAllPush(marshal: Marshal, s: Store, bs: seq<seq<Event>>, b: seq<Event>)
    ensures ReplayAll(marshal, s, bs + [b]) == Replay(marshal, ReplayAll(marshal, s, bs), b)
    ensures AllRouteKeys(bs) && OnlyRouteKeys(b) ==> AllRouteKeys(bs + [b])
    ensures AllUpstreamKeys(bs) && OnlyUpstreamKeys(b) ==> AllUpstreamKeys(bs + [b])
  {
    assert Init(bs + [b]) == bs && Last(bs + [b]) == b;
  }

  lemma NoBatches(marshal: Marshal)
    ensures AllRouteKeys([]) && AllUpstreamKeys([]) && ReplayAll(marshal, map[], []) == map[]
  {
  }

  lemma {:induction false} RunByFamily(env: Env, inputs: seq<Input>, names: set<string>)
    requires Total(env.marshal) && InjectiveOn(env.genId, names) && NamesInPlay(inputs) <= names
    ensures AllRouteKeys(RouteBatches(env, inputs)) && AllUpstreamKeys(UpstreamBatches(env, inputs))
    ensures Run(env, inputs).store ==
            ReplayAll(env.marshal, ReplayAll(env.marshal, map[], RouteBatches(env, inputs)),
                      UpstreamBatches(env, inputs))
  {
    hide Step, Replay, OnlyRouteKeys, OnlyUpstreamKeys, AllRouteKeys, AllUpstreamKeys, Synced;
    if inputs == [] {
      NoBatches(env.marshal);
    } else {
      var sys, input := Run(env, Init(inputs)), Last(inputs);
      var batch := Step(env, sys.state, input).batch;
      var xs, ys := RouteBatches(env, Init(inputs)), UpstreamBatches(env, Init(inputs));
      RunByFamily(env, Init(inputs), names);
      RunSynced(env, Init(inputs), names);
      StepKeepsSynced(env, names, sys, input);
      if input.Cds? || input.Eds? {
        assert RouteBatches(env, inputs) == xs && UpstreamBatches(env, inputs) == ys + [batch];
        ReplayAllPush(env.marshal, ReplayAll(env.marshal, map[], xs), ys, batch);
      } else {
        assert RouteBatches(env, inputs) == xs + [batch] && UpstreamBatches(env, inputs) == ys;
        ReplayAllPush(env.marshal, map[], xs, batch);
        PastUpstreams(env.marshal, ReplayAll(env.marshal, map[], xs), ys, batch);
      }
    }
  }

  /**
   The order in which goroutines deliver batches matters only within a family: whatever
   interleaving of the route batches with the upstream batches reaches the agent, the final
   store is the one of the run.
   */
  lemma DeliveryOrder(env: Env, inputs: seq<Input>, names: set<string>, delivered: seq<seq<Event>>)
    requires Total(env.marshal) && InjectiveOn(env.genId, names) && NamesInPlay(inputs) <= names
    requires IsMerge(RouteBatches(env, inputs), UpstreamBatches(env, inputs), delivered)
    ensures ReplayAll(env.marshal, map[], delivered) == Run(env, inputs).store
  {
    hide Run, RouteBatches, UpstreamBatches;
    RunByFamily(env, inputs, names);
    MergeIndependent(env.marshal, map[], RouteBatches(env, inputs), UpstreamBatches(env, inputs), delivered);
  }

  /** The batches of a run, in the order of the state swaps. */
  ghost function RunBatches(env: Env, inputs: seq<Input>): seq<seq<Event>> {
    if inputs == [] then []
    else RunBatches(env, Init(inputs)) + [Step(env, Run(env, Init(inputs)).state, Last(inputs)).batch]
  }

  lemma {:induction false} RunReplays(env: Env, inputs: seq<Input>)
    ensures |RunBatches(env, inputs)| == |inputs|
    ensures Run(env, inputs).store == ReplayAll(env.marshal, map[], RunBatches(env, inputs))
  {
    hide Step, Replay;
    if inputs != [] {
      RunReplays(env, Init(inputs));
      ReplayAllPush(env.marshal, map[], RunBatches(env, Init(inputs)),
                    Step(env, Run(env, Init(inputs)).state, Last(inputs)).batch);
    }
  }

  ghost function UpTo(n: nat): seq<nat> {
    seq(n, i requires 0 <= i < n => i)
  }

  /** So a run whose batches arrive in any order, inverting swappable pairs only, ends in the run's store. */
  lemma DeliveredInAnyOrder(env: Env, inputs: seq<Input>, delivered: seq<nat>)
    requires Below(delivered, |RunBatches(env, inputs)|) && multiset(delivered) == multiset(UpTo(|inputs|))
    requires InversionsSwappable(env.marshal, RunBatches(env, inputs), delivered)
    ensures ReplayAll(env.marshal, map[], Pick(RunBatches(env, inputs), delivered)) == Run(env, inputs).store
  {
    hide Run, RunBatches, Swappable, ReplayAll;
    RunReplays(env, inputs);
    var batches := RunBatches(env, inputs);
    assert Pick(batches, UpTo(|inputs|)) == batches;
    AnyOrder(env.marshal, map[], batches, UpTo(|inputs|), delivered);
  }

  /** An instance: two successive texts of one route, delivered the other way round, leave a different store. */
  lemma WithinFamilyMatters(marshal: Marshal, x: Route, y: Route, s: Store)
    requires Total(marshal) && x.id == y.id && Text(marshal, x) != Text(marshal, y)
    ensures var first, second := DiffEvents(marshal, [], [x]), DiffEvents(marshal, [x], [y]);
            Replay(marshal, Replay(marshal, s, first), second) != Replay(marshal, Replay(marshal, s, second), first)
  {
    hide Key, DiffEvents, Replay;
    KeyInjective(x, y);
    OneView(marshal, x);
    OneView(marshal, y);
    SuccessiveSwaps(marshal, "/routes/", [], [x], [y], s);
    assert x in [x] && !TouchedOnce(marshal, [], [x], [y], Key(x));
  }
}
