/** The controller's reconcile step for an AmeshPluginConfig: what is cached and which pods are notified. */
module Reconciler {
  import opened GoTypes
  import opened PluginComparison
  import opened Strings
  import opened Versions

  /** A label selector, by its text; `Everything` selects all pods. */
  datatype Selector = Everything | Labels(text: string)

  /** The selector of a spec: none or an empty one selects everything, an invalid one does not convert. */
  datatype SelectorSpec = NoSelector | LabelSelector(text: string) | InvalidSelector

  datatype Instance = Instance(deleting: bool, version: string, selector: SelectorSpec, plugins: seq<PluginSpec>)
  datatype Fetched = Found(instance: Instance) | NotFound | FetchError

  datatype PodPluginConfig = PodPluginConfig(name: string, plugins: seq<PluginSpec>, version: string)
  datatype Notification = Notification(subscriber: string, ns: string, pods: set<string>)

  /** The pod lister of one namespace: the names of the pods a selector selects, or an error. */
  type Lister = Selector -> Option<seq<string>>

  // Comparing pod lists.

  /**
   `DiffPods`: both loops look a pod up in the list it comes from, so that everything lands in
   `both`, and neither of the other sets ever holds a pod.
   */
  method DiffPods(list: Lister, oldSelector: Selector, newSelector: Selector)
    returns (r: Option<(set<string>, set<string>, set<string>)>)
    ensures r == match (list(oldSelector), list(newSelector)) {
                   case (Some(a), Some(b)) => Some(({}, Elements(a) + Elements(b), {}))
                   case _ => None
                 }
  {
    var oldPods := list(oldSelector);
    if oldPods.None? {
      return None;
    }
    var newPods := list(newSelector);
    if newPods.None? {
      return None;
    }
    var both, onlyInOld := Partition(oldPods.value);
    var both', onlyInNew := Partition(newPods.value);
    r := Some((onlyInOld, both + both', onlyInNew));
  }

  /** One of the two loops, with the map it consults. */
  method Partition(pods: seq<string>) returns (both: set<string>, only: set<string>)
    ensures both == Elements(pods) && only == {}
  {
    var names: set<string> := {};
    for i := 0 to |pods|
      invariant names == Elements(pods[..i])
    {
      ElementsSnoc(pods, i);
      names := names + {pods[i]};
    }
    assert pods[..|pods|] == pods;
    both, only := {}, {};
    for i := 0 to |pods|
      invariant both == Elements(pods[..i]) && only == {}
    {
      ElementsSnoc(pods, i);
      var pod := pods[i];
      var inOld, inNew := pod in names, pod in names;
      if inOld && inNew {
        both := both + {pod};
      } else {
        only := only + {pod};
      }
    }
  }

  lemma ElementsSnoc(xs: seq<string>, i: nat)
    requires i < |xs|
    ensures Elements(xs[..i + 1]) == Elements(xs[..i]) + {xs[i]}
  {
    InitLast(xs[..i + 1]);
    Snoc(xs, i);
  }

  // The reconcile step.

  datatype Caches = Caches(plugins: map<string, PodPluginConfig>, selectors: map<string, Selector>)

  datatype Result = Done | Requeue

  /** A step: the caches after it, the pods notified, and the result. */
  datatype Reconciled = Reconciled(caches: Caches, pods: set<string>, result: Result)

  function SelectorOf(spec: SelectorSpec): Option<Selector> {
    match spec
    case NoSelector => Some(Everything)
    case LabelSelector(text) => Some(Labels(text))
    case InvalidSelector => None
  }

  /** The instance is newer than what is cached; versions are compared as strings. */
  predicate Accepts(c: Caches, key: string, instance: Instance) {
    !instance.deleting && (key in c.plugins ==> Less(c.plugins[key].version, instance.version))
  }

  function OldSelector(c: Caches, key: string): Selector {
    if key in c.selectors then c.selectors[key] else Everything
  }

  ghost predicate PluginsChanged(c: Caches, key: string, instance: Instance) {
    key in c.plugins ==> !ConfigEqual(c.plugins[key].plugins, instance.plugins)
  }

  function Remember(c: Caches, key: string, instance: Instance, selector: Selector): Caches {
    Caches(c.plugins[key := PodPluginConfig(key, instance.plugins, instance.version)], c.selectors[key := selector])
  }

  ghost function OnDeleted(c: Caches, key: string, list: Lister): Reconciled {
    var c' := c.(plugins := c.plugins - {key});
    if key in c.selectors then
      match list(c.selectors[key])
      case Some(pods) => Reconciled(c'.(selectors := c.selectors - {key}), Elements(pods), Done)
      case None => Reconciled(c', {}, Requeue)
    else Reconciled(c', {}, Done)
  }

  ghost function OnFound(c: Caches, key: string, instance: Instance, list: Lister): Reconciled {
    if !Accepts(c, key, instance) then Reconciled(c, {}, Done)
    else
      match SelectorOf(instance.selector)
      case None => Reconciled(c, {}, Requeue)
      case Some(selector) =>
        var c' := Remember(c, key, instance, selector);
        match (list(OldSelector(c, key)), list(selector))
        case (Some(a), Some(b)) =>
          Reconciled(c', if PluginsChanged(c, key, instance) then Elements(a) + Elements(b) else {}, Done)
        case _ => Reconciled(c', {}, Requeue)
  }

  ghost function ReconcileStep(c: Caches, key: string, fetched: Fetched, list: Lister): Reconciled {
    match fetched
    case FetchError => Reconciled(c, {}, Requeue)
    case NotFound => OnDeleted(c, key, list)
    case Found(instance) => OnFound(c, key, instance, list)
  }

  /** What sending a set of pods amounts to: every subscriber gets it once, unless there are none. */
  function Deliver(subs: seq<string>, ns: string, pods: set<string>): seq<Notification> {
    if pods == {} then [] else seq(|subs|, i requires 0 <= i < |subs| => Notification(subs[i], ns, pods))
  }

  lemma DeliverNone(subs: seq<string>, ns: string)
    ensures Deliver(subs, ns, {}) == []
  {
  }

  class AmeshPluginConfigReconciler {
    const subs: seq<string>
    var plugins: map<string, PodPluginConfig>
    var selectors: map<string, Selector>
    var sent: seq<Notification>

    constructor (subs: seq<string>)
      ensures this.subs == subs && Abstract() == Caches(map[], map[]) && sent == []
    {
      this.subs := subs;
      plugins, selectors, sent := map[], map[], [];
    }

    function Abstract(): Caches
      reads this
    {
      Caches(plugins, selectors)
    }

    /** `SendPluginsConfigs`. */
    method SendPluginsConfigs(ns: string, pods: set<string>)
      modifies this`sent
      ensures sent == old(sent) + Deliver(subs, ns, pods)
    {
      if |pods| <= 0 {
        return;
      }
      ghost var all := Deliver(subs, ns, pods);
      for i := 0 to |subs|
        invariant sent == old(sent) + all[..i]
      {
        Snoc(all, i);
        sent := sent + [Notification(subs[i], ns, pods)];
      }
      assert all[..|subs|] == all;
    }

    /** The branch of `Reconcile` for an object that is gone. */
    method ReconcileDeleted(key: string, ns: string, list: Lister) returns (result: Result)
      modifies this
      ensures var o := old(OnDeleted(Abstract(), key, list));
              && Abstract() == o.caches && result == o.result
              && sent == old(sent) + Deliver(subs, ns, o.pods)
    {
      plugins := plugins - {key};
      if key in selectors {
        var pods := list(selectors[key]);
        if pods.None? {
          return Requeue;
        }
        var podSet := ToSet(pods.value);
        SendPluginsConfigs(ns, podSet);
        selectors := selectors - {key};
      }
      return Done;
    }

    /** Sends the three sets of a selector change, in an order that depends on there having been a selector. */
    method SendDiff(ns: string, onlyInOld: set<string>, both: set<string>, onlyInNew: set<string>,
                    hasOldSelector: bool, pluginChanged: bool)
      modifies this`sent
      ensures sent == old(sent) + Deliver(subs, ns, onlyInOld) +
                      if hasOldSelector then
                        Deliver(subs, ns, onlyInNew) + if pluginChanged then Deliver(subs, ns, both) else []
                      else if pluginChanged then Deliver(subs, ns, both) + Deliver(subs, ns, onlyInNew)
                      else []
    {
      hide Deliver;
      if !hasOldSelector {
        SendPluginsConfigs(ns, onlyInOld);
        if pluginChanged {
          SendPluginsConfigs(ns, both);
          SendPluginsConfigs(ns, onlyInNew);
        }
      } else {
        SendPluginsConfigs(ns, onlyInOld);
        SendPluginsConfigs(ns, onlyInNew);
        if pluginChanged {
          SendPluginsConfigs(ns, both);
        }
      }
    }

    /** The branch of `Reconcile` for an object that exists. */
    method ReconcileFound(key: string, ns: string, instance: Instance, list: Lister) returns (result: Result)
      modifies this
      ensures var o := old(OnFound(Abstract(), key, instance, list));
              && Abstract() == o.caches && result == o.result
              && sent == old(sent) + Deliver(subs, ns, o.pods)
    {
      hide Deliver, ConfigEqual, Less;
      DeliverNone(subs, ns);
      if instance.deleting {
        return Done;
      }
      if key in plugins {
        LessTrichotomy(plugins[key].version, instance.version);
        if plugins[key].version == instance.version || Less(instance.version, plugins[key].version) {
          return Done;
        }
      }
      var hasOldSelector, oldSelector := key in selectors, OldSelector(Abstract(), key);
      var newSelector := SelectorOf(instance.selector);
      if newSelector.None? {
        return Requeue;
      }
      selectors := selectors[key := newSelector.value];
      var cached, oldConfig := key in plugins, if key in plugins then plugins[key] else PodPluginConfig(key, [], "");
      plugins := plugins[key := PodPluginConfig(key, instance.plugins, instance.version)];
      var diff := DiffPods(list, oldSelector, newSelector.value);
      if diff.None? {
        return Requeue;
      }
      var (onlyInOld, both, onlyInNew) := diff.value;
      var pluginChanged := true;
      if cached {
        var equal := PluginsConfigEqual(oldConfig.plugins, instance.plugins);
        pluginChanged := !equal;
      }
      SendDiff(ns, onlyInOld, both, onlyInNew, hasOldSelector, pluginChanged);
      return Done;
    }

    /** `Reconcile`. */
    method Reconcile(key: string, ns: string, fetched: Fetched, list: Lister) returns (result: Result)
      modifies this
      ensures var o := old(ReconcileStep(Abstract(), key, fetched, list));
              && Abstract() == o.caches && result == o.result
              && sent == old(sent) + Deliver(subs, ns, o.pods)
    {
      match fetched {
        case FetchError => result := Requeue;
        case NotFound => result := ReconcileDeleted(key, ns, list);
        case Found(instance) => result := ReconcileFound(key, ns, instance, list);
      }
    }
  }

  method ToSet(pods: seq<string>) returns (s: set<string>)
    ensures s == Elements(pods)
  {
    s := {};
    for i := 0 to |pods|
      invariant s == Elements(pods[..i])
    {
      ElementsSnoc(pods, i);
      s := s + {pods[i]};
    }
    assert pods[..|pods|] == pods;
  }

  // What the step guarantees.

  /** The pods a list of notifications tells one subscriber about. */
  ghost function Reached(sent: seq<Notification>, subscriber: string): set<string> {
    if sent == [] then {}
    else Reached(Init(sent), subscriber) + if Last(sent).subscriber == subscriber then Last(sent).pods else {}
  }

  lemma {:induction false} ReachedAtMost(sent: seq<Notification>, subscriber: string, pods: set<string>)
    requires forall n :: n in sent ==> n.pods == pods
    ensures Reached(sent, subscriber) == if exists n :: n in sent && n.subscriber == subscriber then pods else {}
  {
    if sent != [] {
      InitLast(sent);
      ReachedAtMost(Init(sent), subscriber, pods);
    }
  }

  /** A delivery tells every subscriber exactly the given pods, and concerns its namespace and its subscribers only. */
  lemma DeliverReaches(subs: seq<string>, ns: string, pods: set<string>)
    ensures forall n :: n in Deliver(subs, ns, pods) ==> n.ns == ns && n.subscriber in subs && n.pods == pods
    ensures forall sub :: sub in subs ==> Reached(Deliver(subs, ns, pods), sub) == pods
  {
    var new' := Deliver(subs, ns, pods);
    if pods != {} {
      forall sub | sub in subs ensures Reached(new', sub) == pods {
        var i :| 0 <= i < |subs| && subs[i] == sub;
        assert new'[i] in new' && new'[i].subscriber == sub;
        ReachedAtMost(new', sub, pods);
      }
    }
  }

  /** The listing a selector stands for. */
  ghost function Selected(list: Lister, s: Selector): set<string>
    requires list(s).Some?
  {
    Elements(list(s).value)
  }

  /** Two selectors, as the reconcile of an instance sees them, and both of them can be listed. */
  ghost predicate Listable(c: Caches, key: string, instance: Instance, list: Lister) {
    && SelectorOf(instance.selector).Some?
    && list(OldSelector(c, key)).Some? && list(SelectorOf(instance.selector).value).Some?
  }

  ghost function OldPods(c: Caches, key: string, instance: Instance, list: Lister): set<string>
    requires Listable(c, key, instance, list)
  {
    Selected(list, OldSelector(c, key))
  }

  ghost function NewPods(c: Caches, key: string, instance: Instance, list: Lister): set<string>
    requires Listable(c, key, instance, list)
  {
    Selected(list, SelectorOf(instance.selector).value)
  }

  /** The pods that the selector change moves in or out. */
  ghost function Moved(c: Caches, key: string, instance: Instance, list: Lister): set<string>
    requires Listable(c, key, instance, list)
  {
    (OldPods(c, key, instance, list) - NewPods(c, key, instance, list)) +
    (NewPods(c, key, instance, list) - OldPods(c, key, instance, list))
  }

  lemma MovedNone(c: Caches, key: string, instance: Instance, list: Lister)
    requires Listable(c, key, instance, list)
    ensures Moved(c, key, instance, list) == {} <==> OldPods(c, key, instance, list) == NewPods(c, key, instance, list)
  {
    var a, b := OldPods(c, key, instance, list), NewPods(c, key, instance, list);
    if (a - b) + (b - a) == {} {
      forall x ensures x in a <==> x in b {
        assert x !in (a - b) + (b - a);
      }
    }
  }

  /**
   What an accepted reconcile sends. If the plugins changed, every subscriber is told exactly
   the pods of the old selector and of the new one, in the right namespace; otherwise nothing is sent.
   So every subscriber learns of all pods that a selector change moves in or out if and only
   if the plugins changed too, or both selectors select the same pods, or nobody subscribes.
   */
  lemma NotifiedExactly(c: Caches, key: string, ns: string, instance: Instance, list: Lister, subs: seq<string>)
    requires Accepts(c, key, instance) && Listable(c, key, instance, list)
    ensures var o := OnFound(c, key, instance, list);
            var new' := Deliver(subs, ns, o.pods);
            && o.result == Done
            && (forall n :: n in new' ==> n.ns == ns && n.subscriber in subs)
            && (PluginsChanged(c, key, instance) ==> forall sub :: sub in subs ==>
                  Reached(new', sub) == OldPods(c, key, instance, list) + NewPods(c, key, instance, list))
            && (!PluginsChanged(c, key, instance) ==> new' == [])
            && ((forall sub :: sub in subs ==> Moved(c, key, instance, list) <= Reached(new', sub)) <==>
                || PluginsChanged(c, key, instance) || subs == []
                || OldPods(c, key, instance, list) == NewPods(c, key, instance, list))
  {
    var o := OnFound(c, key, instance, list);
    DeliverReaches(subs, ns, o.pods);
    MovedNone(c, key, instance, list);
    if !PluginsChanged(c, key, instance) && subs != [] {
      assert subs[0] in subs && Reached(Deliver(subs, ns, o.pods), subs[0]) == {};
    }
  }

  /**
   The same in terms of what the two plugin lists say, wherever the comparison decides that: the
   subscribers are told of a new listing, and nothing is sent for one that stays.
   */
  lemma NotifiedOfListing(c: Caches, key: string, ns: string, instance: Instance, list: Lister, subs: seq<string>)
    requires Accepts(c, key, instance) && Listable(c, key, instance, list) && key in c.plugins
    requires Comparable(Pairs(c.plugins[key].plugins), Pairs(instance.plugins))
    ensures var new' := Deliver(subs, ns, OnFound(c, key, instance, list).pods);
            if Listing(c.plugins[key].plugins) == Listing(instance.plugins) then new' == []
            else forall sub :: sub in subs ==>
                Reached(new', sub) == OldPods(c, key, instance, list) + NewPods(c, key, instance, list)
  {
    hide ConfigEqual, Listing, Comparable;
    ConfigEqualExact(Pairs(c.plugins[key].plugins), Pairs(instance.plugins));
    NotifiedExactly(c, key, ns, instance, list, subs);
  }

  /** A change of the selector alone that moves a pod is told to nobody. */
  lemma SelectorChangeLost(c: Caches, key: string, ns: string, instance: Instance, list: Lister, subs: seq<string>,
                           pod: string)
    requires Accepts(c, key, instance) && Listable(c, key, instance, list) && !PluginsChanged(c, key, instance)
    requires pod in Moved(c, key, instance, list) && subs != []
    ensures Deliver(subs, ns, OnFound(c, key, instance, list).pods) == []
    ensures exists sub :: sub in subs && pod !in Reached(Deliver(subs, ns, OnFound(c, key, instance, list).pods), sub)
  {
    assert subs[0] in subs && Reached([], subs[0]) == {};
  }

  /** A request: the key, what fetching it gives, and how pods are listed. */
  datatype Request = Request(key: string, fetched: Fetched, list: Lister)

  ghost function AfterRequests(c: Caches, requests: seq<Request>): Caches {
    if requests == [] then c
    else
      var r := Last(requests);
      ReconcileStep(AfterRequests(c, Init(requests)), r.key, r.fetched, r.list).caches
  }

  /** Every request for the key finds an object of the given version. */
  ghost predicate OnlyVersion(requests: seq<Request>, key: string, version: string) {
    forall i :: 0 <= i < |requests| && requests[i].key == key ==>
      requests[i].fetched.Found? && requests[i].fetched.instance.version == version
  }

  lemma {:induction false} SameVersionKept(c: Caches, requests: seq<Request>, key: string, version: string)
    requires key in c.plugins && c.plugins[key].version == version && OnlyVersion(requests, key, version)
    ensures var c' := AfterRequests(c, requests); key in c'.plugins && c'.plugins[key] == c.plugins[key]
  {
    LessTrichotomy(version, version);
    if requests != [] {
      assert requests[|requests| - 1] == Last(requests);
      SameVersionKept(c, Init(requests), key, version);
    }
  }

  /**
   A listing error after the cache was written: the retry is taken for old news. However often the
   same version is retried, and whatever happens to other keys meanwhile, nobody is told.
   */
  lemma RetrySwallowed(c: Caches, key: string, instance: Instance, failing: Lister, retries: seq<Request>, i: nat)
    requires Accepts(c, key, instance) && SelectorOf(instance.selector).Some?
    requires failing(OldSelector(c, key)).None? || failing(SelectorOf(instance.selector).value).None?
    requires OnlyVersion(retries, key, instance.version) && i < |retries| && retries[i].key == key
    ensures var o := OnFound(c, key, instance, failing);
            var before := AfterRequests(o.caches, retries[..i]);
            && o.result == Requeue && o.pods == {}
            && ReconcileStep(before, key, retries[i].fetched, retries[i].list) == Reconciled(before, {}, Done)
  {
    LessTrichotomy(instance.version, instance.version);
    SameVersionKept(OnFound(c, key, instance, failing).caches, retries[..i], key, instance.version);
  }

  /**
   Over any sequence of requests that does not delete a key, the key's cached version never goes
   back: its configuration either stays as it was or its version strictly grows in string order.
   */
  lemma {:induction false} VersionsGrow(c: Caches, requests: seq<Request>, key: string)
    requires key in c.plugins
    requires forall i :: 0 <= i < |requests| && requests[i].key == key ==> !requests[i].fetched.NotFound?
    ensures var c' := AfterRequests(c, requests);
            && key in c'.plugins
            && (c'.plugins[key] == c.plugins[key] || Less(c.plugins[key].version, c'.plugins[key].version))
  {
    if requests != [] {
      var r, mid := Last(requests), AfterRequests(c, Init(requests));
      VersionsGrow(c, Init(requests), key);
      assert requests[|requests| - 1] == r;
      var after := ReconcileStep(mid, r.key, r.fetched, r.list).caches;
      if after.plugins[key] != mid.plugins[key] && mid.plugins[key] != c.plugins[key] {
        LessTransitive(c.plugins[key].version, mid.plugins[key].version, after.plugins[key].version);
      }
    }
  }

  /**
   Exactly when a numerically newer object is accepted: its version has as many digits as the
   cached one, or begins with digits that are not below it. Otherwise it is dropped without a trace.
   */
  lemma NewerAccepted(c: Caches, key: string, instance: Instance, list: Lister)
    requires key in c.plugins && !instance.deleting
    requires Decimal(c.plugins[key].version) && Decimal(instance.version)
    requires Val(c.plugins[key].version) < Val(instance.version)
    ensures |c.plugins[key].version| <= |instance.version|
    ensures var cached := c.plugins[key].version;
            var recognised := |cached| == |instance.version| || !Less(instance.version[..|cached|], cached);
            && (Accepts(c, key, instance) <==> recognised)
            && (!recognised ==> OnFound(c, key, instance, list) == Reconciled(c, {}, Done))
  {
    NewerRecognised(c.plugins[key].version, instance.version);
  }

  /** Whenever the counter gains a digit, from 9...9 to 10...0, the next version is dropped. */
  lemma RolloverDropped(c: Caches, key: string, instance: Instance, list: Lister, n: nat)
    requires n > 0 && key in c.plugins && c.plugins[key].version == Nines(n) && instance.version == "1" + Zeros(n)
    ensures Val(instance.version) == Val(c.plugins[key].version) + 1
    ensures OnFound(c, key, instance, list) == Reconciled(c, {}, Done)
  {
    Rollover(n);
  }
}
