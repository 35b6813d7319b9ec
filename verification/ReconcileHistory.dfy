/**
 What the controller remembers of an object over many reconciles, and whom it tells when the
 object changes or goes.
 */
module ReconcileHistory {
  import opened GoTypes
  import opened PluginComparison
  import opened Reconciler
  import opened Strings

  /** The selector that a spec stands for: everything if there is none. */
  ghost predicate Converts(spec: SelectorSpec, selector: Selector) {
    match spec
    case NoSelector => selector == Everything
    case LabelSelector(text) => selector == Labels(text)
    case InvalidSelector => false
  }

  /** What is cached for a key. */
  ghost predicate Remembers(c: Caches, key: string, instance: Instance, selector: Selector) {
    && key in c.plugins && c.plugins[key] == PodPluginConfig(key, instance.plugins, instance.version)
    && key in c.selectors && c.selectors[key] == selector
  }

  /** Nothing new about the key: another key, an error, or an object that is going, no newer or invalid. */
  ghost predicate NothingNew(r: Request, key: string, version: string) {
    || r.key != key || r.fetched.FetchError?
    || (r.fetched.Found? &&
        (r.fetched.instance.deleting || r.fetched.instance.selector.InvalidSelector? ||
         !Less(version, r.fetched.instance.version)))
  }

  /** A request concerns the caches of its own key only. */
  lemma OthersStay(c: Caches, r: Request, key: string)
    requires r.key != key
    ensures var c' := ReconcileStep(c, r.key, r.fetched, r.list).caches;
            && (key in c'.plugins <==> key in c.plugins) && (key in c.plugins ==> c'.plugins[key] == c.plugins[key])
            && (key in c'.selectors <==> key in c.selectors)
            && (key in c.selectors ==> c'.selectors[key] == c.selectors[key])
  {
    hide Less, ConfigEqual;
  }

  /** A newer object whose selector converts is remembered, selector included, even if its pods cannot be listed. */
  lemma AcceptedFiles(c: Caches, key: string, instance: Instance, selector: Selector, list: Lister)
    requires !instance.deleting && (key in c.plugins ==> Less(c.plugins[key].version, instance.version))
    requires Converts(instance.selector, selector)
    ensures Remembers(ReconcileStep(c, key, Found(instance), list).caches, key, instance, selector)
  {
    hide Less, ConfigEqual;
  }

  lemma NothingNewStays(c: Caches, r: Request, key: string, instance: Instance, selector: Selector)
    requires Remembers(c, key, instance, selector) && NothingNew(r, key, instance.version)
    ensures Remembers(ReconcileStep(c, r.key, r.fetched, r.list).caches, key, instance, selector)
  {
    hide Less, ConfigEqual;
    if r.key != key {
      OthersStay(c, r, key);
    }
  }

  /**
   Over any sequence of requests, what is cached for a key is the configuration and the selector of
   the object that was accepted last.
   */
  lemma {:induction false} LastAcceptedRemembered(c: Caches, key: string, instance: Instance, selector: Selector,
                                                  list: Lister, later: seq<Request>)
    requires !instance.deleting && (key in c.plugins ==> Less(c.plugins[key].version, instance.version))
    requires Converts(instance.selector, selector)
    requires forall i :: 0 <= i < |later| ==> NothingNew(later[i], key, instance.version)
    ensures var accepted := ReconcileStep(c, key, Found(instance), list).caches;
            Remembers(AfterRequests(accepted, later), key, instance, selector)
  {
    hide ReconcileStep, Remembers, NothingNew, Converts;
    if later == [] {
      AcceptedFiles(c, key, instance, selector, list);
    } else {
      var before := AfterRequests(ReconcileStep(c, key, Found(instance), list).caches, Init(later));
      LastAcceptedRemembered(c, key, instance, selector, list, Init(later));
      assert NothingNew(later[|later| - 1], key, instance.version);
      NothingNewStays(before, Last(later), key, instance, selector);
    }
  }

  /** `told` tells every subscriber exactly these pods, in this namespace, and nobody else anything. */
  ghost predicate Tells(told: seq<Notification>, subs: seq<string>, ns: string, pods: set<string>) {
    && (forall n :: n in told ==> n.ns == ns && n.subscriber in subs && n.pods == pods)
    && (forall sub :: sub in subs ==> Reached(told, sub) == pods)
  }

  lemma DeliverTells(subs: seq<string>, ns: string, pods: set<string>)
    ensures Tells(Deliver(subs, ns, pods), subs, ns, pods)
  {
    DeliverReaches(subs, ns, pods);
  }

  /**
   When the object is gone, every subscriber is told exactly the pods of the selector of the object
   that was accepted last, and both caches forget the key. If the pods cannot be listed, nobody
   is told, the step is to be repeated, and the selector stays for that.
   */
  lemma DeletionTells(c: Caches, key: string, instance: Instance, selector: Selector, list: Lister,
                      later: seq<Request>, now: Lister, subs: seq<string>, ns: string)
    requires !instance.deleting && (key in c.plugins ==> Less(c.plugins[key].version, instance.version))
    requires Converts(instance.selector, selector)
    requires forall i :: 0 <= i < |later| ==> NothingNew(later[i], key, instance.version)
    ensures var before := AfterRequests(ReconcileStep(c, key, Found(instance), list).caches, later);
            var o := ReconcileStep(before, key, NotFound, now);
            && o.caches.plugins == before.plugins - {key}
            && (now(selector).Some? ==>
                  && o.result == Done && o.caches.selectors == before.selectors - {key}
                  && Tells(Deliver(subs, ns, o.pods), subs, ns, Elements(now(selector).value)))
            && (now(selector).None? ==>
                  && o.result == Requeue && o.caches.selectors == before.selectors
                  && Deliver(subs, ns, o.pods) == [])
  {
    hide Less, ConfigEqual, AfterRequests, OnFound, NothingNew, Tells, Converts;
    var before := AfterRequests(ReconcileStep(c, key, Found(instance), list).caches, later);
    LastAcceptedRemembered(c, key, instance, selector, list, later);
    DeliverTells(subs, ns, ReconcileStep(before, key, NotFound, now).pods);
  }

  /** An object of which nothing is cached leaves in silence. */
  lemma UnknownDeletion(c: Caches, key: string, now: Lister)
    requires key !in c.plugins && key !in c.selectors
    ensures ReconcileStep(c, key, NotFound, now) == Reconciled(c, {}, Done)
  {
    assert c.plugins - {key} == c.plugins;
  }

  /**
   When a newer object follows, with plugins that differ, every subscriber is told exactly the pods of
   the selector accepted before and of the new one; and the new one is remembered.
   */
  lemma ChangeTells(c: Caches, key: string, instance: Instance, selector: Selector, list: Lister,
                    later: seq<Request>, next: Instance, selector': Selector, now: Lister,
                    subs: seq<string>, ns: string)
    requires !instance.deleting && (key in c.plugins ==> Less(c.plugins[key].version, instance.version))
    requires Converts(instance.selector, selector)
    requires forall i :: 0 <= i < |later| ==> NothingNew(later[i], key, instance.version)
    requires !next.deleting && Less(instance.version, next.version) && Converts(next.selector, selector')
    requires now(selector).Some? && now(selector').Some?
    ensures var before := AfterRequests(ReconcileStep(c, key, Found(instance), list).caches, later);
            var o := ReconcileStep(before, key, Found(next), now);
            && o.result == Done && Remembers(o.caches, key, next, selector')
            && (!ConfigEqual(instance.plugins, next.plugins) ==>
                  Tells(Deliver(subs, ns, o.pods), subs, ns,
                        Elements(now(selector).value) + Elements(now(selector').value)))
            && (ConfigEqual(instance.plugins, next.plugins) ==> Deliver(subs, ns, o.pods) == [])
  {
    hide Less, ConfigEqual, AfterRequests, NothingNew, Tells;
    var before := AfterRequests(ReconcileStep(c, key, Found(instance), list).caches, later);
    LastAcceptedRemembered(c, key, instance, selector, list, later);
    AcceptedFiles(before, key, next, selector', now);
    DeliverTells(subs, ns, ReconcileStep(before, key, Found(next), now).pods);
  }

  /**
   The first object of a key tells every subscriber all pods, whatever it selects: the old selector
   counts as everything.
   */
  lemma FirstTellsAll(c: Caches, key: string, instance: Instance, selector: Selector, list: Lister, subs: seq<string>,
                      ns: string)
    requires key !in c.plugins && key !in c.selectors && !instance.deleting && Converts(instance.selector, selector)
    requires list(Everything).Some? && list(selector).Some?
    ensures var o := ReconcileStep(c, key, Found(instance), list);
            && o.result == Done && Remembers(o.caches, key, instance, selector)
            && Tells(Deliver(subs, ns, o.pods), subs, ns,
                     Elements(list(Everything).value) + Elements(list(selector).value))
  {
    hide Less, ConfigEqual, Tells;
    AcceptedFiles(c, key, instance, selector, list);
    DeliverTells(subs, ns, ReconcileStep(c, key, Found(instance), list).pods);
  }

  /** What is left alone: an object that is going, no newer, or invalid changes nothing and tells nobody. */
  lemma LeftAlone(c: Caches, key: string, instance: Instance, list: Lister)
    requires instance.deleting || instance.selector.InvalidSelector? ||
             (key in c.plugins && !Less(c.plugins[key].version, instance.version))
    ensures var o := ReconcileStep(c, key, Found(instance), list);
            o.caches == c && o.pods == {} && (o.result == Requeue ==> instance.selector.InvalidSelector?)
    ensures ReconcileStep(c, key, FetchError, list) == Reconciled(c, {}, Requeue)
  {
    hide Less, ConfigEqual;
  }
}
