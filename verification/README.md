# Amesh in Dafny

Amesh is a sidecar for Apache APISIX: it takes a service mesh's xDS stream (routes, clusters,
endpoints, listeners) and a stream of plugin configurations, and keeps a key/value store, which
APISIX reads, in step with them. This project models its decision-making code and proves what
that code is for.

What is modelled, and what the main results are:

- **The synchroniser** (`Synchroniser`, `Responses`, `Provisioner`, `Agent`, `Manifest`,
  `Diff`). The
  provisioner remembers a list of routes and a map of upstreams, swaps them on every response
  and sends only the difference as a batch of events; the agent replays batches into the store.
  `Responses` says what each response leads to, resource by resource: the routes and upstreams,
  the names acknowledged and what EDS is asked for.
  `Agreement.RunSynced` shows that over every run the store agrees with the provisioner's
  state. `Exactness` says exactly when one round keeps the upstream half of the store equal to
  it, when an EDS response repairs it and how it is lost for good; `Accounting` says it for
  every run, by an account of the upstreams behind the store's keys and texts, and gives a run
  that leaks. `Interleaving` says exactly when two batches may be delivered in either order, and
  that any number of them may be reordered by such exchanges.
- **The route translator** (`RouteTranslator`, `RouteMeaning`, `RouteNames`, `RouteIds`, `Matchers`,
  `ComparableVar`, `Plugins`, `Restatement`, `Strings`). Envoy routes become APISIX routes, all or nothing per
  configuration; `RouteMeaning.RouteMeaning` says that a built route serves exactly the requests
  that Envoy's route does, under the conditions it names; weighted clusters keep their weights; matcher texts can be decoded, which says exactly when two routes share an id; plugin
  updates leave old route objects alone.
- **Endpoints and clusters** (`Endpoints`): nested loops against a flat listing, with 32-bit
  conversions written out.
- **The iptables rule compiler** (`Iptables`): the generated chains, run by a first-match
  interpreter, decide every packet as the configuration says.
- **The controller's reconcile step** (`Reconciler`, `ReconcileHistory`, `PluginComparison`,
  `Versions`): what every call sends to whom, what is remembered of the object accepted last, exactly when the comparison of plugin lists decides their equality, and
  exactly when a newer version is recognised as such.

How the original's surroundings appear here:

- `id.GenID` is a function in `Env`. Theorems about upstreams ask it to be injective on the
  cluster names that occur in the run, not on all strings.
- `json.Marshal` is a deterministic function that may fail (`Marshal`), and the branches for
  failures are modelled. The agreement theorems ask it to be total (`Total`): routes and
  upstreams hold only strings, finite numbers and values that came out of `json.Unmarshal`.
- Go's map iteration order is an input wherever it shows: `upstreamOrder` and `pluginOrder` of
  an `Input`. Within one RDS response all routes visit the plugins in the same order; the
  agreement theorems hold for every list of routes and so do not depend on that, and
  `Plugins.OrderIrrelevantIff` says exactly when the order does not show at all.
- A nil slice is a value of its own (`GoTypes.Slice`). `Diff.Compare` and
  `Manifest.GenerateIncrementalEvents` show that nil and empty lists, and nil and empty
  manifests, are treated alike.
- `CompareRoutes` and `CompareUpstreams` are one algorithm over two struct types and are one
  method here. Routes and upstreams are the two constructors of `Apisix.Object`.
- Batches are applied in the order of the state swaps; `Interleaving.DeliveryOrder` relaxes this
  to any order that keeps route batches among themselves, and upstream batches among
  themselves, in order. Within a family a swap is harmless exactly under the condition of
  `Interleaving.CommuteIff`, which for two successive updates of a list is that no key is
  touched by both, unless it is given the same text (`Interleaving.SuccessiveSwaps`).
- The clock, the network, the pod lister and what iptables makes of a port token are parameters.

Where the code differs from its documentation, its tests or what one would expect, the code is
followed, and a lemma says so:

- A virtual host with one unsupported route reports an error and its whole configuration is
  dropped, and every route gets a `prometheus` plugin
  (`pkg/amesh/provisioner/route_translator.go:126-133`, `227-229`); the tests of that file expect
  otherwise.
- A list that repeats a route id with two texts emits an update for itself every time
  (`Diff.SelfDiffSilent`), which a virtual host brings about by listing two routes of one name
  and match with different clusters (`Restatement.RepeatedMatchDisturbs`).
- An unknown query matcher is not an error, and leaves no trace in the id of a route that has no
  other expression; a path that continues another one with the text `-<nil>-` or `-value:true-`
  can make up for a matcher (`RouteIds.UnknownQueryCollides`, `PathsCollide`; exactly when:
  `RouteIds.ConditionsIff`).
- Route names of different virtual hosts can coincide, through a `#` in a name or through the
  removal of `.svc.cluster.local` (`RouteNames.HashMoves`, `SuffixLost`; exactly when:
  `RouteNames.SameNameIff`).
- With two plugins of one external type, repeating an RDS response can send events, because Go
  visits the plugins in another order (`Restatement.VisitDisturbs`).
- A plugin update drops the `traffic-split`, `prometheus` and `fault-injection` entries that
  translation added, unless a current plugin has that name
  (`RouteTranslator.TranslatedEntriesLost`, `WeightsSurviveIff`).
- A CDS response can leave the store ahead of the provisioner, and a cluster dropped at that
  moment stays in the store (`Exactness.CdsExactIff`, `DroppedWhileAwaiting`, `LeakPersists`),
  which four responses bring about for any EDS cluster (`Accounting.LeakingRun`).
- The version in a NACK is shared by all resource types (`Provisioner.AckVersions`,
  `NackCarriesForeignVersion`).
- An EDS answer with localities but no usable endpoint puts an upstream without nodes into the
  store (`Accounting.NodelessAnnounced`).
- A plugin that turns from direct to external keeps its old direct entry (`Plugins.HistoryFree`).
- A header matcher that asks for absence is translated to one that asks for presence
  (`Matchers.HeaderMeaning`), and a query matcher that asks for presence to one that asks for a
  value (`Matchers.QueryMeaning`).
- An exact path that ends in a `*` becomes a prefix (`RouteMeaning.UriExactIff`).
- The first object of a key tells all pods, whatever it selects
  (`ReconcileHistory.FirstTellsAll`).
- `--inbound-ports ,` produces a jump to a chain without rules, and so does exactly every
  non-empty list of commas (`Iptables.DanglingIff`, `LoneComma`).
- `DiffPods` puts every pod into `both`; a change of the selector alone notifies nobody; a
  listing error makes every retry a no-op (`Reconciler.DiffPods`, `SelectorChangeLost`,
  `RetrySwallowed`).
- Plugins are compared under the concatenation of type and name, and only from the new list to
  the old one: `pre-reqx` without a type is taken for `x` of type `pre-req`, and a repeated
  plugin hides one that went away (`PluginComparison.ConfigEqualExact`, `CollisionOverlooked`,
  `RepeatedKeyOverlooked`).
- Resource versions are compared as strings: a newer one with more digits is dropped when its
  leading digits are below the cached version, as after 9, 99 or 999
  (`Versions.NewerRecognised`, `Reconciler.NewerAccepted`, `RolloverDropped`).
- In `Reconcile`, `newSelector == nil` never holds, because `SelectorCache.Update` returns a
  selector whenever it succeeds (`controller/utils/selector_cache.go:55-70`); the two branches
  for it are therefore absent.

Verify with `dafny verify dfyconfig.toml`.

## Model

| member | source | states |
|---|---|---|
| `Diff.Compare` | pkg/apisix/utils/utils.go:29-111 | the three loops compute: the new objects whose id is not in the old list, the old ones whose id is not in the new list, and per old object with a changed text the last new object of its id; nil and empty lists give the same |
| `Diff.PatchSound` | pkg/apisix/utils/utils.go:29-111 | on a store that shows the old list, replaying additions, deletions and updates replaces the old list's last-wins view by the new list's and touches no other key, for any two lists, repeated ids included |
| `Diff.DiffMinimal` | pkg/apisix/utils/utils.go:37-68 | with distinct ids in both lists a changed key gets exactly one event and an unchanged key none |
| `Diff.FreshExact` | pkg/apisix/utils/utils.go:37-49 | the additions are, in order, the new objects whose id no old object has, and the deletions the other way round |
| `Diff.SelfDiffSilent` | pkg/apisix/utils/utils.go:50-66 | comparing a list with itself gives no event if and only if objects that share an id share their text |
| `Manifest.DiffFrom` | pkg/amesh/util/manifest.go:31-49 | routes are diffed against routes and upstreams against upstreams, from the receiver's point of view |
| `Manifest.Events` | pkg/amesh/util/manifest.go:57-96 | one event per route and per upstream in order, node-less upstreams being left out of additions and updates but not of deletions |
| `Manifest.EventsMember` | pkg/amesh/util/manifest.go:57-96 | the events of a kind are one per route, and one per upstream that has nodes or is deleted, each of that kind with the object's key and the object |
| `Manifest.NeverNodeless` | pkg/amesh/util/manifest.go:57-96 | whatever the two manifests, no upstream without nodes is added or updated |
| `Manifest.KindsInOrder` | pkg/amesh/provisioner/xds.go:1028-1042 | every batch holds its additions first, then its deletions, then its updates |
| `Manifest.GenerateIncrementalEvents` | pkg/amesh/provisioner/xds.go:993-1042 | additions, then deletions, then updates of the difference, for any two manifests; a nil manifest counts as an empty one and two nil ones give no event |
| `Manifest.UpstreamsOnly` | pkg/amesh/provisioner/xds.go:1004-1041 | when all new upstreams have nodes, the node filter drops nothing and the batch is the plain diff |
| `Agent.Agent.StoreEvents` | pkg/amesh/agent.go:377-414 | the storage becomes the replay of the batch over the old storage, objects that do not marshal being skipped; the version changes unless the batch is empty |
| `Agreement.RunSynced` | pkg/amesh/provisioner/xds.go:635-928 | over every run the `/routes/` part of the store is exactly the last-wins view of the routes, every upstream is filed under its name with the id generated from it, and every upstream with nodes is in the store with exactly its text, repeated cluster names included |
| `Agreement.StepKeepsSynced` | pkg/amesh/provisioner/xds.go:645-927 | each kind of input keeps that invariant, and its batch touches one family of keys only |
| `Responses.Frames` | pkg/amesh/provisioner/xds.go:645-927 | routes change with RDS responses and plugin updates only, upstreams with CDS and EDS responses only, plugins when they are set; other inputs send nothing |
| `Agreement.RouteSwap` | pkg/amesh/provisioner/xds.go:691-694 | swapping the route list and replaying the diff keeps the route half of the store exact |
| `Agreement.CdsFiled` | pkg/amesh/provisioner/xds.go:708-756 | a CDS response leaves only listed clusters, filed under their names, and a manifest of upstreams that all have nodes |
| `Agreement.CdsLastWins` | pkg/amesh/provisioner/xds.go:743-755 | the manifest's last word on an upstream with nodes is that upstream, even if the response repeats names |
| `Agreement.EdsKeepsShown` | pkg/amesh/provisioner/xds.go:781-817 | an EDS response keeps every upstream with nodes shown with its text |
| `Interleaving.DeliveryOrder` | pkg/amesh/provisioner/xds.go:924-926 | any interleaving of a run's route batches with its upstream batches that keeps each family in order gives the run's final store |
| `Interleaving.MergeIndependent` | pkg/amesh/provisioner/xds.go:1047-1052 | the same for any batches of the two families and any starting store |
| `Interleaving.CommuteIff` | pkg/amesh/agent.go:384-406 | two batches can be replayed in either order if and only if, for every key, one of them leaves it alone or both leave it the same |
| `Interleaving.BatchesCommute` | pkg/amesh/agent.go:384-406 | in particular two batches about different keys can |
| `Interleaving.DiffEffect` | pkg/apisix/utils/utils.go:37-68 | the diff of any two lists, repeated ids included, leaves a key alone exactly if it is in neither list, or in both and every old object of it has the new text already; otherwise it gives the key its new text or removes it |
| `Interleaving.SuccessiveSwaps` | pkg/amesh/provisioner/xds.go:924-926 | the batches of two successive updates of one list, repeated ids included, can be swapped if and only if no key is touched by both, unless both give it the same text |
| `Interleaving.TouchedDistinct` | pkg/apisix/utils/utils.go:37-68 | without repeated ids a key is touched exactly when its text changes |
| `Interleaving.AnyOrder` | pkg/amesh/agent.go:384-406 | any number of batches delivered in any order give the store of the original order, if every pair delivered the wrong way round can be swapped |
| `Interleaving.DeliveredInAnyOrder` | pkg/amesh/provisioner/xds.go:924-926 | the same for the batches of a run: the final store is the run's |
| `Interleaving.WithinFamilyMatters` | pkg/amesh/provisioner/xds.go:924-926 | an instance: a route added and then changed, delivered the other way round, leaves a different store |
| `Exactness.CdsExactIff` | pkg/amesh/provisioner/xds.go:743-763 | from exact agreement a CDS response with distinct names keeps it if and only if no EDS cluster it lists had nodes |
| `Exactness.EdsFlat` | pkg/amesh/provisioner/xds.go:798-817 | cluster by cluster, the last assignment with endpoints decides the nodes and the text announced, and a cluster that only gets empty assignments is untouched and unannounced |
| `Exactness.EdsExactIff` | pkg/amesh/provisioner/xds.go:781-817 | the EDS response after it restores exact agreement if and only if it answers for every held cluster and whatever it answers for ends with a node |
| `Exactness.RoundRestores` | pkg/amesh/provisioner/xds.go:708-817 | a CDS response with distinct names and then an EDS response restore exact agreement, deletions included, if and only if the EDS response delivers as above |
| `Exactness.SilentForEds` | pkg/amesh/provisioner/xds.go:743-771 | a CDS response with distinct names emits no event for a cluster it lists as EDS, and the EDS request that follows names it |
| `Exactness.LeakPersists` | pkg/amesh/provisioner/xds.go:758-763 | a key whose upstream has no nodes in the provisioner is removed by no step |
| `Exactness.DroppedWhileAwaiting` | pkg/amesh/provisioner/xds.go:749-763 | a cluster that waits for EDS and is dropped by the next CDS response stays in the store, unknown to the provisioner |
| `Accounting.RunAccounted` | pkg/amesh/provisioner/xds.go:696-825 | over every run, repeated names included, the upstream keys of the store and their texts are those of an account of upstreams by name: a CDS response withdraws the names that had nodes and enters the ones it shows, an EDS response enters the known ones it has endpoints for, with the nodes of their last assignment |
| `Accounting.RunLookup` | pkg/amesh/provisioner/xds.go:696-825 | so for every name the store has exactly the text last shown for it, leaked and awaiting clusters included, or nothing |
| `Accounting.RunExactIff` | pkg/amesh/provisioner/xds.go:696-825 | after any run the upstream half of the store is exact if and only if the names of the account are those that have nodes |
| `Accounting.LeakingRun` | pkg/amesh/provisioner/xds.go:743-763 | for every EDS cluster, a valid run of four responses from the empty state ends with its key in the store under its old text, the cluster unknown and the store not exact |
| `Accounting.NodelessAnnounced` | pkg/amesh/provisioner/xds.go:798-817 | for every EDS cluster and answer with localities, the store shows the cluster with the nodes of the answer, and is exact if and only if there are any |
| `Provisioner.XdsProvisioner.TranslateRds` | pkg/amesh/provisioner/xds.go:646-694 | routes become those of the configurations that translate, in order, the names acknowledged are exactly theirs, and the batch is the difference to the old routes |
| `Responses.RdsMember` | pkg/amesh/provisioner/xds.go:653-690 | a route is among the routes after an RDS response if and only if it is built for a route, not case-insensitive, of a virtual host of a configuration all of whose such routes are supported |
| `Responses.RdsConcat` | pkg/amesh/provisioner/xds.go:677-678 | the routes and the acknowledged names of a response are those of its parts, one after the other |
| `Responses.RdsOne` | pkg/amesh/provisioner/xds.go:653-678 | one configuration gives all its routes that count and its name, or nothing; one that does not decode gives nothing |
| `Responses.KeptExact` | pkg/amesh/provisioner/route_translator.go:110-123 | the routes that count, in order: cut between virtual hosts, between routes, and for a single route |
| `Responses.BuildAllExact` | pkg/amesh/provisioner/route_translator.go:110-243 | and the routes built for them, in that order |
| `Responses.RdsAcknowledges` | pkg/amesh/provisioner/xds.go:677-677 | a name is acknowledged if and only if a configuration of that name is accepted |
| `Provisioner.XdsProvisioner.TranslateCds` | pkg/amesh/provisioner/xds.go:696-771 | new upstreams, EDS request and batch of a CDS response; an EDS cluster keeps its old upstream in the manifest |
| `Provisioner.XdsProvisioner.CollectClusters` | pkg/amesh/provisioner/xds.go:708-756 | the loop over clusters refines the step-by-step specification |
| `Responses.CdsKnows` | pkg/amesh/provisioner/xds.go:708-756 | after a CDS response a name is known if and only if some cluster of that name is EDS, custom or has endpoints |
| `Responses.CdsKeepsLast` | pkg/amesh/provisioner/xds.go:755-755 | and then it has the upstream of the last such cluster |
| `Responses.CdsRequests` | pkg/amesh/provisioner/xds.go:725-771 | the EDS request names exactly the EDS clusters and those that are neither custom nor have endpoints nor are ignored |
| `Provisioner.XdsProvisioner.TranslateEds` | pkg/amesh/provisioner/xds.go:773-825 | nodes replaced in place, every accepted upstream announced by an update, clusters without endpoints asked for again unless ignored |
| `Responses.EdsAnswers` | pkg/amesh/provisioner/xds.go:798-825 | an EDS response acknowledges, in order, the known clusters it has localities for, asks again for the known ones with an empty assignment that are not ignored, and sends updates only |
| `Responses.IgnoredIff` | pkg/amesh/provisioner/xds.go:612-633 | a cluster is ignored if and only if its name contains one of five texts or the host of the source |
| `Provisioner.XdsProvisioner.ReplaceUpstreams` | pkg/amesh/provisioner/translator.go:88-123 | assignments for unknown clusters, without endpoints, or whose old upstream does not marshal change nothing; others replace the nodes only |
| `Provisioner.XdsProvisioner.UpdateRoutes` | pkg/amesh/provisioner/xds.go:1044-1074 | the routes become the patched old ones and the batch is the difference |
| `Responses.UpdateExact` | pkg/amesh/provisioner/xds.go:1044-1074 | a plugin update keeps every route in its place with everything but its plugins, and of those says for every entry but the two external ones whether it is there and with which value |
| `Provisioner.XdsProvisioner.Handle` | pkg/amesh/provisioner/xds.go:635-928 | every input does to the object exactly what the state machine says |
| `Provisioner.XdsProvisioner.TranslateLoop` | pkg/amesh/provisioner/xds.go:572-610 | response i gets exactly one request with its type and nonce, an error exactly if its type is unsupported, the version of the latest accepted response up to i, and the accepted names |
| `Provisioner.AckVersions` | pkg/amesh/provisioner/xds.go:597-606 | an ACK carries its response's version; a NACK carries its own type's latest accepted version if and only if no version had been accepted before |
| `Provisioner.NackCarriesForeignVersion` | pkg/amesh/provisioner/xds.go:597-606 | after any accepted response with a version, the NACK of an unsupported type carries that version although its own type has none |
| `Provisioner.Serve` | pkg/amesh/agent.go:346-372 | provisioner and agent objects fed with a run end in the run's state and store, which agree |
| `Restatement.RestatedRds` | pkg/amesh/provisioner/route_translator.go:89-104 | an RDS response repeated with domains permuted or repeated, with plugins visited in the same order or in any order if at most one is of each external type, gives identical routes, and an empty batch if and only if routes that share an id share their text |
| `Restatement.VisitDisturbs` | pkg/amesh/provisioner/route_translator.go:250-282 | with two plugins of one external type, repeating a response with the plugins visited the other way round sends an event |
| `Restatement.RepeatedMatchDisturbs` | pkg/amesh/provisioner/route_translator.go:176-193 | a virtual host with two routes of one name and match and different texts gives a non-empty batch each time it is repeated |
| `RouteTranslator.TranslateRouteConfiguration` | pkg/amesh/provisioner/route_translator.go:52-81 | all or nothing: one route per route that is not case-insensitive, in order over all virtual hosts, if and only if each of them is supported |
| `RouteTranslator.TranslateVirtualHost` | pkg/amesh/provisioner/route_translator.go:84-244 | no error if and only if every route that is not case-insensitive is supported, and then one route for each in order |
| `RouteTranslator.TranslateRoute` | pkg/amesh/provisioner/route_translator.go:125-241 | a route is built if and only if cluster, path, query and header matchers are all supported |
| `RouteMeaning.SupportedIff` | pkg/amesh/provisioner/route_translator.go:125-175 | a route is supported if and only if it forwards to a cluster or to at least one weighted cluster, has an exact path or a prefix, and only matchers of known kinds |
| `RouteMeaning.BuiltHosts` | pkg/amesh/provisioner/route_translator.go:89-104 | the hosts of a built route are the domains without ports, strictly sorted, or none for `*` |
| `RouteMeaning.BuiltScalars` | pkg/amesh/provisioner/route_translator.go:189-201 | its uri is the exact path, or the prefix and `*`; its upstream the only or last cluster's id; name, id, description, status, priority and unset fields |
| `RouteMeaning.BuiltTimeout` | pkg/amesh/provisioner/route_translator.go:203-211 | its timeouts are Envoy's timeout, if it is positive |
| `RouteMeaning.BuiltPlugins` | pkg/amesh/provisioner/route_translator.go:212-239 | its plugins are the current ones with `prometheus` always, `fault-injection` and `traffic-split` if Envoy's route asks for them |
| `RouteMeaning.RouteMeaning` | pkg/amesh/provisioner/route_translator.go:84-241 | it serves a request if and only if Envoy's route does: host among the domains, ports aside, path, and all header and query matchers, for literal matchers that find their header or parameter |
| `RouteMeaning.UriExactIff` | pkg/amesh/provisioner/route_translator.go:304-317 | its uri serves exactly Envoy's paths unless Envoy's is an exact path that ends in a `*` |
| `RouteTranslator.CollectHosts` | pkg/amesh/provisioner/route_translator.go:89-104 | the sorted set of domains without ports, or nothing if some domain is `*` |
| `RouteTranslator.HostsCanonical` | pkg/amesh/provisioner/route_translator.go:89-104 | hosts are strictly sorted, are exactly the domains without ports, and are empty if and only if some domain is `*` or there is none |
| `RouteTranslator.DomainsAsSet` | pkg/amesh/provisioner/route_translator.go:84-104 | a route depends on the domains of its virtual host only as a set |
| `RouteTranslator.WeightsPreserved` | pkg/amesh/provisioner/route_translator.go:286-303 | resolving the traffic-split entries gives back Envoy's clusters with their weights in order, exactly when no cluster but the last has an empty id that differs from the last one's |
| `RouteTranslator.TranslateRouteWeightedClusters` | pkg/amesh/provisioner/route_translator.go:569-600 | each cluster's weight in order, with its id except for the last |
| `RouteTranslator.TranslatedEntriesLost` | pkg/amesh/provisioner/route_translator.go:250-264 | a plugin update keeps an entry that translation added if and only if a current plugin has its name, and its value only if that plugin is not direct |
| `RouteTranslator.WeightsSurviveIff` | pkg/amesh/provisioner/route_translator.go:250-264 | the weights of a route survive a plugin update if and only if some plugin that is not direct is called `traffic-split` |
| `RouteNames.SameNameIff` | pkg/amesh/provisioner/route_translator.go:177-178 | two routes of any virtual hosts and configurations have the same name if and only if their texts, without the cluster-local suffix and cut at every `#`, list the same segments |
| `RouteNames.HashlessNames` | pkg/amesh/provisioner/route_translator.go:177-178 | without a `#` in the texts this means the same route, host and configuration name, each up to the suffix and to `anon` |
| `RouteNames.HashMoves` | pkg/amesh/provisioner/route_translator.go:177-178 | a `#` can move from the name of the virtual host into that of the route |
| `RouteNames.SuffixLost` | pkg/amesh/provisioner/route_translator.go:178-178 | a virtual host with the cluster-local suffix and one without it count as the same |
| `RouteIds.SameIdIff` | pkg/amesh/provisioner/route_translator.go:176-193 | two routes of any virtual hosts and configurations get the same id if and only if their names list the same segments and their conditions are not told apart, for generated ids that tell the texts involved apart and hold no underscore |
| `RouteIds.ConditionsIff` | pkg/amesh/provisioner/route_translator.go:180-187 | two routes have the same condition text if and only if path, case sensitivity and the set of expressions agree (up to the empty expression beside no other), or one path continues the other through its mark with what the expressions of the other begin with |
| `RouteIds.ConditionsToldApart` | pkg/amesh/provisioner/route_translator.go:180-187 | unless one path begins with the other and its mark, the text tells different conditions apart |
| `RouteIds.JoinDecodes` | pkg/amesh/provisioner/route_translator.go:180-184 | the joined texts of matchers can be taken apart again: equal joins come from equal lists |
| `RouteIds.UnknownQueryCollides` | pkg/amesh/provisioner/route_translator.go:319-344 | a route without expressions and one with an unknown query matcher besides share an id |
| `RouteIds.PathsCollide` | pkg/amesh/provisioner/route_translator.go:186-187 | an instance: two routes with different paths, one continuing the other, that share the text |
| `Matchers.GetHeadersMatchVars` | pkg/amesh/provisioner/route_translator.go:346-401 | one expression per header matcher in order, or an error if and only if some matcher is unknown |
| `Matchers.GetParametersMatchVars` | pkg/amesh/provisioner/route_translator.go:319-344 | one expression per query matcher in order, or an error if and only if some string pattern is unknown |
| `Matchers.HeaderMeaning` | pkg/amesh/provisioner/route_translator.go:356-398 | on a present, newline-free value of the variable that holds the header, a literal matcher's expression, under regular-expression search, decides as Envoy does with inversion, if and only if the matcher is not "absent" |
| `Matchers.VariableExact` | pkg/amesh/provisioner/route_translator.go:361-369 | the variable of a header is that of the method, of the authority, or `http_` and the header character by character in lower case with underscores for dashes |
| `Matchers.HeadersMeaning` | pkg/amesh/provisioner/route_translator.go:346-423 | the conjunction of the expressions holds exactly when all of Envoy's matchers hold |
| `Matchers.QueryMeaning` | pkg/amesh/provisioner/route_translator.go:325-341 | on a present, newline-free parameter a literal query matcher decides as Envoy does, and one that asks for presence holds exactly if the value is not empty |
| `Matchers.PatternTexts` | pkg/amesh/provisioner/route_translator.go:383-423 | regular expressions are passed on as they are, `~*` stands for a query matcher that ignores case, and an unknown one gives an empty expression |
| `ComparableVar.ToComparableString` | pkg/apisix/base.go:26-40 | the loop and its recursion compute the escaped listing |
| `ComparableVar.DecodeComparable` | pkg/apisix/base.go:26-40 | every matcher shape the translator builds is recovered from its text, whatever dots name and value hold and whatever follows it |
| `ComparableVar.ComparableInjective` | pkg/amesh/provisioner/route_translator.go:180-184 | two matchers with the same text are the same matcher |
| `ComparableVar.ListsCollide` | pkg/apisix/base.go:24-25 | arbitrary string lists can share a text |
| `Plugins.PatchAmeshPlugins` | pkg/amesh/provisioner/route_translator.go:246-284 | changes only the given route's plugin map: keeps entries named like current plugins, sets direct ones, then the two external ones |
| `Plugins.RouteRef.Copy` | pkg/apisix/route.go:76-115 | a new object over a new plugin map with the same value |
| `Plugins.UpdateRoutesPluginManifest` | pkg/amesh/provisioner/xds.go:1055-1074 | one new object per old route in order, equal but for the patched plugins, no two of which share an object or a plugin map; old objects and their plugin maps are untouched |
| `Plugins.DirectPluginsExact` | pkg/amesh/provisioner/route_translator.go:250-264 | when all current plugins are direct, the plugins of a route are exactly their configurations, whatever it held and in whatever order they are visited |
| `Plugins.HistoryFree` | pkg/amesh/provisioner/route_translator.go:250-282 | the outcome forgets the route's earlier plugins if and only if none of them is named like a current plugin that is not written again |
| `Plugins.StaleEntry` | pkg/amesh/provisioner/route_translator.go:250-255 | a plugin that turned external keeps its old direct entry |
| `Plugins.EntrySurvives` | pkg/amesh/provisioner/route_translator.go:250-264 | an entry the route had is dropped unless a current plugin has its name, replaced if that one is direct and kept otherwise |
| `Plugins.PatchedExact` | pkg/amesh/provisioner/route_translator.go:250-264 | for every name but the two external ones: an entry is there if and only if a current plugin has the name and is direct, with its configuration, or was there before, with the old value |
| `Plugins.ExternalExact` | pkg/amesh/provisioner/route_translator.go:257-282 | with plugins of an external type, its entry lists exactly these, each once, with their configurations |
| `Plugins.OrderIrrelevantIff` | pkg/amesh/provisioner/route_translator.go:257-282 | the order in which plugins are visited does not show on a route if and only if at most one of them is of each external type |
| `Strings.OrderedStrings` | pkg/amesh/util/string_set.go:45-58 | the strictly sorted listing of the set, whatever the iteration order |
| `Strings.SortedUnique` | pkg/amesh/util/string_set.go:53-58 | a set has only one strictly sorted listing |
| `Endpoints.TranslateClusterLoadAssignment` | pkg/amesh/provisioner/endpoint_translator.go:27-91 | the nested loops give the nodes of all usable endpoints in order; an empty list is exactly the further-EDS case |
| `Endpoints.TranslateLocality` | pkg/amesh/provisioner/endpoint_translator.go:33-88 | the inner loop keeps TCP socket endpoints without a named port, with the endpoint's weight, else the locality's, else 100 |
| `Endpoints.NodeExact` | pkg/amesh/provisioner/endpoint_translator.go:33-88 | the node of a TCP endpoint with a socket address and no named port: its address, its port or 0, and the endpoint's weight, else the locality's, else 100, each below 2^31 as it is and a 32-bit weight above negative |
| `Endpoints.NodesConcat` | pkg/amesh/provisioner/endpoint_translator.go:33-88 | the nodes of a listing are those of its parts, in order, wherever it is cut between localities |
| `Endpoints.LocalityConcat` | pkg/amesh/provisioner/endpoint_translator.go:41-88 | and wherever the endpoints of a locality are cut |
| `Endpoints.OneEndpoint` | pkg/amesh/provisioner/endpoint_translator.go:41-88 | a single endpoint gives its node if it is TCP, a socket address and has no named port, and none otherwise |
| `Endpoints.TranslateCluster` | pkg/amesh/provisioner/cluster_translator.go:25-108 | the upstream has the cluster's name and generated id, scheme, balancing type and timeouts; it fails if and only if the cluster is neither EDS nor custom and has no endpoints; EDS and custom clusters have no nodes, others exactly their endpoints' |
| `Endpoints.BuildUpstream` | pkg/amesh/provisioner/cluster_translator.go:25-48 | setting the fields of one upstream object step by step gives that upstream |
| `Endpoints.UpstreamRef.SetNodes` | pkg/amesh/provisioner/cluster_translator.go:86-108 | custom and EDS clusters are left without nodes; others get their endpoints' nodes or ask for EDS |
| `Iptables.SplitPorts` | cmd/iptables/main.go:187-203 | the tokens of the list |
| `Iptables.TokensExact` | cmd/iptables/main.go:187-203 | the tokens of a list cut at a comma are those of both halves in order, repetitions included, and a text without comma is its own token unless it is empty |
| `Iptables.TokenIffNamed` | cmd/iptables/main.go:187-203 | a text is a token if and only if it stands in the list, not empty, between two commas or ends |
| `Strings.SplitMember` | cmd/iptables/main.go:191-191 | the parts of a split text are exactly what stands between separators or ends |
| `Strings.SplitJoin` | cmd/iptables/main.go:191-191 | the parts hold no separator and joined again are the text |
| `Iptables.IptablesConstructor.InsertInboundRules` | cmd/iptables/main.go:118-140 | the inbound rules of the configuration are appended |
| `Iptables.IptablesConstructor.InsertOutboundRules` | cmd/iptables/main.go:142-165 | the outbound rules of the configuration are appended |
| `Iptables.IptablesConstructor.Generate` | cmd/iptables/main.go:102-114 | the whole program, skip rules before inbound and outbound ones |
| `Iptables.InboundDecision` | cmd/iptables/main.go:118-140 | for every configuration and packet, on the text of the flags: inbound TCP goes to the capture port if and only if (`*`, not port 22, no port named by the exclusion list) or (a list that names the port); nothing else is redirected |
| `Iptables.OutboundDecision` | cmd/iptables/main.go:142-174 | likewise outbound TCP goes to the proxy port if and only if it is not local traffic of the proxy user, bound for 127.0.0.1 or of the proxy group, and (`*` with a port the exclusion list does not name, or a list that names it); the proxy group's traffic never is |
| `Iptables.JumpsDefinedIff` | cmd/iptables/main.go:122-138 | every jump leads to a chain with a rule unless a non-empty inbound list names no port |
| `Iptables.DanglingIff` | cmd/iptables/main.go:122-138 | on the text of the flag: the jump dangles exactly for a non-empty inbound list of commas only |
| `Iptables.LoneComma` | cmd/iptables/main.go:122-138 | the inbound list `,` is such a one, whatever else is configured |
| `PluginComparison.PluginsConfigEqual` | controller/utils/compare.go:27-52 | equal lengths, and every new entry is in the old listing with the same configuration, both under the concatenation of type and name |
| `PluginComparison.ConfigEqualExact` | controller/utils/compare.go:27-52 | for two lists of types and names, the answer is right whatever the configurations if and only if: lengths differ and so do the plugins; or the plugins are the same and no two share a concatenation; or the new list has a concatenation the old one lacks |
| `PluginComparison.CollisionOverlooked` | controller/utils/compare.go:35-48 | a direct plugin turned into an external one is overlooked when the concatenations coincide |
| `PluginComparison.RepeatedKeyOverlooked` | controller/utils/compare.go:35-48 | with a repeated key a plugin that went away is overlooked |
| `Reconciler.DiffPods` | controller/utils/compare.go:108-150 | all pods of both selectors land in `both`; the other two sets are empty |
| `Reconciler.AmeshPluginConfigReconciler.SendPluginsConfigs` | controller/controllers/amesh/ameshpluginconfig_controller.go:262-278 | this call appends one notification per subscriber, with the namespace and exactly the given pods, or nothing if there are no pods |
| `Reconciler.AmeshPluginConfigReconciler.ReconcileDeleted` | controller/controllers/amesh/ameshpluginconfig_controller.go:135-159 | the cached configuration goes; this call tells every subscriber exactly the pods of the cached selector, and the selector goes unless listing fails |
| `Reconciler.AmeshPluginConfigReconciler.ReconcileFound` | controller/controllers/amesh/ameshpluginconfig_controller.go:164-251 | caches, the notifications this call sends and to whom, and the result, for an object that exists |
| `Reconciler.AmeshPluginConfigReconciler.Reconcile` | controller/controllers/amesh/ameshpluginconfig_controller.go:126-252 | the object does exactly the specified step, the notifications of this call included |
| `Reconciler.DeliverReaches` | controller/controllers/amesh/ameshpluginconfig_controller.go:262-278 | such notifications reach every subscriber with exactly the given pods and concern no other namespace or subscriber |
| `Reconciler.NotifiedExactly` | controller/controllers/amesh/ameshpluginconfig_controller.go:195-247 | an accepted reconcile sends, if the plugins changed, every subscriber exactly the pods of the old and of the new selector, and nothing otherwise; every subscriber learns of all pods whose membership changed if and only if the plugins changed, or no membership did, or nobody subscribes |
| `Reconciler.NotifiedOfListing` | controller/controllers/amesh/ameshpluginconfig_controller.go:205-247 | where the comparison decides, every subscriber is told exactly the pods of both selectors if the listing of the plugins changed, and nothing is sent if it did not |
| `ReconcileHistory.LastAcceptedRemembered` | controller/controllers/amesh/ameshpluginconfig_controller.go:164-191 | over any later requests that bring nothing new for the key, what is cached is the configuration and the selector of the object accepted last |
| `ReconcileHistory.OthersStay` | controller/controllers/amesh/ameshpluginconfig_controller.go:126-252 | a request leaves the cached configuration and selector of every other key alone |
| `ReconcileHistory.DeletionTells` | controller/controllers/amesh/ameshpluginconfig_controller.go:135-159 | when the object is gone, every subscriber is told exactly the pods of the selector accepted last and both caches forget the key; if the pods cannot be listed nobody is told, and the selector stays for the retry |
| `ReconcileHistory.ChangeTells` | controller/controllers/amesh/ameshpluginconfig_controller.go:176-247 | a newer object with other plugins tells every subscriber exactly the pods of the selector accepted before and of its own, which is remembered |
| `ReconcileHistory.FirstTellsAll` | controller/controllers/amesh/ameshpluginconfig_controller.go:176-247 | the first object of a key tells every subscriber all pods |
| `ReconcileHistory.LeftAlone` | controller/controllers/amesh/ameshpluginconfig_controller.go:126-191 | an object that is going, no newer or invalid, and a failed fetch, change nothing and tell nobody |
| `Reconciler.SelectorChangeLost` | controller/controllers/amesh/ameshpluginconfig_controller.go:218-247 | a change of the selector alone that moves a pod is told to nobody |
| `Reconciler.RetrySwallowed` | controller/controllers/amesh/ameshpluginconfig_controller.go:170-201 | after a listing error every retry of the same version, however many and whatever happens to other keys meanwhile, is ignored and notifies nobody |
| `Reconciler.VersionsGrow` | controller/controllers/amesh/ameshpluginconfig_controller.go:170-191 | over any requests that do not delete a key, its cached configuration stays or its version strictly grows in string order |
| `Versions.NewerRecognised` | controller/controllers/amesh/ameshpluginconfig_controller.go:173-175 | of two decimal numbers without leading zeros the greater is greater as a string if and only if they have equally many digits or its leading digits are not below the smaller one |
| `Versions.Rollover` | controller/controllers/amesh/ameshpluginconfig_controller.go:173-175 | 10...0 is the number after 9...9, and not greater as a string |
| `Reconciler.NewerAccepted` | controller/controllers/amesh/ameshpluginconfig_controller.go:170-179 | a numerically newer object is accepted exactly under that condition, and otherwise dropped without any effect |
| `Reconciler.RolloverDropped` | controller/controllers/amesh/ameshpluginconfig_controller.go:170-179 | the version after 9...9 is always dropped |

## Left out

- gRPC connections, reconnecting, timers, channels and goroutines: input and output; one stream session is modelled, and delivery order is treated in `Interleaving`.
- The SDS branch of `translate`: it writes to a map that the constructor never creates.
- Listener parsing (`GetRoutesFromListener`): an LDS response appears only as the RDS names it leads to; it changes neither routes nor upstreams.
- Static route configurations: the original translates them and drops the result, so they contribute nothing here.
- Fault-injection filters: a route carries the finished fault plugin, since the conversion is a field-by-field copy.
- `updatePlugins` and its revision skipping: the current plugin map is an input.
- Different plugin orders for the routes of one RDS response or plugin update: one order per input is modelled; by `Plugins.OrderIrrelevantIff` the difference shows only with two plugins of one external type.
- Safe-regex matchers, case folding, and absent headers and parameters in `HeaderMeaning`, `QueryMeaning` and `RouteMeaning`: they rest on engines outside the repository. So does what a wildcard in a host accepts, which is a parameter there.
- `translateRouteMirror`, `patchRoutesWithOriginalDestination`, `IsSameNodes`, `LabelSelectorEqual`: not called or without effect.
- Recording the status of an AmeshPluginConfig and the pod informer's handlers: calls into Kubernetes with no decision of their own.
- `GetPodPluginConfigs`: it looks selectors up and files a missing one in the selector cache (`controller/utils/selector_cache.go`), which a later reconcile takes for the old selector; the results about one reconcile hold for whatever is cached, and those about sequences speak of cached configurations only, which it does not write.
- Executing the iptables commands and the rule builder's command lines: rules are structured values.
- The HTTP status and metrics servers, the shared-dict bindings, generated clients, charts and end-to-end tests.
- `XdsProvisioner.UpdateRoutes`: works on route values; the object identities and the frame are the subject of `Plugins.UpdateRoutesPluginManifest`.
