# Seam Core: the DSNS zone and the lineage indexes

A Dafny model of the two stateful protocols of Seam Core, and of the pure functions they rest on, with proofs about
every input, every run or every reachable state.

**DSNS.** Several reconcilers share one in-memory DNS index: a zone keyed by record type and lower-cased name, and
an ownership map from objects to the keys they hold. The simple thing it must agree with is the batch projection:
the static records plus the records derived from each live object. Around it sit a finalizer protocol, a zone-file
printer (section 5.1 of RFC 1035) and a writer with a primary and a mirror ConfigMap.

**Lineage.** One InfrastructureLineageIndex per root declaration, written by three reconcilers that read the index
and later send a JSON merge patch (section 2 of RFC 7396) without any version check, behind two admission gates.
Some properties survive every interleaving with stale copies; others need the patch to land on the list it was
computed from. Both kinds are stated, with the point where they part.

**Conditions.** A status-condition list updated in place, described by its whole history of calls.

## Layout

| file | module | content |
|---|---|---|
| Text.dfy | Text | ASCII lower-casing, searching, decimal numbers, byte order, sorted enumerations |
| Zone.dfy | Zone | records, slots, the ZoneFile object and the text it renders |
| MasterFile.dfy | MasterFile | a reader for master-file entries, and the printer's round trip through it |
| DnsState.dfy | DnsState | the DSNSState object, its histories, and their batch projection |
| DnsLaws.dfy | DnsLaws | the zone read off its history of calls slot by slot |
| Derive.dfy | Derive | the five derive functions, key-space separation, glue |
| DeriveValues.dfy | DeriveValues | when each kind emits and what its records say |
| Writer.dfy | Writer | primary and mirror ConfigMaps with failing calls |
| Dsns.dfy, DsnsRuns.dfy | same names | the DSNS step system: finalizer safety, projection and glue in every run |
| DsnsRelease.dfy, DsnsPublish.dfy, DsnsRebuild.dfy | same names | what a finalizer release rests on, what the primary carries, and rebuilding after a restart, in the same step system |
| DsnsFleet.dfy | DsnsFleet | naming rules under which the key conditions hold, and the run theorems for objects named so |
| DsnsReconciler.dfy | DsnsReconciler | one DSNS reconcile as a method, and as steps of the step system |
| Conditions.dfy | Conditions | SetCondition, FindCondition, and the history theorem |
| Lineage.dfy | Lineage | roots, indexes, entries, naming, labels |
| Retention.dfy | Retention | the retention window in int64 nanoseconds and the pruning loop |
| Outcome.dfy | Outcome | terminal classification, as coded and as documented |
| MergePatch.dfy | MergePatch | RFC 7396 documents, computed patches, and the index as a document |
| Admission.dfy | Admission | the two gates and runs of requests through them |
| LineageRuns.dfy, LineageSerial.dfy, LineageLoss.dfy, LineageTrace.dfy, LineageAttribution.dfy | same names | the lineage step system: every interleaving, current runs, how entries get lost, where they come from, who acted |
| SyncedCondition.dfy | SyncedCondition | the LineageSynced condition of a root |
| LineageReconciler.dfy | LineageReconciler | the three lineage reconcilers as methods |
| LineageLaws.dfy | LineageLaws | what the writers store and drop, in terms of the objects alone; which objects keep their entries |

## How to read the step systems

`Dsns.Exec` and `LineageRuns.Exec` run a list of steps. A reconcile is a sequence of steps with whatever happens in
between; a call that fails is either a step with `ok == false` or a reconcile that takes no further step. Users
create, change and delete objects at any point. The DSNS finalizer is written with Update, which checks the version;
lineage patches carry no version and land on whatever is stored under the name, even a recreated index.

Main results, hardest first:

- the zone equals the batch projection over every history of fresh operations (`DnsState.ZoneIsProjection`), slot by
  slot in terms of the calls themselves (`DnsLaws.ZoneSays`), and an
  owner's coming and going is harmless exactly for fresh slots (`DnsState.ComingAndGoingIsHarmlessIffFresh`);
- held records always have their object and its finalizer behind them, and the finalizer goes only after the
  releasing reconcile's own clean publication (`Dsns.HeldRecordsAreGuarded`, `DsnsRelease.ReleaseFollowsCleanPublication`);
- rendering is a lossless printer (`MasterFile.RenderedIsLossless`);
- rebuilding after a restart is confluent, over all interleavings with failing calls
  (`DsnsRebuild.RebuildIsComplete`, `DsnsRebuild.RebuildIsConfluent`);
- no stored list ever names a UID twice, however stale the writers (`LineageRuns.RunsAreGood`), and how outcome
  writers are woven into the others never shows (`LineageRuns.WeavingDoesNotMatter`);
- in every interleaving an entry is lost only to a write from a copy that lacks it or to a prune of a copy in which it
  has expired (`LineageLoss.LossHasACause`, `LineageLoss.SurvivesIff`); with current copies, only by pruning under the
  retention rules (`LineageLoss.LossIsPruning`);
- over every run, once copies are current, an entry leaves an index only at a prune that did not find the very object
  the entry was made from, at the age the index's own policy sets (`LineageLaws.LossMeansGone`);
- the primary carries the current zone in every settled state of a run exactly if every write that leaves nothing under
  way does (`DsnsPublish.PrimaryIsCurrentIff`);
- every entry names the principal of its index exactly as long as no registry lands on the index of another principal,
  however stale the writers (`LineageAttribution.AttributedIffLanding`);
- a completed lineage reconcile settles its root, and the next one is idle
  (`LineageReconciler.LineageReconciler.Reconcile`);
- a condition list is determined by its history of calls (`Conditions.HistoryIsTold`,
  `Conditions.DescriptionUnique`).

## Where the code and its documentation disagree

The model follows the code.

- outcome_reconciler.go lists its classification rules in order, but the loop returns at the first decisive condition
  in list order. `Outcome.AgreesIff` says exactly when both pick the same condition; `Outcome.OrderMatters` is a list
  on which they differ.
- The types describe descendant entries as never removed (api/v1alpha1/infrastructurelineageindex_types.go:208-212);
  the lineage reconciler prunes them, by the rules `Retention.KeptIsFilter` spells out.
- Appending is described as monotonic, but two descendant reconciles that both read before either writes lose one of
  the entries: `LineageSerial.StaleAppendLoses`. A patch only adds exactly when its copy of the list is current:
  `LineageSerial.AppendsOnlyIffCurrent`. Outcomes fare the same: `LineageSerial.StaleOutcomeLoses`. A prune racing an
  append loses the new entry although the append's copy was current: `LineageLoss.StalePruneLoses`. A stored entry
  survives a step exactly under the condition of `LineageLoss.SurvivesIff`.
- ActorRef is documented as propagated from the index's declaring principal. An entry computed from the copy of an
  index that was deleted and made again for another principal carries the old one:
  `LineageAttribution.RecreatedIndexMisattributes`.
- RootGenerationAtCreation is documented as the root's generation and filled with the derived object's own:
  `Lineage.RecordedGenerationIff`, `Lineage.RecordedGenerationCanDiffer`.
- A retention of more than 106751 days overflows the int64 window, which can turn negative:
  `Retention.WindowExactIff`, `Retention.WindowCanTurnNegative`.
- Records are documented as owned by one object, but nothing stops two owners from claiming one key; removing either
  removes the record. `Derive.DottedPacksCanCollide` has two such owners, and
  `DnsState.ComingAndGoingIsHarmlessIffFresh` the exact condition.
- Overlapping Applies can leave the primary with an older zone than the index holds:
  `DsnsPublish.OverlapCanPublishStale`. The exact condition is `DsnsPublish.PrimaryIsCurrentIff`.

## Model

| member | source | states |
|---|---|---|
| Zone.KeySplitsIff | internal/dns/zone.go:50-52 | a record key split at its first colon and built again is the same key exactly when whatever follows a colon inside the type is in lower case already; so for every type without a colon |
| Zone.ZoneFile.AddRecord | internal/dns/zone.go:70-75 | the slot of the record's type and lower-cased name holds the record, with TTL 0 replaced by the default; other slots keep; every record stays filed under its own key |
| Zone.ZoneFile.RemoveRecord | internal/dns/zone.go:78-80 | exactly the slot of the type and name is emptied, and every record stays filed under its own key |
| Zone.ZoneFile.SortedKeys | internal/dns/zone.go:106-111 | the keys of the map in ascending byte order, each once, whatever the map's iteration order |
| Zone.ZoneFile.Render | internal/dns/zone.go:87-131 | the text is a function of the record map and the serial alone |
| MasterFile.RenderedReadsBack | internal/dns/zone.go:87-131 | an RFC 1035 section 5.1 reader gives back the header and then every record of the map exactly once, in strictly ascending key order, for every printable zone |
| MasterFile.RenderedIsLossless | internal/dns/zone.go:106-131 | the record map recovered from the text is the map that was rendered |
| MasterFile.RenderedInjective | internal/dns/zone.go:87-131 | two zones with one text are the same zone under the same serial |
| MasterFile.OtherTypesPrintAsA | internal/dns/zone.go:119-127 | outside the three declared types losslessness fails: any other type prints as A, so two different zones share a text |
| MasterFile.HeaderSays | internal/dns/zone.go:87-104 | what a reader finds above the records of every printable zone: the origin, the lifetime 300, the SOA with name server, contact, serial, 3600, 900, 604800 and 300 in this order, and the apex NS; and one entry per record after them |
| Text.LessIff | internal/dns/zone.go:106-111 | the sort order is decided where two keys first part, by the end of the one or the lesser byte |
| DnsState.DSNSState.SetStaticRecord | internal/dns/state.go:52-56 | the record takes its slot and no ownership changes |
| DnsState.DSNSState.UpdateRecords | internal/dns/state.go:60-73 | the owner's old keys go, its new records are added in order, and it owns exactly the new keys; with no records it owns nothing |
| DnsState.DSNSState.RemoveRecords | internal/dns/state.go:77-81 | the owner's keys go and it is forgotten |
| DnsState.DSNSState.RemoveOwnerLocked | internal/dns/state.go:110-121 | the loop over the owner's keys, splitting each at its first colon, clears those slots and the ownership entry |
| DnsState.DSNSState.RenderZone | internal/dns/state.go:90-93 | the text rendered under the lock is that of the current zone |
| DnsState.ContributionIsLast | internal/dns/state.go:67-72 | a list contributes one record per key, its last duplicate with the TTL defaulted |
| DnsState.ZoneIsProjection | internal/dns/state.go:52-81 | over every history in which each operation is fresh, the zone is exactly the static records plus each owner's latest list, and no two of those share a slot |
| DnsState.ProjectionUnique | internal/dns/state.go:52-81 | the batch projection determines the zone |
| DnsState.NoOrphans | internal/dns/state.go:52-81 | with no disjointness assumed, every zone key is static or held by some owner |
| DnsState.RemovalIsExact | internal/dns/state.go:110-121 | removing an owner clears all its keys and touches no others |
| DnsLaws.SharedSlotIff | internal/dns/zone.go:48-52 | two records share a slot if and only if their types are equal and their names agree up to case |
| DnsLaws.ZoneSays | internal/dns/state.go:52-81 | over every history of fresh operations a slot holds a record if and only if that record, with TTL 0 read as 300, is the last static one set there, or the last one for it in the list some owner registered with its latest call |
| DnsState.ComingAndGoingIsHarmlessIffFresh | internal/dns/state.go:60-81 | an owner that registers records and leaves again leaves the projection intact if and only if its slots were neither static nor held by another owner |
| Derive.KindsNeverCollide | internal/controller/dsns_reconciler.go:274-289 | records of two different watched kinds never share a slot, for any names, fields and conditions |
| Derive.DerivedShape | internal/controller/dsns_reconciler.go:319-503 | whatever an object emits: only TalosClusters emit A or NS records, and every TXT record opens with the label of its kind (when and with what values: the rows of DeriveValues) |
| Derive.TalosClustersCollideIff | internal/controller/dsns_reconciler.go:319-369 | two emitting TalosClusters collide if and only if their names agree up to case or one emits an address under the other's name |
| Derive.DistinctTalosClustersAreApart | internal/controller/dsns_reconciler.go:341-366 | TalosClusters with distinct dot-free names never collide |
| Derive.StaticSlotTakenIff | cmd/seam-core/main.go:134-154 | a derived record takes a static slot if and only if its object is an emitting TalosCluster called ns |
| Derive.IdentityProvidersCollideIff | internal/controller/dsns_reconciler.go:409-421 | emitting IdentityProviders collide if and only if their names agree up to case |
| Derive.RunnerConfigsCollideIff | internal/controller/dsns_reconciler.go:481-503 | emitting RunnerConfigs in dot-free namespaces collide if and only if name and cluster label agree up to case |
| Derive.TenantRunnerConfigsCollideIff | internal/controller/dsns_reconciler.go:481-554 | with one of them in a tenant namespace whose cluster is neither empty nor management, they collide if and only if name and namespace agree |
| Derive.IdentityBindingsCollideIff | internal/controller/dsns_reconciler.go:379-400 | emitting IdentityBindings collide if and only if subject hash and cluster agree up to case |
| Derive.PackInstancesCollideIff | internal/controller/dsns_reconciler.go:436-471 | emitting PackInstances with dot-free pack and cluster names collide if and only if pack, version and cluster agree up to case |
| Derive.DottedPacksCanCollide | internal/controller/dsns_reconciler.go:467-470 | with dots allowed, two PackInstances of different packs can share a slot |
| Derive.DerivedIsGlueClosed | internal/controller/dsns_reconciler.go:341-354 | whatever an object contributes, every NS record in it comes with the A record of the name server it names |
| Derive.DeriverIsSound | internal/controller/dsns_reconciler.go:274-289 | derived records have splittable keys, come with their glue, and do not depend on finalizers, deletion marks or versions |
| DeriveValues.TalosClusterEmitsIff | internal/controller/dsns_reconciler.go:319-330 | a TalosCluster emits if and only if some condition of type Ready is "True" and spec.clusterEndpoint is there and not empty |
| DeriveValues.TalosClusterSays | internal/controller/dsns_reconciler.go:341-368 | the records of an emitting TalosCluster, one by one: both addresses carry the endpoint; a screened one delegates to ns.NAME.seam.ontave.dev with the endpoint as glue, any other has its role: origin, else mode, else general |
| DeriveValues.IdentityBindingEmitsIff | internal/controller/dsns_reconciler.go:379-390 | an IdentityBinding emits if and only if TrustAnchorResolved is true, its namespace names a tenant cluster, and it has a subject |
| DeriveValues.IdentityBindingSays | internal/controller/dsns_reconciler.go:391-399 | its one record: the hash and cluster in the name, profile, blank and provider as the text |
| DeriveValues.IdentityProviderEmitsIff | internal/controller/dsns_reconciler.go:409-416 | an IdentityProvider emits if and only if Valid is true and it has an issuer URL |
| DeriveValues.IdentityProviderSays | internal/controller/dsns_reconciler.go:417-420 | its one record carries that URL |
| DeriveValues.PackInstanceEmitsIff | internal/controller/dsns_reconciler.go:436-459 | a PackInstance emits if and only if Ready is true and it names a target cluster or lives in a tenant namespace |
| DeriveValues.PackInstanceSays | internal/controller/dsns_reconciler.go:440-470 | its one record: pack (else the object name), version (else unknown) and cluster in the name, the digest (else delivered) as the text |
| DeriveValues.RunnerConfigEmitsIff | internal/controller/dsns_reconciler.go:481-503 | a RunnerConfig emits if and only if Ready or Degraded is true |
| DeriveValues.RunnerConfigSays | internal/controller/dsns_reconciler.go:481-503 | its one record: the tenant cluster, else management, in the name; the phase is Completed if and only if some Ready is true; the time is that of the first condition of the deciding type with a time |
| DeriveValues.OthersEmitNothing | internal/controller/dsns_reconciler.go:274-289 | any other kind emits nothing |
| DeriveValues.ClusterFromNamespaceIff | internal/controller/dsns_reconciler.go:548-554 | the cluster of a namespace is what follows seam-tenant-, and there is one exactly for namespaces that open so |
| DeriveValues.SinceIsFirst | internal/controller/dsns_reconciler.go:530-546 | the transition time read is that of the first condition of the type that has one, and empty if none has |
| DeriveValues.NsGlue | internal/controller/dsns_reconciler.go:170-199 | the glue is the A record of ns with the ingress address, or the fallback when there is none, and no record when both are empty |
| Dsns.OwnerIdInjective | internal/controller/dsns_reconciler.go:508-510 | owner identifiers of objects whose kind and namespace have no slash are distinct |
| Dsns.FilteredKeepsOthers | internal/controller/dsns_reconciler.go:579-588 | removing the DSNS finalizer leaves the list at exactly the positions of the other finalizers: each as often as before and in their order |
| Dsns.RunsAreSafe | internal/controller/dsns_reconciler.go:202-268 | in every run with user changes at any point and calls failing arbitrarily, the safety invariant holds: guards stand behind owned records and behind every reconcile that relies on them, and cleared owners hold nothing |
| Dsns.HeldRecordsAreGuarded | internal/controller/dsns_reconciler.go:213-262 | in every run an object with held records is still present and carries the DSNS finalizer |
| Dsns.MirrorFollowsPrimary | internal/dns/configmap.go:62-105 | in every run whatever the mirror carries was acknowledged by the primary |
| DsnsRuns.RunsAreClean | internal/controller/dsns_reconciler.go:202-268 | in every run whose objects keep to exclusive claims, the index is a history of fresh operations and every zone on its way to the primary is glue-closed and free of cleared owners |
| DsnsRuns.RunsProject | internal/dns/state.go:60-101 | hence in every such run the zone is the batch projection of its history |
| DsnsRuns.PublishedDelegationsHaveGlue | internal/controller/dsns_reconciler.go:341-354 | every zone the primary ever acknowledged has, for each delegation NS record, the in-zone A record of its name server (section 4.2.1 of RFC 1034) |
| DsnsRuns.GuardLostOnlyByDrop | internal/controller/dsns_reconciler.go:226-237 | the only step by which an object loses its guard is the reconciler's own release of the finalizer |
| DsnsRelease.TrailHistory | internal/dns/state.go:90-101 | a reconcile that carries a zone rendered it itself at an earlier step and has carried it without a break since; one past its Apply also wrote it to the primary at a step in between |
| DsnsRelease.ReleaseFollowsCleanPublication | internal/controller/dsns_reconciler.go:226-237 | a finalizer is lost only by its release, and then the releasing reconcile, meaning to release, has itself rendered a zone with none of the owner's slots, the primary has acknowledged that zone since, and the owner has held nothing from the rendering on |
| DsnsRelease.ReleaseFindsPrimaryClean | internal/controller/dsns_reconciler.go:226-237 | when Applies do not overlap, the primary itself carries none of the object's slots when its finalizer goes |
| DsnsPublish.PrimaryIsCurrentIff | internal/dns/state.go:90-101 | over every run from a fresh process, with overlaps and failing calls: every settled state along it has the current zone in the primary if and only if every successful write that leaves nothing under way carries the current zone |
| DsnsPublish.SettledPrimaryIsCurrent | internal/dns/state.go:90-101 | once a run with such writes has settled, whatever overlapped on the way, the primary carries the current zone |
| DsnsPublish.SerialAppliesLand | internal/dns/state.go:90-101 | Applies that do not overlap have such writes, whatever fails |
| DsnsPublish.OverlapCanPublishStale | internal/dns/state.go:90-96 | with overlapping Applies a settled primary can carry an older zone than the index |
| DsnsFleet.FleetClaimsAreExclusive | internal/controller/dsns_reconciler.go:319-503 | the slots that TalosClusters, IdentityProviders and tenant RunnerConfigs could ever emit are claimed by one object each |
| DsnsFleet.ProgramStaticsAreOk | cmd/seam-core/main.go:134-154 | the two static records of the program lie outside every such claim |
| DsnsFleet.EligibleActsAreOk | internal/controller/dsns_reconciler.go:319-503 | every creation and change of such an object keeps to its claim, so the run theorems apply to it |
| DsnsFleet.FleetStartIsOk | cmd/seam-core/main.go:134-154 | a fresh process over such objects with the program's seeds meets the start condition of the run theorems |
| DsnsFleet.FleetsProject | internal/controller/dsns_reconciler.go:202-268 | in every run of such a fleet, with no condition on keys left, the zone is the batch projection and every acknowledged zone is glue-closed |
| DsnsFleet.FleetsReleaseCleanly | internal/controller/dsns_reconciler.go:226-237 | in every run of such a fleet a finalizer is released only after the clean publication of a zone with no slot the object could ever emit |
| DsnsFleet.FleetsLeavePrimary | internal/controller/dsns_reconciler.go:226-237 | and when Applies do not overlap, the primary then carries no slot the object could ever emit |
| DsnsFleet.FleetsRebuild | internal/controller/dsns_reconciler.go:319-503 | such a fleet meets the conditions of the rebuild theorems |
| Writer.ConfigMapZoneWriter.Put | internal/dns/configmap.go:111-157 | get-then-create-or-patch of one ConfigMap: on success its zone entry is the content, on failure nothing changes, and no other ConfigMap or entry is touched |
| Writer.ConfigMapZoneWriter.ApplyContent | internal/dns/configmap.go:62-105 | an error if and only if the primary failed, and then nothing changed; mirror failures are no error and leave the mirror alone; each content reaches the mirror after the primary acknowledged it |
| Writer.PrimaryFirstGrows | internal/dns/configmap.go:62-105 | primary-before-mirror is kept by every write |
| DsnsReconciler.DSNSReconciler.Apply | internal/dns/state.go:90-101 | a successful Apply leaves the primary with the text of the current zone |
| DsnsReconciler.DSNSReconciler.Retire | internal/controller/dsns_reconciler.go:226-237 | the records go in any case; the finalizer goes only after a successful publication; nothing else about the objects changes; an error if and only if the primary read or write or the release fails |
| DsnsReconciler.DSNSReconciler.EnsureFinalizer | internal/controller/dsns_reconciler.go:239-249 | a live object ends up with the finalizer unless a call failed, and never loses it; an error if and only if the finalizer was missing and adding it or reading again fails |
| DsnsReconciler.DSNSReconciler.Register | internal/controller/dsns_reconciler.go:239-264 | a live object's records are registered under its owner, or the call failed and the index is as before; success publishes and leaves the finalizer on; guards are kept; an error if and only if adding a missing finalizer, reading again, or the primary read or write fails |
| DsnsReconciler.DSNSReconciler.Reconcile | internal/controller/dsns_reconciler.go:202-268 | an error if and only if a call on the object's path fails, stated for a missing, a live, a held and a released object; the index is exactly the glue refresh, followed by the object's own operation unless the first read or the finalizer failed; without error the object's finalizer ends up as its deletion mark asks; success publishes; the finalizer goes only with the records and after publication; the other finalizers and every other object keep; guards are kept |
| DsnsReconciler.CompletedMeans | internal/controller/dsns_reconciler.go:214-265 | after a completed reconcile a live object owns exactly the keys of its records and each of these slots carries the last of them; a gone or going one owns nothing and its slots are empty; every other owner, and every slot the owner had no part in, is as before |
| DsnsReconciler.PassIsReconcile | internal/controller/dsns_reconciler.go:202-268 | an undisturbed reconcile in the step system does to objects and index what the method promises for a call without error, publishes the zone, and leaves the other reconciles where they were |
| DsnsReconciler.WholeLife | internal/controller/dsns_reconciler.go:202-268 | an object's undisturbed life in the step system: created and reconciled it has its finalizer and its owner holds exactly the keys of its records; deleted it stays; reconciled again its records are off the index and it is gone; the zone is published both times |
| DsnsRebuild.LiveZoneUnique | internal/controller/dsns_reconciler.go:202-289 | static records plus the records of all live objects describe one zone |
| DsnsRebuild.RunsProgress | internal/controller/dsns_reconciler.go:202-289 | in every interleaving from a fresh process while users leave the objects alone, with restarts and failing calls, the same objects stay live with the same content, every copy is true to its object, and the index holds exactly the live objects registered since the last restart |
| DsnsRebuild.RebuildIsComplete | internal/dns/state.go:18-21 | once every live object has been registered since the last restart, in any order, with any repeats, interleaving and failures, the zone is the static records plus the projection of the live objects, as they were and as they are |
| DsnsRebuild.RebuildIsConfluent | internal/dns/state.go:18-21 | any two such runs with the load balancer's address unchanged have the same zone and, for one serial, the same text |
| Conditions.ConditionList.FindCondition | pkg/conditions/conditions.go:54-61 | the first position of the type, or none when it does not occur |
| Conditions.ConditionList.SetCondition | pkg/conditions/conditions.go:22-50 | the list after one call: appended, or overwritten in place with the transition time moved only when the status changes |
| Conditions.HistoryIsTold | pkg/conditions/conditions.go:19-50 | over every history of calls from an empty list: one entry per type ever set, in the order of first calls, holding the last call's fields, with the transition time of the call that opened the current run of equal status |
| Conditions.DescriptionUnique | pkg/conditions/conditions.go:19-50 | that description fits one list only, so the list is a function of the history |
| Lineage.KindsStayDistinct | internal/controller/lineage_controller.go:64-95 | the registered kinds are dash-free and stay distinct when lower-cased |
| Lineage.SharedKeyIff | internal/controller/lineage_controller.go:462-469 | two roots of registered kinds share an index key if and only if kind, namespace and name agree |
| Lineage.Built | internal/controller/lineage_controller.go:219-259 | the index built for a root sits at the key recomputed from its own binding, has a non-empty declaring principal, and starts with empty lists |
| LineageLaws.BuiltSays | internal/controller/lineage_controller.go:219-259 | the new index sits at the lower-cased kind, a dash and the name in the namespace of the root; its binding is the root field by field; the declaring principal is the annotation when it is there and not empty, and system:unknown otherwise; the domain reference, the labels and no retention |
| LineageLaws.BuiltIsAnnotated | internal/controller/lineage_controller.go:229-237 | exactly the four governance annotations |
| Lineage.LabelledObject.SetDescendantLabels | pkg/lineage/descendant.go:52-63 | the five label keys are written and the others kept |
| Lineage.LabelsReadBack | pkg/lineage/descendant.go:52-63 | each of the five values reads back under its own key |
| LineageLaws.LabelledSays | pkg/lineage/descendant.go:52-63 | exactly the five named keys are written, each with its own argument, and every other label keeps |
| Lineage.LabelsLeadHome | pkg/lineage/descendant.go:33-63 | an object labelled for a root points at exactly that root's index key, unless the index namespace given is empty and the object's own is not; its entry carries the given operator and rationale and the actor of the index |
| Lineage.LabelsReachOneRoot | internal/controller/descendant_reconciler.go:76-93 | labels written for one registered root reach another root's index if and only if both are one root |
| Lineage.RecordedGenerationIff | internal/controller/descendant_reconciler.go:133 | the generation stored with an entry is the root's if and only if the derived object has the same generation |
| Lineage.RecordedGenerationCanDiffer | internal/controller/descendant_reconciler.go:133 | for every root there is a derived object pointing at its index that is recorded with another generation |
| LineageLaws.TargetIff | internal/controller/descendant_reconciler.go:76-90 | the index an object points at is the one its label names, in the namespace of the other label or else its own; none without the label |
| LineageLaws.AppendSays | internal/controller/descendant_reconciler.go:92-143 | an append to an index that does not list the object adds one entry at the end and touches nothing else: group, version, kind, namespace, name and UID are the object's, the time is the clock, the actor the binding's principal or else the label, operator and rationale the labels |
| LineageLaws.AppendLeaves | internal/controller/descendant_reconciler.go:76-111 | in every other case nothing changes |
| LineageLaws.OutcomeSays | internal/controller/outcome_reconciler.go:76-105 | an outcome append adds one outcome at the end and touches nothing else: the object's UID, the clock, and the type, reason and message of its first terminal condition |
| LineageLaws.OutcomeLeaves | internal/controller/outcome_reconciler.go:56-91 | without a terminal condition, or with the outcome recorded, nothing changes |
| Retention.WindowExactIff | internal/controller/lineage_controller.go:364-368 | for every positive int32 the window is that many days exactly up to 106751 days, and not beyond |
| Retention.WindowCanTurnNegative | internal/controller/lineage_controller.go:368 | one day more and the window is negative |
| Retention.Prune | internal/controller/lineage_controller.go:372-415 | the loop keeps what the three rules keep, and reports pruning if and only if something was dropped |
| Retention.KeptIsFilter | internal/controller/lineage_controller.go:375-411 | what is kept is the registry at exactly the positions some keep rule holds at, in their order |
| Retention.LaterPassAbsorbs | internal/controller/lineage_controller.go:375-411 | over fixed objects, pruning now and again later is pruning later: a later clock drops no less |
| Retention.SecondPassDropsNothing | internal/controller/lineage_controller.go:375-411 | at a fixed clock and over fixed objects a second pass drops nothing |
| LineageLaws.PassDropsIff | internal/controller/lineage_controller.go:359-421 | for every policy of up to 106751 days, a pass drops an entry if and only if it has a timestamp, its object is not found, and the clock is at least the policy's days past the timestamp: 30 days where there is no policy or its days are not positive |
| LineageLaws.StepDropsIff | internal/controller/lineage_controller.go:359-421 | the same of a pruning step of the run model on a current copy |
| LineageLaws.PolicyInForce | internal/controller/lineage_controller.go:364-368 | in every interleaving the policy read from an index that stays is the one last set on it, or else the one it had; no reconcile changes it |
| LineageLaws.WrappedDropsIff | internal/controller/lineage_controller.go:364-385 | for every int32 of days the bound is the int64 congruent to them in nanoseconds |
| Outcome.ClassifyTerminalOutcome | internal/controller/outcome_reconciler.go:124-169 | the loop gives the verdict of the first decisive condition in list order, and none if and only if no condition is decisive (which are decisive, and what they say: Outcome.ClassifyTable) |
| Outcome.ClassifyTable | internal/controller/outcome_reconciler.go:124-169 | nothing is recorded if and only if no condition is Ready with True or False, or Drifted, Succeeded or Failed with True; otherwise the first such one decides, with its own reason and message: Ready with False is Drifted if and only if "drift" stands somewhere in the lower-cased reason, otherwise Superseded if and only if "superseded" does, otherwise Failed |
| Outcome.DocumentedExists | internal/controller/outcome_reconciler.go:113-123 | the documented rules pick a condition whenever some condition is decisive |
| Outcome.DocumentedRanks | internal/controller/outcome_reconciler.go:113-123 | that condition is terminal, the first of its type, and of the earliest type present in the order Ready, Drifted, Succeeded, Failed |
| Outcome.AgreesIff | internal/controller/outcome_reconciler.go:117-169 | code and documented rule order pick the same condition if and only if no decisive condition comes under an earlier rule than the first decisive one |
| Outcome.AgreesWhenInOrder | internal/controller/outcome_reconciler.go:117-169 | they agree on every list whose decisive conditions appear in rule order |
| Outcome.OrderMatters | internal/controller/outcome_reconciler.go:117-169 | Failed before Ready, both true: recorded as Failed, documented as Succeeded |
| MergePatch.DiffRoundTrip | internal/controller/descendant_reconciler.go:139-141 | the patch computed between a base and its modification, applied to the base, gives the modification, for all null-free documents |
| MergePatch.MergeFrame | internal/controller/descendant_reconciler.go:139-141 | members that base and modification share are left alone on whatever document the patch lands |
| MergePatch.DescendantsPatch | internal/controller/descendant_reconciler.go:139-141 | a patch of the descendant registry replaces that list in the stored index, whole, and nothing else; no change, no effect |
| MergePatch.OutcomesPatch | internal/controller/outcome_reconciler.go:101-103 | the same for the outcome registry |
| MergePatch.OwnersPatch | internal/controller/lineage_controller.go:457-459 | the same for the owner references |
| MergePatch.EncodeInjective | api/v1alpha1/infrastructurelineageindex_types.go:193-233 | the document of an index determines the index, empty lists being left out |
| Admission.RawEqualIff | internal/webhook/rootbinding_immutability.go:107-126 | raw equality is equality of meaning, except that malformed text equals nothing |
| Admission.RawEqualLaws | internal/webhook/rootbinding_immutability.go:107-126 | it is symmetric and transitive on all inputs, and reflexive exactly on absent or valid values; exactly the empty text and null are absent, and present values are equal if and only if they parse to the same |
| Admission.UpdateAdmittedIff | internal/webhook/rootbinding_immutability.go:77-101 | both gates let an index update through if and only if the controller asks and the binding means what it meant |
| Admission.AdmitsIff | internal/webhook/authorship_gate.go:59-84 | the whole decision of both gates: another kind, any deletion, a creation by the controller, or an update by the controller to a binding of the same well-formed meaning, and nothing else |
| Admission.ServeSays | internal/webhook/rootbinding_immutability.go:77-101 | what each kind of request leaves of an index, case by case |
| Admission.ServeSeals | internal/webhook/authorship_gate.go:59-84 | each served request keeps the seal and the birth binding, and only the controller or a deletion changes anything |
| Admission.BindingIsSealed | internal/webhook/rootbinding_immutability.go:77-126 | over every run of requests by anybody, a stored binding equals the one its index was created with |
| Admission.UpdatesKeepMeaning | internal/webhook/rootbinding_immutability.go:77-126 | over any chain of requests without deletion the last binding means what the first did |
| Admission.OnlyTheControllerWrites | internal/webhook/authorship_gate.go:59-84 | requests by others leave an index as it is or delete it |
| LineageRuns.RunsAreGood | internal/controller/descendant_reconciler.go:92-143 | in every interleaving with stale copies, no descendant, outcome or owner list, stored or copied, names a UID twice, and every index sits at the key recomputed from its binding |
| LineageRuns.EveryStoredListIsUnique | internal/controller/outcome_reconciler.go:68-105 | the same at every point of every run from an empty store |
| LineageRuns.OutcomesDoNotInterfere | internal/controller/outcome_reconciler.go:101-105 | erasing every step of every outcome reconcile changes nothing in what the other reconciles read and write |
| LineageRuns.OthersDoNotInterfere | internal/controller/descendant_reconciler.go:139-143 | erasing every step of the others changes nothing in what outcome reconciles read and write |
| LineageRuns.WeavingDoesNotMatter | internal/controller/outcome_reconciler.go:101-105 | two interleavings of the same outcome steps with the same other steps end with the same indexes |
| LineageSerial.PairIsSerialD | internal/controller/descendant_reconciler.go:92-143 | read and append without anything in between is the serial append |
| LineageSerial.PairIsSerialO | internal/controller/outcome_reconciler.go:68-105 | the same for outcomes |
| LineageSerial.AppendsCommute | internal/controller/descendant_reconciler.go:139-143 | a descendant append and an outcome append, woven in any way, give the result of running the one after the other |
| LineageSerial.NeitherEntryIsLost | internal/controller/outcome_reconciler.go:101-105 | on the same index, neither entry is lost |
| LineageSerial.AppendsOnlyIffCurrent | internal/controller/descendant_reconciler.go:139-141 | an append adds to the stored registry if and only if its copy of the registry is current |
| LineageSerial.StaleAppendLoses | internal/controller/descendant_reconciler.go:139-141 | two appenders that both read first: the first entry is lost, for every index and every two new objects |
| LineageSerial.OutcomeAppendsOnlyIffCurrent | internal/controller/outcome_reconciler.go:101-103 | an outcome append adds to the stored registry if and only if its copy of the registry is current |
| LineageSerial.StaleOutcomeLoses | internal/controller/outcome_reconciler.go:101-103 | two outcome appenders that both read first: the first outcome is lost, for every index and every two new terminal objects |
| LineageSerial.SerialIsCurrent | internal/controller/descendant_reconciler.go:92-143 | a read-to-patch that is one step is current, so the theorems on current runs apply |
| LineageSerial.SerialPruneIsCurrent | internal/controller/lineage_controller.go:359-421 | so is a prune |
| LineageSerial.CurrentConcat | internal/controller/descendant_reconciler.go:92-143 | current runs one after the other are a current run, so every sequence of serial reconciles is |
| LineageSerial.CurrentStepD | internal/controller/lineage_controller.go:359-421 | a current step leaves a registry alone, appends one entry with a new UID at its end, or drops entries by the keep rules |
| LineageSerial.SurvivorsKeepOrder | internal/controller/lineage_controller.go:372-420 | over every current run survivors keep their order and newcomers stand behind them |
| LineageSerial.OutcomesOnlyGrow | internal/controller/outcome_reconciler.go:76-105 | over every current run the outcome registry only grows at its end |
| LineageLoss.SurvivesIff | internal/controller/lineage_controller.go:359-421 | a stored entry survives a step on an index that stays if and only if the step does not write the registry from a copy that lacks the entry, nor prune a copy in which it has expired |
| LineageLoss.LossHasACause | internal/controller/descendant_reconciler.go:92-143 | over every interleaving an entry that disappears from an index that stays was taken out at some step for one of these two reasons |
| LineageLoss.LossIsPruning | internal/controller/lineage_controller.go:359-421 | when whatever is written to that index comes from a current copy, such an entry was taken out by a lineage reconcile pruning that very index: it had a timestamp, had reached the window in force, and its object was confirmed not found |
| LineageLoss.CurrentRunsAreCurrentOn | internal/controller/lineage_controller.go:359-421 | current runs are current on every index |
| LineageLoss.StalePruneLoses | internal/controller/lineage_controller.go:417-420 | a prune that read before an append and patches after it takes the new entry out, for every index with something to prune |
| LineageLoss.RacingAppendIsCurrent | internal/controller/descendant_reconciler.go:139-141 | the append of that run had a current copy and had put its entry in |
| LineageLaws.EntriesAreTraced | internal/controller/descendant_reconciler.go:62-143 | in every run from nothing each stored entry was made at some step out of an object the same reconcile had read before |
| LineageLaws.TracedEntriesName | internal/controller/lineage_controller.go:387-399 | such an entry bears that object's identity and the clock of its append, and looking it up asks for exactly that object |
| LineageLaws.LossMeansGone | internal/controller/lineage_controller.go:359-421 | over every run from nothing: once what is written to an index comes from current copies, an entry that leaves it does so at a prune whose lookup did not find the very object the entry was made from, when the days of the policy in force had passed since the append |
| LineageLaws.LiveObjectsStayListed | internal/controller/lineage_controller.go:387-407 | hence an object that no lookup reports as not found keeps its entry, whatever the clocks and policies |
| LineageAttribution.EntriesAreAttributed | internal/controller/descendant_reconciler.go:113-136 | in every interleaving from nothing, however stale, in which each registry written lands on an index with the principal of its copy or is empty, every entry of every index and copy names that index's declaring principal, which is not empty |
| LineageAttribution.AttributedIffLanding | internal/controller/descendant_reconciler.go:113-136 | that condition is exact: every store along a run is attributed if and only if every registry lands so |
| LineageAttribution.UndeletedRunsLand | internal/controller/descendant_reconciler.go:113-141 | it holds in every interleaving in which no index is deleted |
| LineageAttribution.CurrentRunsLand | internal/controller/descendant_reconciler.go:113-141 | it holds in every current run, deletions and all |
| LineageAttribution.RecreatedIndexMisattributes | internal/controller/descendant_reconciler.go:113-141 | an index deleted and made again for another principal between a read and its append ends up with an entry of the old principal |
| LineageTrace.RunsAreTraced | internal/controller/descendant_reconciler.go:76-143 | in every interleaving, each entry in any list, stored or copied, was made by some append of the run |
| LineageTrace.EntriesComeFromTheirObjects | internal/controller/descendant_reconciler.go:76-136 | each stored entry was built from a derived object whose labels point at that index |
| LineageTrace.OutcomesAreFirstDecisive | internal/controller/outcome_reconciler.go:76-99 | each recorded outcome is that of the first decisive condition of a derived object whose labels point at the index |
| LineageTrace.AppendIsMergePatch | internal/controller/descendant_reconciler.go:139-141 | what an append stores is the merge patch between the copy and its modification, on whatever is stored |
| LineageTrace.PruneIsMergePatch | internal/controller/lineage_controller.go:417-420 | the same for pruning |
| LineageTrace.OutcomeIsMergePatch | internal/controller/outcome_reconciler.go:101-103 | the same for outcomes |
| LineageTrace.OwnerIsMergePatch | internal/controller/lineage_controller.go:457-459 | the same for owner references |
| LineageTrace.StepsAreAdmitted | internal/webhook/rootbinding_immutability.go:77-101 | in every run, every update a reconcile makes passes both gates when sent by the controller, however stale its copy |
| LineageTrace.BindingNeverChanges | internal/controller/lineage_controller.go:417-459 | over every run an index that is not deleted keeps its binding |
| SyncedCondition.Check | internal/controller/lineage_controller.go:302-312 | true if and only if some LineageSynced condition is true |
| SyncedCondition.Rewrite | internal/controller/lineage_controller.go:325-339 | every LineageSynced entry is replaced where it stands, or the condition appended when there is none |
| SyncedCondition.EnsuredSettles | internal/controller/lineage_controller.go:288-346 | afterwards LineageSynced is true, other conditions are the same ones in order and in place, and doing it again changes nothing |
| LineageReconciler.DescendantReconciler.Reconcile | internal/controller/descendant_reconciler.go:62-149 | a call that does not fail is the serial append, whose entry LineageLaws.AppendSays spells out; an error if and only if reading the object, reading the index of a tracked object, or patching in a new entry fails; a requeue if and only if the index is missing; neither changes anything |
| LineageReconciler.OutcomeReconciler.Reconcile | internal/controller/outcome_reconciler.go:43-111 | a call that does not fail is the serial outcome append; an error if and only if reading the object, reading the index of a tracked object, or patching in a new outcome fails, and then nothing changes |
| LineageReconciler.LineageReconciler.GetOrCreate | internal/controller/lineage_controller.go:154-183 | the index found, built, or found to have been created by a rival; an error if and only if the read fails, or for a missing index the creation without a rival or the second read; a requeue if and only if the new index is gone again; no other index touched |
| LineageReconciler.LineageReconciler.PruneStaleDescendants | internal/controller/lineage_controller.go:359-421 | the registry becomes its survivors, which LineageLaws.PassDropsIff spells out, and nothing else changes; an error if and only if something goes and the patch fails, and then nothing changes |
| LineageReconciler.LineageReconciler.EnsureOwnerReference | internal/controller/lineage_controller.go:429-460 | the root is added to the owners unless retention says otherwise or its UID is there; an error if and only if it is to be added and the patch fails |
| LineageLaws.OwnerSays | internal/controller/lineage_controller.go:429-460 | with no policy, or one that deletes with the root, and no owner of the UID: one owner at the end with the root's API version, kind, name and UID; otherwise no change |
| LineageLaws.OwnStepSays | internal/controller/lineage_controller.go:429-460 | the owner step of the run model on a current copy does just that to the stored index |
| LineageReconciler.LineageReconciler.WriteGovernanceAnnotation | internal/controller/lineage_controller.go:264-277 | the annotation names the index, other annotations keep; an error if and only if it was not there and the patch fails |
| LineageLaws.MarkedNames | internal/controller/lineage_controller.go:264-277 | the annotation written is governance.infrastructure.ontai.dev/lineage-index-ref with the lower-cased kind, a dash and the name |
| LineageReconciler.LineageReconciler.EnsureLineageSyncedTrue | internal/controller/lineage_controller.go:288-346 | the conditions list becomes its ensured form; an error if and only if reading again fails, or LineageSynced was not true and the status write fails; a failed call changes nothing |
| LineageLaws.MarkedSays | internal/controller/lineage_controller.go:288-346 | where LineageSynced was not true, each entry of the type, or a new last one, becomes the true condition with reason LineageIndexCreated, the message naming the index, the clock and the root's generation; every other entry keeps its place |
| LineageReconciler.LineageReconciler.Reconcile | internal/controller/lineage_controller.go:117-212 | an error-free call that is not requeued leaves an index at the root's key, the annotation and LineageSynced true; other conditions keep, in order; on a settled root a call changes nothing whatever fails; with the guard up the index is left alone; an error or a requeue exactly in the cases `Fails` and `Waits` name, in terms of the objects before the call and of which calls fail |
| LineageReconciler.SecondCallIsIdle | internal/controller/lineage_controller.go:134-145 | after a completed call the next one changes nothing |
| LineageReconciler.PassIsFourSteps | internal/controller/lineage_controller.go:154-209 | what an undisturbed pass makes of the index is what create, read, prune and own do in the run model |

## Left out

- Lower-casing is modelled for ASCII letters; Kubernetes object names and the registered kinds have no others.
- The port is taken off a cluster endpoint before the model sees it: the endpoint is a bare address.
- The subject hash is an arbitrary function, not SHA-256; the collision law for IdentityBindings is stated in terms of it.
- The SOA serial is a parameter of rendering; nothing is said about the clock behind it.
- Notification sinks, logging and events: no state depends on them.
- JSON decoding of admission requests is a partial function from text to values; the reason texts of denials are not modelled.
- The domainRef gate, the condition vocabulary and its validation tables: single lookups, easy to state and to see.
- Manager start-up, flags, environment variables, health checks and webhook wiring.
- Informer caches: a read in a step gives what is stored at that step; staleness is what happens between steps.
- Garbage collection by owner references: an index disappears by a DeleteIndex step, whoever asked for it.
- Status and policy fields of an index that none of the three reconcilers writes.
- That pruning eventually happens is not claimed: once the annotation is set and the index exists, a reconcile returns before it.
- The quoting of an unusual index name in the LineageSynced message: the name is put between quotation marks as it is.
- LineageReconciler.LineageReconciler.PruneStaleDescendants: existence checks are one function of the object's identity during a pass; Retention.Prune allows a different answer per entry.
- DsnsRelease.ReleaseFollowsCleanPublication: assumes exclusive claims, since two owners of one key defeat it; DsnsFleet.FleetsReleaseCleanly discharges it for TalosClusters, IdentityProviders and tenant RunnerConfigs.
- DsnsFleet.FleetClaimsAreExclusive: leaves out IdentityBindings and PackInstances, whose slots come from fields that two objects may share; their exact collision conditions are Derive.IdentityBindingsCollideIff and Derive.PackInstancesCollideIff.
- DsnsRebuild.RebuildIsConfluent: leaves out restarts in either run, which DsnsRebuild.RebuildIsComplete covers; that every live object does get registered is not claimed, since every call may fail.
