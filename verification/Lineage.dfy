/** Root declarations, the lineage indexes built for them and the derived objects recorded in those:
    the values, the naming of an index after its root, and the labels that lead a derived object home. */
module Lineage {
  import opened Text

  // ---------------------------------------------------------------- values

  /** An element of an unstructured status.conditions list. Anything but a JSON object is carried along untouched;
      an absent or non-text field reads as the empty string. */
  datatype RawCondition =
    | NotAnObject(text: string)
    | RawCondition(kind: string, status: string, reason: string, message: string,
                   lastTransitionTime: int, observedGeneration: int)

  datatype Root = Root(
    apiVersion: string, kind: string, namespace: string, name: string, uid: string, generation: int,
    annotations: map<string, string>, conditions: seq<RawCondition>)

  datatype Derived = Derived(
    group: string, version: string, kind: string, namespace: string, name: string, uid: string, generation: int,
    labels: map<string, string>, conditions: seq<RawCondition>)

  datatype RootBinding = RootBinding(
    rootKind: string, rootName: string, rootNamespace: string, rootUID: string,
    rootObservedGeneration: int, declaringPrincipal: string)

  datatype DescendantEntry = DescendantEntry(
    group: string, version: string, kind: string, name: string, namespace: string, uid: string,
    seamOperator: string, creationRationale: string, rootGenerationAtCreation: int,
    createdAt: Option<int>, actorRef: string)

  datatype OutcomeType = Succeeded | Failed | Drifted | Superseded

  datatype OutcomeEntry = OutcomeEntry(
    derivedObjectUID: string, outcomeType: OutcomeType, outcomeTimestamp: int,
    outcomeRef: string, outcomeDetail: string)

  datatype OwnerRef = OwnerRef(apiVersion: string, kind: string, name: string, uid: string)

  datatype Retention = Retention(days: int, deleteWithRoot: bool)

  /** An InfrastructureLineageIndex. */
  datatype Index = Index(
    annotations: map<string, string>, labels: map<string, string>, owners: seq<OwnerRef>,
    binding: RootBinding, domainRef: string,
    descendants: seq<DescendantEntry>, outcomes: seq<OutcomeEntry>, retention: Option<Retention>)

  datatype IndexKey = IndexKey(namespace: string, name: string)

  // ---------------------------------------------------------------- one index per root

  /** lineageIndexName in the controller and IndexName in the library the operators use. */
  function IndexName(kind: string, name: string): string {
    ToLower(kind) + "-" + name
  }

  function KeyFor(kind: string, namespace: string, name: string): IndexKey {
    IndexKey(namespace, IndexName(kind, name))
  }

  function RootKey(r: Root): IndexKey {
    KeyFor(r.kind, r.namespace, r.name)
  }

  /** The key recomputed from what an index says about its root. */
  function BoundKey(b: RootBinding): IndexKey {
    KeyFor(b.rootKind, b.rootNamespace, b.rootName)
  }

  const ROOT_KINDS: seq<string> := [
    "InfrastructureTalosCluster",
    "UpgradePolicy", "NodeMaintenance", "ClusterMaintenance", "PKIRotation", "ClusterReset", "NodeOperation",
    "EtcdMaintenance", "TalosMachineConfigBackup", "TalosMachineConfigRestore", "HardeningProfile",
    "SeamInfrastructureCluster", "SeamInfrastructureMachine",
    "InfrastructureClusterPack", "InfrastructurePackExecution", "InfrastructurePackInstance",
    "RBACPolicy", "RBACProfile", "IdentityBinding", "IdentityProvider", "PermissionSet"]

  predicate Registered(kind: string) {
    kind in ROOT_KINDS
  }

  predicate DashFree(kind: string) {
    '-' !in kind
  }

  /** Tells the registered kinds apart by their length, first and last letter; none of these depends on case. */
  function Place(length: nat, first: char, last: char): nat {
    if length == 26 then (if last == 'r' then 0 else 15)
    else if length == 13 then (if first == 'u' then 1 else if first == 'n' then 6 else 20)
    else if length == 15 then (if first == 'n' then 2 else if first == 'e' then 7 else 18)
    else if length == 18 then 3
    else if length == 11 then (if first == 'p' then 4 else 17)
    else if length == 12 then 5
    else if length == 24 then 8
    else if length == 25 then
      (if first == 't' then 9 else if first == 'i' then 13 else if last == 'r' then 11 else 12)
    else if length == 16 then (if first == 'h' then 10 else 19)
    else if length == 27 then 14
    else 16
  }

  function PlaceOf(kind: string): nat {
    if kind == [] then 0 else Place(|kind|, LowerChar(kind[0]), LowerChar(kind[|kind| - 1]))
  }

  lemma PlacesLow(i: nat)
    requires i < 7
    ensures PlaceOf(ROOT_KINDS[i]) == i && DashFree(ROOT_KINDS[i])
  {
  }

  lemma PlacesMiddle(i: nat)
    requires 7 <= i < 14
    ensures PlaceOf(ROOT_KINDS[i]) == i && DashFree(ROOT_KINDS[i])
  {
  }

  lemma PlacesHigh(i: nat)
    requires 14 <= i < 21
    ensures PlaceOf(ROOT_KINDS[i]) == i && DashFree(ROOT_KINDS[i])
  {
  }

  lemma Places(i: nat)
    requires i < |ROOT_KINDS|
    ensures PlaceOf(ROOT_KINDS[i]) == i && DashFree(ROOT_KINDS[i])
  {
    if i < 7 { PlacesLow(i); } else if i < 14 { PlacesMiddle(i); } else { PlacesHigh(i); }
  }

  lemma PlaceIgnoresCase(a: string, b: string)
    requires ToLower(a) == ToLower(b)
    ensures PlaceOf(a) == PlaceOf(b)
  {
    assert |a| == |ToLower(a)| == |b|;
    if a != [] {
      assert ToLower(a)[0] == LowerChar(a[0]) && ToLower(b)[0] == LowerChar(b[0]);
      assert ToLower(a)[|a| - 1] == LowerChar(a[|a| - 1]) && ToLower(b)[|b| - 1] == LowerChar(b[|b| - 1]);
    }
  }

  /** Registered kinds are dash-free and stay distinct when lower-cased. */
  lemma KindsStayDistinct(a: string, b: string)
    requires Registered(a) && Registered(b)
    ensures DashFree(ToLower(a)) && DashFree(ToLower(b))
    ensures ToLower(a) == ToLower(b) ==> a == b
  {
    var i :| 0 <= i < |ROOT_KINDS| && ROOT_KINDS[i] == a;
    var j :| 0 <= j < |ROOT_KINDS| && ROOT_KINDS[j] == b;
    Places(i);
    Places(j);
    LowerKeepsAbsent(a, '-');
    LowerKeepsAbsent(b, '-');
    if ToLower(a) == ToLower(b) {
      PlaceIgnoresCase(a, b);
    }
  }

  /** Two roots of registered kinds share an index key exactly when kind, namespace and name all agree. */
  lemma SharedKeyIff(kind: string, namespace: string, name: string, kind': string, namespace': string, name': string)
    requires Registered(kind) && Registered(kind')
    ensures KeyFor(kind, namespace, name) == KeyFor(kind', namespace', name')
            <==> kind == kind' && namespace == namespace' && name == name'
  {
    KindsStayDistinct(kind, kind');
    if IndexName(kind, name) == IndexName(kind', name') {
      SplitFirst(ToLower(kind), ToLower(kind'), name, name', '-');
    }
  }

  // ---------------------------------------------------------------- building an index

  const GOVERNANCE := "governance.infrastructure.ontai.dev"
  const INDEX_REF := GOVERNANCE + "/lineage-index-ref"
  const DECLARING_PRINCIPAL := "infrastructure.ontai.dev/declaring-principal"
  const UNKNOWN_PRINCIPAL := "system:unknown"
  const DOMAIN_REF := "infrastructure.core.ontai.dev"

  /** Reading a missing key of a Go map gives the empty string. */
  function At(m: map<string, string>, key: string): string {
    if key in m then m[key] else ""
  }

  function Principal(annotations: map<string, string>): (p: string)
    ensures p != ""
  {
    var stamped := At(annotations, DECLARING_PRINCIPAL);
    if stamped == "" then UNKNOWN_PRINCIPAL else stamped
  }

  /** buildILI. */
  function Built(r: Root): (ix: Index)
    ensures BoundKey(ix.binding) == RootKey(r)
    ensures ix.binding.rootUID == r.uid && ix.binding.declaringPrincipal != ""
    ensures ix.descendants == [] && ix.outcomes == [] && ix.owners == []
  {
    Index(
      map[GOVERNANCE + "/controller-authored" := "true", GOVERNANCE + "/root-kind" := r.kind,
          GOVERNANCE + "/root-name" := r.name, GOVERNANCE + "/root-namespace" := r.namespace],
      map["infrastructure.ontai.dev/root-kind" := ToLower(r.kind), "infrastructure.ontai.dev/root-name" := r.name],
      [],
      RootBinding(r.kind, r.name, r.namespace, r.uid, r.generation, Principal(r.annotations)),
      DOMAIN_REF, [], [], None)
  }

  // ---------------------------------------------------------------- labels on derived objects

  const ROOT_ILI := "infrastructure.ontai.dev/root-ili"
  const ROOT_ILI_NAMESPACE := "infrastructure.ontai.dev/root-ili-namespace"
  const SEAM_OPERATOR := "infrastructure.ontai.dev/seam-operator"
  const CREATION_RATIONALE := "infrastructure.ontai.dev/creation-rationale"
  const ACTOR_REF := "infrastructure.ontai.dev/actor-ref"

  lemma LabelKeysDistinct()
    ensures ROOT_ILI != ROOT_ILI_NAMESPACE && ROOT_ILI != SEAM_OPERATOR && ROOT_ILI != CREATION_RATIONALE
    ensures ROOT_ILI != ACTOR_REF && ROOT_ILI_NAMESPACE != SEAM_OPERATOR && ROOT_ILI_NAMESPACE != ACTOR_REF
    ensures ROOT_ILI_NAMESPACE != CREATION_RATIONALE && SEAM_OPERATOR != CREATION_RATIONALE
    ensures SEAM_OPERATOR != ACTOR_REF && CREATION_RATIONALE != ACTOR_REF
  {
    assert ROOT_ILI_NAMESPACE[25] == 'r' && CREATION_RATIONALE[25] == 'c';
    assert |ROOT_ILI| == 33 && |SEAM_OPERATOR| == 38 && |ACTOR_REF| == 34;
    assert |ROOT_ILI_NAMESPACE| == 43 && |CREATION_RATIONALE| == 43;
  }

  function Labelled(labels: map<string, string>, name: string, namespace: string, operator: string, rationale: string,
                    actor: string): map<string, string>
  {
    labels[ROOT_ILI := name][ROOT_ILI_NAMESPACE := namespace][SEAM_OPERATOR := operator]
          [CREATION_RATIONALE := rationale][ACTOR_REF := actor]
  }

  /** A Kubernetes object as SetDescendantLabels sees it. */
  class LabelledObject {
    var labels: map<string, string>

    constructor (labels: map<string, string>)
      ensures this.labels == labels
    {
      this.labels := labels;
    }

    method SetDescendantLabels(name: string, namespace: string, operator: string, rationale: string, actor: string)
      modifies this
      ensures labels == Labelled(old(labels), name, namespace, operator, rationale, actor)
    {
      labels := labels[ROOT_ILI := name];
      labels := labels[ROOT_ILI_NAMESPACE := namespace];
      labels := labels[SEAM_OPERATOR := operator];
      labels := labels[CREATION_RATIONALE := rationale];
      labels := labels[ACTOR_REF := actor];
    }
  }

  /** The index a derived object points at, or none when it is not tracked. */
  function Target(d: Derived): Option<IndexKey> {
    var name := At(d.labels, ROOT_ILI);
    var namespace := At(d.labels, ROOT_ILI_NAMESPACE);
    if name == "" then None
    else Some(IndexKey(if namespace == "" then d.namespace else namespace, name))
  }

  function ActorOf(binding: RootBinding, labels: map<string, string>): string {
    if binding.declaringPrincipal == "" then At(labels, ACTOR_REF) else binding.declaringPrincipal
  }

  /** The entry the descendant reconciler appends; the generation it stores is the derived object's own. */
  function EntryFor(ix: Index, d: Derived, now: int): DescendantEntry {
    DescendantEntry(d.group, d.version, d.kind, d.name, d.namespace, d.uid,
                    At(d.labels, SEAM_OPERATOR), At(d.labels, CREATION_RATIONALE), d.generation,
                    Some(now), ActorOf(ix.binding, d.labels))
  }

  lemma LabelsReadBack(labels: map<string, string>, name: string, namespace: string, operator: string,
                       rationale: string, actor: string)
    ensures var m := Labelled(labels, name, namespace, operator, rationale, actor);
            && At(m, ROOT_ILI) == name && At(m, ROOT_ILI_NAMESPACE) == namespace && At(m, SEAM_OPERATOR) == operator
            && At(m, CREATION_RATIONALE) == rationale && At(m, ACTOR_REF) == actor
  {
    LabelKeysDistinct();
  }

  /** A derived object labelled for a root points at exactly the index built for that root, and nowhere else:
      whatever it carried before, wherever it lives; its entry carries the given operator and rationale. */
  lemma LabelsLeadHome(r: Root, d: Derived, before: map<string, string>, namespace: string, operator: string,
                       rationale: string, actor: string, ix: Index, now: int)
    requires d.labels == Labelled(before, IndexName(r.kind, r.name), namespace, operator, rationale, actor)
    requires namespace == r.namespace
    ensures Target(d) == Some(RootKey(r)) <==> namespace != "" || d.namespace == ""
    ensures var e := EntryFor(ix, d, now);
            && e.seamOperator == operator && e.creationRationale == rationale && e.uid == d.uid
            && e.actorRef == (if ix.binding.declaringPrincipal != "" then ix.binding.declaringPrincipal else actor)
  {
    LabelsReadBack(before, IndexName(r.kind, r.name), namespace, operator, rationale, actor);
    assert |IndexName(r.kind, r.name)| >= 1;
  }

  /** Over all roots: the labels written for one registered root reach the index of another only if both are one. */
  lemma LabelsReachOneRoot(r: Root, q: Root, d: Derived, before: map<string, string>, operator: string,
                           rationale: string, actor: string)
    requires Registered(r.kind) && Registered(q.kind) && r.namespace != ""
    requires d.labels == Labelled(before, IndexName(r.kind, r.name), r.namespace, operator, rationale, actor)
    ensures Target(d) == Some(RootKey(q)) <==> r.kind == q.kind && r.namespace == q.namespace && r.name == q.name
  {
    LabelsLeadHome(r, d, before, r.namespace, operator, rationale, actor, Built(r), 0);
    SharedKeyIff(r.kind, r.namespace, r.name, q.kind, q.namespace, q.name);
  }

  /** The generation stored with an entry is the root's exactly when the derived object happens to have the same. */
  lemma RecordedGenerationIff(r: Root, d: Derived, now: int)
    ensures EntryFor(Built(r), d, now).rootGenerationAtCreation == Built(r).binding.rootObservedGeneration
            <==> d.generation == r.generation
  {
  }

  /** For every root there is a derived object that points at its index and is recorded with another generation. */
  lemma RecordedGenerationCanDiffer(r: Root, d: Derived, before: map<string, string>, now: int) returns (e: Derived)
    requires r.namespace != ""
    ensures Target(e) == Some(RootKey(r)) && e.uid == d.uid
    ensures EntryFor(Built(r), e, now).rootGenerationAtCreation != r.generation
  {
    var labels := Labelled(before, IndexName(r.kind, r.name), r.namespace, "", "", "");
    e := d.(labels := labels, generation := r.generation + 1);
    LabelsLeadHome(r, e, before, r.namespace, "", "", "", Built(r), now);
  }
}
