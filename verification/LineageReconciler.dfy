/** The three reconcilers of lineage indexes, each as one undisturbed call against an API server whose calls may
    fail: tied to the steps of the run model, and what a completed lineage reconcile leaves behind. */
module LineageReconciler {
  import opened Text
  import opened Lineage
  import opened Retention
  import opened Outcome
  import opened SyncedCondition
  import opened LineageRuns
  import opened LineageSerial

  datatype RootId = RootId(kind: string, namespace: string, name: string)

  datatype DerivedId = DerivedId(group: string, version: string, kind: string, namespace: string, name: string)

  datatype Result = Done | Requeue | Error

  class Cluster {
    var roots: map<RootId, Root>
    var derived: map<DerivedId, Derived>
    var indexes: Store

    constructor ()
      ensures roots == map[] && derived == map[] && indexes == map[] && Valid()
    {
      roots, derived, indexes := map[], map[], map[];
    }

    /** Objects carry the identity they are stored under. */
    ghost predicate Valid()
      reads this
    {
      && (forall i :: i in roots ==> RootId(roots[i].kind, roots[i].namespace, roots[i].name) == i)
      && (forall i :: i in derived ==> DerivedId(derived[i].group, derived[i].version, derived[i].kind,
                                                 derived[i].namespace, derived[i].name) == i)
    }
  }

  // ---------------------------------------------------------------- descendants and outcomes

  datatype ObjectFaults = ObjectFaults(getObject: bool, getIndex: bool, patch: bool)

  class DescendantReconciler {
    const api: Cluster
    const group: string
    const version: string
    const kind: string

    constructor (api: Cluster, group: string, version: string, kind: string)
      ensures this.api == api && this.group == group && this.version == version && this.kind == kind
    {
      this.api, this.group, this.version, this.kind := api, group, version, kind;
    }

    /** A call that does not fail is the serial append; one that fails changes nothing. */
    method Reconcile(namespace: string, name: string, now: int, f: ObjectFaults) returns (r: Result)
      requires api.Valid()
      modifies api`indexes
      ensures api.Valid()
      ensures var id := DerivedId(group, version, kind, namespace, name);
              var tracked := id in api.derived && Target(api.derived[id]).Some?;
              var found := tracked && Target(api.derived[id]).value in old(api.indexes);
              && (r.Error? <==>
                    || f.getObject
                    || (tracked && f.getIndex)
                    || (&& found && f.patch
                        && !Listed(old(api.indexes)[Target(api.derived[id]).value].descendants, api.derived[id].uid)))
              && (r.Requeue? <==> !f.getObject && tracked && !f.getIndex && !found)
              && (r.Error? || !found ==> api.indexes == old(api.indexes))
              && (!r.Error? && id in api.derived ==> api.indexes == SerialD(old(api.indexes), api.derived[id], now))
    {
      var id := DerivedId(group, version, kind, namespace, name);
      if f.getObject { return Error; }
      if id !in api.derived { return Done; }
      var obj := api.derived[id];
      var iliName := At(obj.labels, ROOT_ILI);
      if iliName == "" { return Done; }
      var iliNamespace := At(obj.labels, ROOT_ILI_NAMESPACE);
      if iliNamespace == "" { iliNamespace := obj.namespace; }
      var key := IndexKey(iliNamespace, iliName);
      if f.getIndex { return Error; }
      if key !in api.indexes { return Requeue; }
      var ili := api.indexes[key];
      var i := 0;
      while i < |ili.descendants|
        invariant 0 <= i <= |ili.descendants| && forall j :: 0 <= j < i ==> ili.descendants[j].uid != obj.uid
      {
        if ili.descendants[i].uid == obj.uid { return Done; }
        i := i + 1;
      }
      assert !Listed(ili.descendants, obj.uid);
      var actorRef := ili.binding.declaringPrincipal;
      if actorRef == "" { actorRef := At(obj.labels, ACTOR_REF); }
      var entry := DescendantEntry(group, version, kind, obj.name, obj.namespace, obj.uid,
                                   At(obj.labels, SEAM_OPERATOR), At(obj.labels, CREATION_RATIONALE),
                                   obj.generation, Some(now), actorRef);
      assert entry == EntryFor(ili, obj, now);
      if f.patch { return Error; }
      api.indexes := PatchD(api.indexes, key, ili.descendants + [entry]);
      return Done;
    }
  }

  class OutcomeReconciler {
    const api: Cluster
    const group: string
    const version: string
    const kind: string

    constructor (api: Cluster, group: string, version: string, kind: string)
      ensures this.api == api && this.group == group && this.version == version && this.kind == kind
    {
      this.api, this.group, this.version, this.kind := api, group, version, kind;
    }

    method Reconcile(namespace: string, name: string, now: int, f: ObjectFaults) returns (r: Result)
      modifies api`indexes
      ensures !r.Requeue?
      ensures var id := DerivedId(group, version, kind, namespace, name);
              var tracked := id in api.derived && Target(api.derived[id]).Some?;
              var found := tracked && Target(api.derived[id]).value in old(api.indexes);
              && (r.Error? <==>
                    || f.getObject
                    || (tracked && f.getIndex)
                    || (&& found && f.patch && Classify(api.derived[id].conditions).Some?
                        && !Recorded(old(api.indexes)[Target(api.derived[id]).value].outcomes, api.derived[id].uid)))
              && (r.Error? || !found ==> api.indexes == old(api.indexes))
              && (r.Done? && id in api.derived ==> api.indexes == SerialO(old(api.indexes), api.derived[id], now))
    {
      var id := DerivedId(group, version, kind, namespace, name);
      if f.getObject { return Error; }
      if id !in api.derived { return Done; }
      var obj := api.derived[id];
      var iliName := At(obj.labels, ROOT_ILI);
      if iliName == "" { return Done; }
      var iliNamespace := At(obj.labels, ROOT_ILI_NAMESPACE);
      if iliNamespace == "" { iliNamespace := obj.namespace; }
      var key := IndexKey(iliNamespace, iliName);
      if f.getIndex { return Error; }
      if key !in api.indexes { return Done; }
      var ili := api.indexes[key];
      var i := 0;
      while i < |ili.outcomes|
        invariant 0 <= i <= |ili.outcomes| && forall j :: 0 <= j < i ==> ili.outcomes[j].derivedObjectUID != obj.uid
      {
        if ili.outcomes[i].derivedObjectUID == obj.uid { return Done; }
        i := i + 1;
      }
      assert !Recorded(ili.outcomes, obj.uid);
      var verdict := ClassifyTerminalOutcome(obj.conditions);
      if verdict.None? { return Done; }
      var outcome := OutcomeEntry(obj.uid, verdict.value.outcome, now, verdict.value.reason, verdict.value.message);
      if f.patch { return Error; }
      api.indexes := PatchO(api.indexes, key, ili.outcomes + [outcome]);
      return Done;
    }
  }

  // ---------------------------------------------------------------- the lineage reconciler

  /** What the environment does during one call: the clock, the answers to existence checks, a rival that creates the
      index first, a deletion right after the creation, and which calls fail. */
  datatype Env = Env(
    now: int, lookup: Lookup, rival: Option<Index>, gone: bool,
    getRoot: bool, getIndex: bool, create: bool, refetch: bool, prune: bool, annotate: bool, reread: bool, status: bool,
    own: bool)

  predicate Annotated(r: Root) {
    INDEX_REF in r.annotations && r.annotations[INDEX_REF] == IndexName(r.kind, r.name)
  }

  /** An index at the root's key, the annotation that names it, and LineageSynced true. */
  ghost predicate Settled(r: Root, indexes: Store) {
    RootKey(r) in indexes && Annotated(r) && SyncedTrue(r.conditions)
  }

  function WithIndexRef(r: Root): Root {
    r.(annotations := r.annotations[INDEX_REF := IndexName(r.kind, r.name)])
  }

  /** The root after a completed reconcile. */
  function Marked(r: Root, now: int): Root {
    Resynced(WithIndexRef(r), now)
  }

  function PrunedIndex(ix: Index, env: Env): Index {
    ix.(descendants := Survivors(ix.descendants, env.lookup, env.now, Window(Days(ix.retention))))
  }

  function OwnedIndex(ix: Index, r: Root): Index {
    if !DeletesWithRoot(ix.retention) || Owned(ix.owners, r.uid) then ix
    else ix.(owners := ix.owners + [OwnerOf(r)])
  }

  /** The index after a reconcile that did not stop at the guard. */
  function Tended(ix: Index, r: Root, env: Env): Index {
    OwnedIndex(PrunedIndex(ix, env), r)
  }

  /** The index the reconcile finds, or creates, or finds a rival to have created. */
  function Obtained(indexes: Store, r: Root, env: Env): Index {
    if RootKey(r) in indexes then indexes[RootKey(r)]
    else if env.rival.Some? then env.rival.value
    else Built(r)
  }

  lemma MarkedSettles(r: Root, now: int)
    ensures Annotated(Marked(r, now)) && SyncedTrue(Marked(r, now).conditions)
    ensures Others(Marked(r, now).conditions) == Others(r.conditions)
    ensures forall key :: key != INDEX_REF ==> At(Marked(r, now).annotations, key) == At(r.annotations, key)
  {
    var c := Written(IndexName(r.kind, r.name), now, r.generation);
    EnsuredSettles(r.conditions, c, c);
  }

  /** Neither half of marking a root touches anything else of it. */
  lemma RootKeptSteps(r: Root, now: int)
    ensures var q := WithIndexRef(r);
            RootKept(r, q) && RootKept(r, Marked(r, now)) && RootKept(r, r) && Marked(r, now) == Resynced(q, now)
  {
    MarkedSettles(r, now);
  }

  function Resynced(r: Root, now: int): Root {
    r.(conditions := Ensured(r.conditions, Written(IndexName(r.kind, r.name), now, r.generation)))
  }

  lemma SyncKeepsRoot(r: Root, now: int)
    ensures RootKept(r, Resynced(r, now)) && SyncedTrue(Resynced(r, now).conditions)
  {
    var c := Written(IndexName(r.kind, r.name), now, r.generation);
    EnsuredSettles(r.conditions, c, c);
  }

  // ---------------------------------------------------------------- which calls fail

  /** The index cannot be read, cannot be created although nobody else has, or cannot be read again. */
  predicate ObtainFails(indexes: Store, r: Root, env: Env) {
    env.getIndex || (RootKey(r) !in indexes && ((env.rival.None? && env.create) || env.refetch))
  }

  /** Or there was something to prune and the patch failed; not reached when the index is gone again. */
  predicate AcquireFails(indexes: Store, r: Root, env: Env) {
    var ix := Obtained(indexes, r, env);
    || ObtainFails(indexes, r, env)
    || ((RootKey(r) in indexes || !env.gone) && env.prune && PrunedIndex(ix, env) != ix)
  }

  predicate SyncFails(r: Root, env: Env) {
    env.reread || (env.status && !SyncedTrue(r.conditions))
  }

  predicate MarkFails(r: Root, env: Env) {
    (env.annotate && !Annotated(r)) || SyncFails(r, env)
  }

  predicate SettleFails(indexes: Store, r: Root, env: Env) {
    var ix := PrunedIndex(Obtained(indexes, r, env), env);
    || AcquireFails(indexes, r, env)
    || (&& (RootKey(r) in indexes || !env.gone)
        && (MarkFails(r, env) || (env.own && OwnedIndex(ix, r) != ix)))
  }

  /** The index came into being during the call and was gone when read again. */
  predicate GoneAgain(indexes: Store, r: Root, env: Env) {
    RootKey(r) !in indexes && env.gone && !ObtainFails(indexes, r, env)
  }

  /** A reconcile returns an error exactly in these cases. */
  predicate Fails(roots: map<RootId, Root>, indexes: Store, id: RootId, env: Env) {
    || env.getRoot
    || (&& id in roots
        && if Annotated(roots[id]) && env.getIndex then true
           else if Annotated(roots[id]) && RootKey(roots[id]) in indexes then SyncFails(roots[id], env)
           else SettleFails(indexes, roots[id], env))
  }

  /** And asks to be called again exactly in these. */
  predicate Waits(roots: map<RootId, Root>, indexes: Store, id: RootId, env: Env) {
    !env.getRoot && id in roots && GoneAgain(indexes, roots[id], env)
  }

  class LineageReconciler {
    const api: Cluster
    const kind: string

    constructor (api: Cluster, kind: string)
      ensures this.api == api && this.kind == kind
    {
      this.api, this.kind := api, kind;
    }

    /** Step C: get or create, then read again. */
    method GetOrCreate(root: Root, env: Env) returns (ix: Option<Index>, r: Result)
      modifies api`indexes
      ensures r.Done? <==> ix.Some?
      ensures r.Done? ==> ix == Some(Obtained(old(api.indexes), root, env))
                          && api.indexes == old(api.indexes)[RootKey(root) := ix.value]
      ensures r.Done? && RootKey(root) in old(api.indexes) ==> ix == Some(old(api.indexes)[RootKey(root)])
      ensures r.Done? && RootKey(root) !in old(api.indexes) ==>
                ix == Some(if env.rival.Some? then env.rival.value else Built(root))
      ensures var missing := RootKey(root) !in old(api.indexes);
              && (r.Error? <==> ObtainFails(old(api.indexes), root, env))
              && (r.Requeue? <==> missing && env.gone && !r.Error?)
              && (r.Requeue? || (r.Error? && !env.refetch) ==> api.indexes == old(api.indexes))
      ensures forall k :: k != RootKey(root) ==> (k in api.indexes <==> k in old(api.indexes))
                                                 && (k in api.indexes ==> api.indexes[k] == old(api.indexes)[k])
    {
      var key := RootKey(root);
      if env.getIndex { return None, Error; }
      if key in api.indexes {
        assert api.indexes == api.indexes[key := api.indexes[key]];
        return Some(api.indexes[key]), Done;
      }
      if env.rival.Some? {
        api.indexes := api.indexes[key := env.rival.value];
      } else if env.create {
        return None, Error;
      } else {
        api.indexes := api.indexes[key := Built(root)];
      }
      if env.refetch { return None, Error; }
      if env.gone {
        api.indexes := api.indexes - {key};
        return None, Requeue;
      }
      return Some(api.indexes[key]), Done;
    }

    /** pruneStaleDescendants; a patch is issued exactly when something goes. */
    method PruneStaleDescendants(key: IndexKey, ix: Index, env: Env) returns (ix': Index, err: bool)
      requires key in api.indexes && api.indexes[key] == ix
      modifies api`indexes
      ensures err <==> env.prune && PrunedIndex(ix, env) != ix
      ensures err ==> api.indexes == old(api.indexes)
      ensures !err ==> ix' == PrunedIndex(ix, env) && api.indexes == old(api.indexes)[key := ix']
    {
      ix', err := ix, false;
      var seen := Answers(env.lookup, ix.descendants);
      var kept, pruned := Prune(ix.descendants, seen, env.now, Window(Days(ix.retention)));
      if !pruned {
        assert api.indexes == api.indexes[key := ix];
        return;
      }
      if env.prune { err := true; return; }
      api.indexes := PatchD(api.indexes, key, kept);
      ix' := api.indexes[key];
    }

    method EnsureOwnerReference(root: Root, key: IndexKey, ix: Index, env: Env) returns (err: bool)
      requires key in api.indexes && api.indexes[key] == ix
      modifies api`indexes
      ensures err <==> env.own && OwnedIndex(ix, root) != ix
      ensures err ==> api.indexes == old(api.indexes)
      ensures !err ==> api.indexes == old(api.indexes)[key := OwnedIndex(ix, root)]
    {
      err := false;
      assert api.indexes == api.indexes[key := ix];
      var deleteWithRoot := true;
      if ix.retention.Some? { deleteWithRoot := ix.retention.value.deleteWithRoot; }
      if !deleteWithRoot { return; }
      var i := 0;
      while i < |ix.owners|
        invariant 0 <= i <= |ix.owners| && forall j :: 0 <= j < i ==> ix.owners[j].uid != root.uid
      {
        if ix.owners[i].uid == root.uid { return; }
        i := i + 1;
      }
      assert !Owned(ix.owners, root.uid);
      if env.own { err := true; return; }
      api.indexes := PatchOwners(api.indexes, key, ix.owners + [OwnerOf(root)]);
    }

    method WriteGovernanceAnnotation(id: RootId, env: Env) returns (err: bool)
      requires id in api.roots
      modifies api`roots
      ensures err <==> env.annotate && !Annotated(old(api.roots[id]))
      ensures err ==> api.roots == old(api.roots)
      ensures !err ==> api.roots == old(api.roots)[id := WithIndexRef(old(api.roots[id]))]
    {
      var root := api.roots[id];
      var name := IndexName(root.kind, root.name);
      if INDEX_REF in root.annotations && root.annotations[INDEX_REF] == name {
        assert root.annotations == root.annotations[INDEX_REF := name];
        assert api.roots == api.roots[id := root];
        return false;
      }
      if env.annotate { return true; }
      api.roots := api.roots[id := root.(annotations := root.annotations[INDEX_REF := name])];
      return false;
    }

    method EnsureLineageSyncedTrue(id: RootId, env: Env) returns (err: bool)
      requires id in api.roots
      modifies api`roots
      ensures err <==> SyncFails(old(api.roots[id]), env)
      ensures err ==> api.roots == old(api.roots)
      ensures old(SyncedTrue(api.roots[id].conditions)) ==> api.roots == old(api.roots)
      ensures !err ==> api.roots == old(api.roots)[id := Resynced(old(api.roots[id]), env.now)]
    {
      if env.reread { return true; }
      var latest := api.roots[id];
      var already := Check(latest.conditions);
      if already {
        assert api.roots == api.roots[id := latest];
        return false;
      }
      var condition := Written(IndexName(latest.kind, latest.name), env.now, latest.generation);
      var updated := Rewrite(latest.conditions, condition);
      if env.status { return true; }
      api.roots := api.roots[id := latest.(conditions := updated)];
      return false;
    }

    /** Steps D and E. */
    method Mark(id: RootId, env: Env) returns (err: bool)
      requires id in api.roots
      modifies api`roots
      ensures err <==> MarkFails(old(api.roots[id]), env)
      ensures !err ==> api.roots == old(api.roots)[id := Marked(old(api.roots[id]), env.now)]
      ensures OnlyRootChanged(old(api.roots), api.roots, id)
    {
      ghost var root := api.roots[id];
      RootKeptSteps(root, env.now);
      err := WriteGovernanceAnnotation(id, env);
      if err { return; }
      err := EnsureLineageSyncedTrue(id, env);
    }

    /** Steps C and Cf. */
    method Acquire(root: Root, env: Env) returns (ix: Option<Index>, r: Result)
      modifies api`indexes
      ensures r.Done? <==> ix.Some?
      ensures r.Done? ==> ix == Some(PrunedIndex(Obtained(old(api.indexes), root, env), env))
                          && api.indexes == old(api.indexes)[RootKey(root) := ix.value]
      ensures r.Error? <==> AcquireFails(old(api.indexes), root, env)
      ensures r.Requeue? <==> RootKey(root) !in old(api.indexes) && env.gone && !r.Error?
      ensures OnlyIndexChanged(old(api.indexes), api.indexes, RootKey(root))
    {
      var key := RootKey(root);
      var got, res := GetOrCreate(root, env);
      if !res.Done? { return None, res; }
      var pruned, err := PruneStaleDescendants(key, got.value, env);
      if err { return None, Error; }
      return Some(pruned), Done;
    }

    /** Steps D, E and Eg. */
    method Finish(id: RootId, ix: Index, env: Env) returns (r: Result)
      requires id in api.roots && RootKey(api.roots[id]) in api.indexes && api.indexes[RootKey(api.roots[id])] == ix
      modifies api`roots, api`indexes
      ensures !r.Requeue?
      ensures var root := old(api.roots[id]);
              r.Error? <==> MarkFails(root, env) || (env.own && OwnedIndex(ix, root) != ix)
      ensures var root := old(api.roots[id]);
              r.Done? ==> api.roots == old(api.roots)[id := Marked(root, env.now)]
                          && api.indexes == old(api.indexes)[RootKey(root) := OwnedIndex(ix, root)]
      ensures OnlyRootChanged(old(api.roots), api.roots, id)
      ensures OnlyIndexChanged(old(api.indexes), api.indexes, RootKey(old(api.roots[id])))
    {
      var root := api.roots[id];
      var err := Mark(id, env);
      if err { return Error; }
      err := EnsureOwnerReference(root, RootKey(root), ix, env);
      return if err then Error else Done;
    }

    /** Steps C to Eg. */
    method Settle(id: RootId, env: Env) returns (r: Result)
      requires id in api.roots
      modifies api`roots, api`indexes
      ensures Settles(old(api.roots), old(api.indexes), api.roots, api.indexes, id, env, r)
      ensures r.Error? <==> SettleFails(old(api.indexes), old(api.roots[id]), env)
      ensures r.Requeue? <==> GoneAgain(old(api.indexes), old(api.roots[id]), env)
    {
      var root := api.roots[id];
      var ix;
      ix, r := Acquire(root, env);
      if r.Done? {
        r := Finish(id, ix.value, env);
        IndexPutTwice(old(api.indexes), api.indexes, RootKey(root), ix.value, OwnedIndex(ix.value, root));
      } else {
        NothingChanged(api.roots, id);
      }
    }

    /** What is left to do behind the guard. */
    method Resync(id: RootId, env: Env) returns (r: Result)
      requires api.Valid() && id in api.roots && GuardHolds(api.roots[id], api.indexes)
      modifies api`roots
      ensures api.Valid() && Reconciles(old(api.roots), api.indexes, api.roots, api.indexes, id, env, r)
      ensures !r.Requeue? && (r.Error? <==> SyncFails(old(api.roots[id]), env))
    {
      var err := EnsureLineageSyncedTrue(id, env);
      ResyncReconciles(old(api.roots), api.roots, api.indexes, id, env, err);
      ValidKept(old(api.roots), api.roots, id);
      return if err then Error else Done;
    }

    /** Steps C to Eg, where the guard does not hold. */
    method Establish(id: RootId, env: Env) returns (r: Result)
      requires api.Valid() && id in api.roots && !GuardHolds(api.roots[id], api.indexes)
      modifies api`roots, api`indexes
      ensures api.Valid() && Reconciles(old(api.roots), old(api.indexes), api.roots, api.indexes, id, env, r)
      ensures r.Error? <==> SettleFails(old(api.indexes), old(api.roots[id]), env)
      ensures r.Requeue? <==> GoneAgain(old(api.indexes), old(api.roots[id]), env)
    {
      r := Settle(id, env);
      SettleReconciles(old(api.roots), old(api.indexes), api.roots, api.indexes, id, env, r);
      ValidKept(old(api.roots), api.roots, id);
    }

    /** One call, in terms of the objects before and after it. */
    method Reconcile(namespace: string, name: string, env: Env) returns (r: Result)
      requires api.Valid()
      modifies api`roots, api`indexes
      ensures api.Valid()
      ensures Reconciles(old(api.roots), old(api.indexes), api.roots, api.indexes, RootId(kind, namespace, name),
                         env, r)
      ensures r.Error? <==> Fails(old(api.roots), old(api.indexes), RootId(kind, namespace, name), env)
      ensures r.Requeue? <==> Waits(old(api.roots), old(api.indexes), RootId(kind, namespace, name), env)
    {
      var id := RootId(kind, namespace, name);
      IdleReconciles(api.roots, api.indexes, id, env);
      if env.getRoot { return Error; }
      if id !in api.roots { return Done; }
      var root := api.roots[id];
      if INDEX_REF in root.annotations && root.annotations[INDEX_REF] == IndexName(kind, root.name) {
        if env.getIndex { return Error; }
        if RootKey(root) in api.indexes {
          r := Resync(id, env);
          return;
        }
      }
      r := Establish(id, env);
    }
  }

  /** What steps C to Eg do to the roots (rs, then qs) and the indexes (ns, then js). */
  ghost predicate Settles(rs: map<RootId, Root>, ns: Store, qs: map<RootId, Root>, js: Store, id: RootId, env: Env,
                          r: Result)
    requires id in rs
  {
    && (r.Done? ==> qs == rs[id := Marked(rs[id], env.now)]
                    && js == ns[RootKey(rs[id]) := Tended(Obtained(ns, rs[id], env), rs[id], env)])
    && (r.Requeue? ==> env.gone && qs == rs)
    && OnlyRootChanged(rs, qs, id)
    && OnlyIndexChanged(ns, js, RootKey(rs[id]))
  }

  lemma IndexPutTwice(ns: Store, js: Store, k: IndexKey, x: Index, y: Index)
    requires OnlyIndexChanged(ns[k := x], js, k)
    ensures OnlyIndexChanged(ns, js, k)
    ensures js == ns[k := x][k := y] ==> js == ns[k := y]
  {
  }

  lemma ValidKept(rs: map<RootId, Root>, qs: map<RootId, Root>, id: RootId)
    requires OnlyRootChanged(rs, qs, id)
    requires forall i :: i in rs ==> RootId(rs[i].kind, rs[i].namespace, rs[i].name) == i
    ensures forall i :: i in qs ==> RootId(qs[i].kind, qs[i].namespace, qs[i].name) == i
  {
    if id in rs {
      assert RootKept(rs[id], qs[id]);
    }
  }

  /** Doing nothing is fine with an error, or without a root. */
  lemma IdleReconciles(rs: map<RootId, Root>, ns: Store, id: RootId, env: Env)
    ensures Reconciles(rs, ns, rs, ns, id, env, Error)
    ensures id !in rs ==> Reconciles(rs, ns, rs, ns, id, env, Done)
  {
    NothingChanged(rs, id);
  }

  lemma NothingChanged(rs: map<RootId, Root>, id: RootId)
    ensures OnlyRootChanged(rs, rs, id)
  {
  }

  /** What a lineage reconcile of a root does to the roots (rs, then qs) and the indexes (ns, then js). */
  ghost predicate Reconciles(rs: map<RootId, Root>, ns: Store, qs: map<RootId, Root>, js: Store, id: RootId,
                             env: Env, r: Result)
  {
    // Nothing else changes, and a missing root means no change at all.
    && OnlyRootChanged(rs, qs, id)
    && OnlyIndexChanged(ns, js, KeyFor(id.kind, id.namespace, id.name))
    && (id !in rs ==> qs == rs && js == ns && !r.Requeue?)
    // An error-free call that is not requeued leaves an existing root settled.
    && (id in rs && r.Done? ==> Settled(qs[id], js))
    // On a settled root a call changes nothing, whatever fails.
    && (id in rs && Settled(rs[id], ns) ==> qs == rs && js == ns && !r.Requeue?)
    // With the guard up the index is left alone; otherwise the index is tended and the root marked.
    && (id in rs && GuardHolds(rs[id], ns) ==> js == ns)
    && (id in rs && r.Done? && !GuardHolds(rs[id], ns) ==>
          && qs == rs[id := Marked(rs[id], env.now)]
          && js == ns[RootKey(rs[id]) := Tended(Obtained(ns, rs[id], env), rs[id], env)])
  }

  /** After a completed call the next one, however its calls go, has nothing to do. */
  lemma SecondCallIsIdle(rs: map<RootId, Root>, ns: Store, qs: map<RootId, Root>, js: Store,
                         ps: map<RootId, Root>, ks: Store, id: RootId, env: Env, env': Env, r: Result)
    requires id in rs && Reconciles(rs, ns, qs, js, id, env, Done) && Reconciles(qs, js, ps, ks, id, env', r)
    ensures ps == qs && ks == js && !r.Requeue?
  {
    assert Settled(qs[id], js);
  }

  lemma ResyncReconciles(rs: map<RootId, Root>, qs: map<RootId, Root>, indexes: Store, id: RootId, env: Env, err: bool)
    requires id in rs && GuardHolds(rs[id], indexes) && RootId(rs[id].kind, rs[id].namespace, rs[id].name) == id
    requires err || SyncedTrue(rs[id].conditions) ==> qs == rs
    requires !err ==> qs == rs[id := Resynced(rs[id], env.now)]
    ensures Reconciles(rs, indexes, qs, indexes, id, env, if err then Error else Done)
  {
    SyncKeepsRoot(rs[id], env.now);
  }

  lemma SettleReconciles(rs: map<RootId, Root>, ns: Store, qs: map<RootId, Root>, js: Store, id: RootId, env: Env,
                         r: Result)
    requires id in rs && !GuardHolds(rs[id], ns) && RootId(rs[id].kind, rs[id].namespace, rs[id].name) == id
    requires Settles(rs, ns, qs, js, id, env, r)
    ensures Reconciles(rs, ns, qs, js, id, env, r)
  {
    MarkedSettles(rs[id], env.now);
    assert RootKey(Marked(rs[id], env.now)) == RootKey(rs[id]);
  }

  /** The idempotency guard of the reconcile: annotation set and index there. */
  ghost predicate GuardHolds(r: Root, indexes: Store) {
    Annotated(r) && RootKey(r) in indexes
  }

  /** Nothing but this root's index annotation and its LineageSynced condition may have changed. */
  ghost predicate OnlyRootChanged(before: map<RootId, Root>, after: map<RootId, Root>, id: RootId) {
    && before.Keys == after.Keys
    && (forall i :: i in before && i != id ==> after[i] == before[i])
    && (id in before ==> RootKept(before[id], after[id]))
  }

  ghost predicate RootKept(r: Root, q: Root) {
    && q == r.(annotations := q.annotations, conditions := q.conditions)
    && (forall key :: key != INDEX_REF ==> At(q.annotations, key) == At(r.annotations, key))
    && Others(q.conditions) == Others(r.conditions)
  }

  ghost predicate OnlyIndexChanged(before: Store, after: Store, key: IndexKey) {
    forall k :: k != key ==> (k in after <==> k in before) && (k in after ==> after[k] == before[k])
  }

  // ---------------------------------------------------------------- a pass is four steps of the run model

  lemma OwnIsStep(w: World, pid: nat, p: Keeper)
    requires pid in w.lin && w.lin[pid] == p && p.key in w.store && w.store[p.key] == p.snap
    ensures OwnStep(w, pid).store == w.store[p.key := OwnedIndex(p.snap, p.root)]
  {
    assert w.store == w.store[p.key := p.snap];
  }

  lemma PruneIsStep(w: World, pid: nat, p: Keeper, env: Env)
    requires pid in w.lin && w.lin[pid] == p && p.key in w.store && w.store[p.key] == p.snap
    ensures var v := PruneStep(w, pid, Answers(env.lookup, p.snap.descendants), env.now);
            && v.store == w.store[p.key := PrunedIndex(p.snap, env)]
            && pid in v.lin && v.lin[pid] == Keeper(p.key, p.root, PrunedIndex(p.snap, env))
  {
    if PrunedIndex(p.snap, env).descendants == p.snap.descendants {
      assert w.store == w.store[p.key := p.snap];
    }
  }

  lemma ReadIsStep(w: World, pid: nat, r: Root)
    requires Registered(r.kind)
    ensures var k := RootKey(r); var v := ReadLStep(CreateStep(w, r), pid, r);
            var ix := if k in w.store then w.store[k] else Built(r);
            v.store == w.store[k := ix] && pid in v.lin && v.lin[pid] == Keeper(k, r, ix)
  {
    var k := RootKey(r);
    if k in w.store {
      assert w.store == w.store[k := w.store[k]];
    }
  }

  /** What an undisturbed pass makes of the index is what create, read, prune and own do in the run model. */
  lemma PassIsFourSteps(w: World, pid: nat, r: Root, env: Env)
    requires Registered(r.kind) && env.rival.None?
    ensures var ix := Obtained(w.store, r, env);
            OwnStep(PruneStep(ReadLStep(CreateStep(w, r), pid, r), pid, Answers(env.lookup, ix.descendants),
                    env.now), pid).store
            == w.store[RootKey(r) := Tended(ix, r, env)]
  {
    ReadIsStep(w, pid, r);
    TendIsTwoSteps(w.store, ReadLStep(CreateStep(w, r), pid, r), pid, RootKey(r), r, Obtained(w.store, r, env), env);
  }

  lemma TendIsTwoSteps(before: Store, w: World, pid: nat, k: IndexKey, r: Root, ix: Index, env: Env)
    requires w.store == before[k := ix] && pid in w.lin && w.lin[pid] == Keeper(k, r, ix)
    ensures OwnStep(PruneStep(w, pid, Answers(env.lookup, ix.descendants), env.now), pid).store
            == before[k := Tended(ix, r, env)]
  {
    PruneIsStep(w, pid, Keeper(k, r, ix), env);
    var u := PruneStep(w, pid, Answers(env.lookup, ix.descendants), env.now);
    OwnIsStep(u, pid, Keeper(k, r, PrunedIndex(ix, env)));
  }
}
