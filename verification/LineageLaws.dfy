/** What the writers of lineage indexes put into them and take out, said of the stored index in terms of the objects
    alone: entries, outcomes, owners, bindings and marks; and, over whole runs, that a derived object which can still
    be found keeps its entry. */
module LineageLaws {
  import opened Text
  import opened Lineage
  import opened Retention
  import opened Outcome
  import opened LineageRuns
  import opened LineageSerial
  import opened LineageLoss
  import opened LineageTrace
  import opened LineageReconciler
  import SyncedCondition

  // ---------------------------------------------------------------- when an entry is dropped

  /** The entry is this old by the policy: thirty days where none is set, else the days it names. Says nothing of the
      policies whose nanoseconds overflow. */
  predicate OldEnough(policy: Option<Lineage.Retention>, created: int, now: int) {
    if policy.None? || policy.value.days <= 0 then now - created >= 30 * 86_400_000_000_000
    else policy.value.days <= 106751 ==> now - created >= policy.value.days * 86_400_000_000_000
  }

  /** The window in force, whichever the policy. */
  lemma WindowInForce(policy: Option<Lineage.Retention>, created: int, now: int)
    requires policy.Some? ==> policy.value.days <= 106751
    ensures Since(now, created) >= Window(Days(policy)) <==> OldEnough(policy, created, now)
  {
    if policy.Some? && policy.value.days > 0 {
      WindowExactIff(policy.value.days);
    } else {
      WindowExactIff(30);
    }
  }

  /** An entry goes exactly when it has a timestamp, is old enough by the index's own policy, and its object is
      confirmed gone. */
  lemma KeptDropsIff(ix: Index, seen: seq<Existence>, now: int, i: nat)
    requires |seen| == |ix.descendants| && i < |ix.descendants| && UniqueD(ix.descendants)
    requires ix.retention.Some? ==> ix.retention.value.days <= 106751
    ensures var e := ix.descendants[i];
            e !in KeptOf(ix, seen, now) <==>
              e.createdAt.Some? && seen[i] == NotFound && OldEnough(ix.retention, e.createdAt.value, now)
  {
    var e, a := ix.descendants[i], PruneL(0, seen, now);
    if e.createdAt.Some? {
      WindowInForce(ix.retention, e.createdAt.value, now);
    }
    if e !in KeptOf(ix, seen, now) {
      DroppedIsExpired(ix, a, i);
    } else if Expired(ix, a, i) {
      ExpiredIsDropped(ix, a, e);
    }
  }

  /** The same of the pass that a reconcile makes. */
  lemma PassDropsIff(ix: Index, env: Env, i: nat)
    requires i < |ix.descendants| && UniqueD(ix.descendants)
    requires ix.retention.Some? ==> ix.retention.value.days <= 106751
    ensures var e := ix.descendants[i];
            e !in PrunedIndex(ix, env).descendants <==>
              && e.createdAt.Some?
              && env.lookup(e.group, e.version, e.kind, e.namespace, e.name) == NotFound
              && OldEnough(ix.retention, e.createdAt.value, env.now)
    ensures PrunedIndex(ix, env) == ix.(descendants := PrunedIndex(ix, env).descendants)
  {
    KeptDropsIff(ix, Answers(env.lookup, ix.descendants), env.now, i);
  }

  /** And of a pruning step of the run model that has a current copy. */
  lemma StepDropsIff(w: World, pid: nat, seen: seq<Existence>, now: int, i: nat)
    requires pid in w.lin && w.lin[pid].key in w.store
    requires var ix := w.store[w.lin[pid].key];
             && ix.descendants == w.lin[pid].snap.descendants && ix.retention == w.lin[pid].snap.retention
             && |seen| == |ix.descendants| && i < |ix.descendants| && UniqueD(ix.descendants)
             && (ix.retention.Some? ==> ix.retention.value.days <= 106751)
    ensures var k := w.lin[pid].key; var ix := w.store[k]; var e := ix.descendants[i];
            && k in PruneStep(w, pid, seen, now).store
            && (e !in PruneStep(w, pid, seen, now).store[k].descendants <==>
                  e.createdAt.Some? && seen[i] == NotFound && OldEnough(ix.retention, e.createdAt.value, now))
  {
    KeptDropsIff(w.lin[pid].snap, seen, now, i);
  }

  /** Beyond 106751 days too: the window is the int64 congruent to the days in nanoseconds, and the age counts as
      at least the least int64. */
  lemma WrappedDropsIff(ix: Index, seen: seq<Existence>, now: int, i: nat, window: int)
    requires |seen| == |ix.descendants| && i < |ix.descendants| && UniqueD(ix.descendants)
    requires ix.retention.Some? && 0 < ix.retention.value.days <= 0x7FFF_FFFF
    requires -0x8000_0000_0000_0000 <= window < 0x8000_0000_0000_0000
    requires (window - ix.retention.value.days * 86_400_000_000_000) % 0x1_0000_0000_0000_0000 == 0
    ensures var e := ix.descendants[i];
            e !in KeptOf(ix, seen, now) <==>
              && e.createdAt.Some? && seen[i] == NotFound
              && (now - e.createdAt.value >= window || window == -0x8000_0000_0000_0000)
  {
    var e, a := ix.descendants[i], PruneL(0, seen, now);
    WindowIs(ix.retention.value.days, window);
    if e !in KeptOf(ix, seen, now) {
      DroppedIsExpired(ix, a, i);
    } else if Expired(ix, a, i) {
      ExpiredIsDropped(ix, a, e);
    }
  }

  lemma WindowIs(days: int, window: int)
    requires 0 < days <= 0x7FFF_FFFF && -0x8000_0000_0000_0000 <= window < 0x8000_0000_0000_0000
    requires (window - days * 86_400_000_000_000) % 0x1_0000_0000_0000_0000 == 0
    ensures Window(days) == window
  {
    WrapExactIff(days * 24);
    assert days * 24 * HOUR == days * 86_400_000_000_000;
    var w := Window(days);
    assert (w - days * 86_400_000_000_000) % TWO_TO_64 == 0;
    assert (w - window) % TWO_TO_64 == 0;
  }

  // ---------------------------------------------------------------- the policy in force

  ghost predicate LastPolicy(acts: seq<Act>, k: IndexKey, n: int) {
    && 0 <= n < |acts| && acts[n].SetRetention? && acts[n].key == k
    && forall m :: n < m < |acts| ==> !(acts[m].SetRetention? && acts[m].key == k)
  }

  lemma PolicyAfter(w: World, a: Act, k: IndexKey)
    requires k in w.store && a != DeleteIndex(k)
    ensures k in Next(w, a).store
    ensures Next(w, a).store[k].retention
            == if a.SetRetention? && a.key == k then a.policy else w.store[k].retention
  {
  }

  /** In every interleaving the policy of an index that stays is the one last set, or the one it had. */
  lemma {:induction false} PolicyInForce(w: World, acts: seq<Act>, k: IndexKey)
    requires k in w.store && !Deletes(acts, k)
    ensures k in Exec(w, acts).store
    ensures forall n :: LastPolicy(acts, k, n) ==> Exec(w, acts).store[k].retention == acts[n].policy
    ensures (forall n :: !LastPolicy(acts, k, n)) ==> Exec(w, acts).store[k].retention == w.store[k].retention
  {
    if acts != [] {
      var last := |acts| - 1;
      var init, a := acts[..last], acts[last];
      NotDeleted(acts, k);
      PolicyInForce(w, init, k);
      PolicyAfter(Exec(w, init), a, k);
      if a.SetRetention? && a.key == k {
        assert LastPolicy(acts, k, last);
      } else {
        assert forall n :: LastPolicy(acts, k, n) <==> LastPolicy(init, k, n);
      }
    }
  }

  // ---------------------------------------------------------------- what an append stores

  /** The labels of a derived object name this index; its own namespace stands in for a missing one. */
  predicate PointsAt(d: Derived, k: IndexKey) {
    && "infrastructure.ontai.dev/root-ili" in d.labels
    && k.name == d.labels["infrastructure.ontai.dev/root-ili"] != ""
    && k.namespace ==
       (if && "infrastructure.ontai.dev/root-ili-namespace" in d.labels
           && d.labels["infrastructure.ontai.dev/root-ili-namespace"] != ""
        then d.labels["infrastructure.ontai.dev/root-ili-namespace"] else d.namespace)
  }

  lemma TargetIff(d: Derived, k: IndexKey)
    ensures Target(d) == Some(k) <==> PointsAt(d, k)
  {
  }

  /** The entry names the object it was made from. */
  ghost predicate Names(e: DescendantEntry, d: Derived) {
    && e.group == d.group && e.version == d.version && e.kind == d.kind
    && e.namespace == d.namespace && e.name == d.name && e.uid == d.uid
  }

  /** The actor is the root's principal, or the label's where the binding has none. */
  predicate Actor(actor: string, b: RootBinding, labels: map<string, string>) {
    if b.declaringPrincipal != "" then actor == b.declaringPrincipal
    else if "infrastructure.ontai.dev/actor-ref" in labels then actor == labels["infrastructure.ontai.dev/actor-ref"]
    else actor == ""
  }

  predicate Carries(value: string, labels: map<string, string>, key: string) {
    value == if key in labels then labels[key] else ""
  }

  /** A descendant reconcile changes nothing unless its object points at a stored index that does not list it. */
  lemma AppendLeaves(s: Store, d: Derived, now: int)
    requires forall k :: k in s && PointsAt(d, k) ==> exists e :: e in s[k].descendants && e.uid == d.uid
    ensures SerialD(s, d, now) == s
  {
    if Look(s, d).Some? {
      var k := Target(d).value;
      TargetIff(d, k);
      var e :| e in s[k].descendants && e.uid == d.uid;
      assert Listed(s[k].descendants, d.uid);
    }
  }

  /** Otherwise it puts one entry at the end of that index's registry, made of the object and of the clock, and
      touches nothing else. */
  lemma AppendSays(s: Store, d: Derived, now: int, k: IndexKey)
    requires PointsAt(d, k) && k in s && forall e :: e in s[k].descendants ==> e.uid != d.uid
    ensures k in SerialD(s, d, now)
    ensures var ds := SerialD(s, d, now)[k].descendants;
            && |ds| == |s[k].descendants| + 1 && ds[..|ds| - 1] == s[k].descendants
            && SerialD(s, d, now) == s[k := s[k].(descendants := ds)]
            && var e := ds[|ds| - 1];
               && Names(e, d)
               && e.createdAt == Some(now)
               && e.rootGenerationAtCreation == d.generation
               && Actor(e.actorRef, s[k].binding, d.labels)
               && Carries(e.seamOperator, d.labels, "infrastructure.ontai.dev/seam-operator")
               && Carries(e.creationRationale, d.labels, "infrastructure.ontai.dev/creation-rationale")
  {
    TargetIff(d, k);
    var ds := s[k].descendants;
    assert !Listed(ds, d.uid);
    assert Look(s, d) == Some(Watcher(k, d, s[k]));
    EntrySays(s[k], d, now);
    var e := EntryFor(s[k], d, now);
    assert (ds + [e])[..|ds|] == ds;
  }

  lemma EntrySays(ix: Index, d: Derived, now: int)
    ensures var e := EntryFor(ix, d, now);
            && Names(e, d) && e.createdAt == Some(now) && e.rootGenerationAtCreation == d.generation
            && Actor(e.actorRef, ix.binding, d.labels)
            && Carries(e.seamOperator, d.labels, "infrastructure.ontai.dev/seam-operator")
            && Carries(e.creationRationale, d.labels, "infrastructure.ontai.dev/creation-rationale")
  {
  }

  /** The outcome reconcile: nothing unless the object points at a stored index without its outcome and some
      condition of it is terminal. */
  lemma OutcomeLeaves(s: Store, d: Derived, now: int)
    requires || (forall i :: 0 <= i < |d.conditions| ==> !Terminal(d.conditions[i]))
             || (forall k :: k in s && PointsAt(d, k) ==>
                   exists x :: x in s[k].outcomes && x.derivedObjectUID == d.uid)
    ensures SerialO(s, d, now) == s
  {
    ClassifyTable(d.conditions);
    if Look(s, d).Some? && Classify(d.conditions).Some? {
      var k := Target(d).value;
      TargetIff(d, k);
      var x :| x in s[k].outcomes && x.derivedObjectUID == d.uid;
      assert Recorded(s[k].outcomes, d.uid);
    }
  }

  /** Otherwise one outcome at the end of the list: that of the first terminal condition, whose reason and message are
      the reference and the detail. */
  lemma OutcomeSays(s: Store, d: Derived, now: int, k: IndexKey, i: nat)
    requires PointsAt(d, k) && k in s && forall x :: x in s[k].outcomes ==> x.derivedObjectUID != d.uid
    requires i < |d.conditions| && Terminal(d.conditions[i])
    requires forall j :: 0 <= j < i ==> !Terminal(d.conditions[j])
    ensures k in SerialO(s, d, now)
    ensures var es := SerialO(s, d, now)[k].outcomes;
            && |es| == |s[k].outcomes| + 1 && es[..|es| - 1] == s[k].outcomes
            && SerialO(s, d, now) == s[k := s[k].(outcomes := es)]
            && var x := es[|es| - 1]; var c := d.conditions[i];
               && x.derivedObjectUID == d.uid && x.outcomeTimestamp == now
               && x.outcomeRef == c.reason && x.outcomeDetail == c.message
               && Tells(c, Verdict(x.outcomeType, c.reason, c.message))
  {
    TargetIff(d, k);
    ClassifyTable(d.conditions);
    var es := s[k].outcomes;
    assert !Recorded(es, d.uid);
    assert Look(s, d) == Some(Watcher(k, d, s[k]));
    var x := OutcomeFor(d, Classify(d.conditions).value, now);
    assert (es + [x])[..|es|] == es;
  }

  // ---------------------------------------------------------------- what is built, owned and marked

  /** A new index: its key, its binding with the stamped principal, and its metadata. */
  lemma BuiltSays(r: Root)
    ensures RootKey(r) == IndexKey(r.namespace, ToLower(r.kind) + "-" + r.name)
    ensures var b := Built(r).binding;
            && b.rootKind == r.kind && b.rootName == r.name && b.rootNamespace == r.namespace
            && b.rootUID == r.uid && b.rootObservedGeneration == r.generation
            && b.declaringPrincipal ==
               (if && "infrastructure.ontai.dev/declaring-principal" in r.annotations
                   && r.annotations["infrastructure.ontai.dev/declaring-principal"] != ""
                then r.annotations["infrastructure.ontai.dev/declaring-principal"] else "system:unknown")
    ensures Built(r).domainRef == "infrastructure.core.ontai.dev" && Built(r).retention.None?
    ensures Built(r).labels
            == map["infrastructure.ontai.dev/root-kind" := ToLower(r.kind),
                   "infrastructure.ontai.dev/root-name" := r.name]
  {
  }

  /** The governance annotations of a new index, and no others. */
  lemma BuiltIsAnnotated(r: Root)
    ensures Built(r).annotations
            == map["governance.infrastructure.ontai.dev/controller-authored" := "true",
                   "governance.infrastructure.ontai.dev/root-kind" := r.kind,
                   "governance.infrastructure.ontai.dev/root-name" := r.name,
                   "governance.infrastructure.ontai.dev/root-namespace" := r.namespace]
  {
    GovernanceKeys();
  }

  lemma GovernanceKeys()
    ensures GOVERNANCE + "/controller-authored" == "governance.infrastructure.ontai.dev/controller-authored"
    ensures GOVERNANCE + "/root-kind" == "governance.infrastructure.ontai.dev/root-kind"
    ensures GOVERNANCE + "/root-name" == "governance.infrastructure.ontai.dev/root-name"
    ensures GOVERNANCE + "/root-namespace" == "governance.infrastructure.ontai.dev/root-namespace"
  {
  }

  /** The owner reference: added where the index goes with its root, which is the default, and its UID is not there
      yet. */
  lemma OwnerSays(ix: Index, r: Root)
    ensures var after := OwnedIndex(ix, r);
            var added := (ix.retention.None? || ix.retention.value.deleteWithRoot)
                         && forall o :: o in ix.owners ==> o.uid != r.uid;
            if !added then after == ix
            else
              && after == ix.(owners := after.owners)
              && |after.owners| == |ix.owners| + 1 && after.owners[..|ix.owners|] == ix.owners
              && var o := after.owners[|ix.owners|];
                 o.apiVersion == r.apiVersion && o.kind == r.kind && o.name == r.name && o.uid == r.uid
  {
    var os := ix.owners;
    if forall o :: o in os ==> o.uid != r.uid {
      forall i | 0 <= i < |os| ensures os[i].uid != r.uid { assert os[i] in os; }
      assert (os + [OwnerOf(r)])[..|os|] == os;
    } else {
      var o :| o in os && o.uid == r.uid;
      var i :| 0 <= i < |os| && os[i] == o;
      assert Owned(os, r.uid);
    }
  }

  /** The same of the step that patches the owners of a stored index from a current copy. */
  lemma OwnStepSays(w: World, pid: nat)
    requires pid in w.lin && w.lin[pid].key in w.store && w.store[w.lin[pid].key] == w.lin[pid].snap
    ensures OwnStep(w, pid).store == w.store[w.lin[pid].key := OwnedIndex(w.lin[pid].snap, w.lin[pid].root)]
    ensures pid !in OwnStep(w, pid).lin
  {
    OwnIsStep(w, pid, w.lin[pid]);
  }

  /** A settled root: the annotation names its index. */
  lemma MarkedNames(r: Root, now: int)
    ensures Marked(r, now).annotations
            == r.annotations["governance.infrastructure.ontai.dev/lineage-index-ref" := ToLower(r.kind) + "-" + r.name]
  {
    assert INDEX_REF == "governance.infrastructure.ontai.dev/lineage-index-ref";
  }

  /** And LineageSynced is true. Where it was not, the condition that makes it so says why, when, and for which
      generation, and stands where the type stood or at the end. */
  lemma MarkedSays(r: Root, now: int, message: string)
    requires message == "InfrastructureLineageIndex \"" + (ToLower(r.kind) + "-" + r.name)
                        + "\" created by InfrastructureLineageController."
    ensures var cs, ds := r.conditions, Marked(r, now).conditions;
            var c := RawCondition("LineageSynced", "True", "LineageIndexCreated", message, now, r.generation);
            if exists i :: 0 <= i < |cs| && OfType(cs[i]) && cs[i].status == "True" then ds == cs
            else
              && |ds| == |cs| + (if exists i :: 0 <= i < |cs| && OfType(cs[i]) then 0 else 1)
              && (forall i :: 0 <= i < |cs| ==> ds[i] == if OfType(cs[i]) then c else cs[i])
              && (|ds| > |cs| ==> ds[|cs|] == c)
  {
    EnsuredSays(r.conditions, RawCondition("LineageSynced", "True", "LineageIndexCreated", message, now, r.generation));
  }

  lemma EnsuredSays(cs: seq<RawCondition>, c: RawCondition)
    ensures var ds := SyncedCondition.Ensured(cs, c);
            if exists i :: 0 <= i < |cs| && OfType(cs[i]) && cs[i].status == "True" then ds == cs
            else
              && |ds| == |cs| + (if exists i :: 0 <= i < |cs| && OfType(cs[i]) then 0 else 1)
              && (forall i :: 0 <= i < |cs| ==> ds[i] == if OfType(cs[i]) then c else cs[i])
              && (|ds| > |cs| ==> ds[|cs|] == c)
  {
    assert SyncedCondition.SyncedTrue(cs) <==> exists i :: 0 <= i < |cs| && OfType(cs[i]) && cs[i].status == "True";
    assert SyncedCondition.Mentioned(cs) <==> exists i :: 0 <= i < |cs| && OfType(cs[i]);
  }

  predicate OfType(c: RawCondition) {
    c.RawCondition? && c.kind == "LineageSynced"
  }

  /** The labels an operator sets: five keys, each with its value, over whatever was there. */
  lemma LabelledSays(labels: map<string, string>, name: string, namespace: string, operator: string,
                     rationale: string, actor: string)
    ensures var m := Labelled(labels, name, namespace, operator, rationale, actor);
            && Carries(name, m, "infrastructure.ontai.dev/root-ili")
            && Carries(namespace, m, "infrastructure.ontai.dev/root-ili-namespace")
            && Carries(operator, m, "infrastructure.ontai.dev/seam-operator")
            && Carries(rationale, m, "infrastructure.ontai.dev/creation-rationale")
            && Carries(actor, m, "infrastructure.ontai.dev/actor-ref")
            && (forall key :: key in labels ==> key in m)
            && forall key :: key in m ==>
                 || key in ["infrastructure.ontai.dev/root-ili", "infrastructure.ontai.dev/root-ili-namespace",
                            "infrastructure.ontai.dev/seam-operator", "infrastructure.ontai.dev/creation-rationale",
                            "infrastructure.ontai.dev/actor-ref"]
                 || (key in labels && m[key] == labels[key])
  {
    LabelsReadBack(labels, name, namespace, operator, rationale, actor);
  }

  // ---------------------------------------------------------------- entries lead back to their objects

  /** Step n of a run from nothing made this entry of the index out of this object, which the same reconcile had
      read before. */
  ghost predicate TracedAt(acts: seq<Act>, k: IndexKey, x: DescendantEntry, d: Derived, n: nat) {
    && n < |acts| && BuiltBy(Exec(EMPTY, acts[..n]), acts[n], k, x)
    && Exec(EMPTY, acts[..n]).desc[acts[n].pid].d == d
    && ReadIn(acts[..n], acts[n].pid, d)
  }

  ghost predicate ReadIn(acts: seq<Act>, pid: nat, d: Derived) {
    exists m :: 0 <= m < |acts| && acts[m] == ReadD(pid, d)
  }

  lemma ReadInSnoc(acts: seq<Act>, a: Act, pid: nat, d: Derived)
    ensures ReadIn(acts, pid, d) ==> ReadIn(acts + [a], pid, d)
    ensures ReadIn(acts + [a], pid, d) <== a == ReadD(pid, d)
  {
    assert (acts + [a])[|acts|] == a;
    if ReadIn(acts, pid, d) {
      var m :| 0 <= m < |acts| && acts[m] == ReadD(pid, d);
      assert (acts + [a])[m] == ReadD(pid, d);
    }
  }

  lemma WatchersChange(w: World, a: Act, pid: nat)
    requires pid in Next(w, a).desc
    ensures a == ReadD(pid, Next(w, a).desc[pid].d) || (pid in w.desc && w.desc[pid] == Next(w, a).desc[pid])
  {
  }

  lemma {:induction false} WatchersHaveRead(acts: seq<Act>, pid: nat)
    requires pid in Exec(EMPTY, acts).desc
    ensures ReadIn(acts, pid, Exec(EMPTY, acts).desc[pid].d)
  {
    if acts != [] {
      var init, a := acts[..|acts| - 1], acts[|acts| - 1];
      assert acts == init + [a];
      WatchersChange(Exec(EMPTY, init), a, pid);
      ReadInSnoc(init, a, pid, Exec(EMPTY, acts).desc[pid].d);
      if a != ReadD(pid, Exec(EMPTY, acts).desc[pid].d) {
        WatchersHaveRead(init, pid);
      }
    }
  }

  /** Every stored entry is traced to some object, */
  lemma EntriesAreTraced(acts: seq<Act>, k: IndexKey, x: DescendantEntry) returns (d: Derived, n: nat)
    requires k in Exec(EMPTY, acts).store && x in Exec(EMPTY, acts).store[k].descendants
    ensures TracedAt(acts, k, x, d, n)
  {
    EntriesComeFromTheirObjects(acts, k, x);
    n :| n < |acts| && BuiltBy(Exec(EMPTY, acts[..n]), acts[n], k, x);
    d := Exec(EMPTY, acts[..n]).desc[acts[n].pid].d;
    WatchersHaveRead(acts[..n], acts[n].pid);
  }

  /** whose name it bears, whose labels point at the index, and which it asks for when it is looked up. */
  lemma TracedEntriesName(acts: seq<Act>, k: IndexKey, x: DescendantEntry, d: Derived, n: nat)
    requires TracedAt(acts, k, x, d, n)
    ensures Names(x, d) && PointsAt(d, k) && x.createdAt == Some(acts[n].now)
    ensures forall lookup: Lookup :: Ask(lookup, x) == lookup(d.group, d.version, d.kind, d.namespace, d.name)
  {
    TargetIff(d, k);
  }

  /** What each prune of the run was told is what its lookup says of the entries in its copy. */
  ghost predicate Told(w: World, acts: seq<Act>, answers: nat -> Lookup) {
    forall n: nat :: n < |acts| ==> ToldAt(Exec(w, acts[..n]), acts[n], answers(n))
  }

  ghost predicate ToldAt(w: World, a: Act, lookup: Lookup) {
    a.PruneL? && a.pid in w.lin ==> a.seen == Answers(lookup, w.lin[a.pid].snap.descendants)
  }

  /** A prune at which the object was not found, and the entry had reached the age the index's policy sets. */
  ghost predicate LetsGo(w: World, a: Act, lookup: Lookup, k: IndexKey, created: int, d: Derived) {
    && a.PruneL? && lookup(d.group, d.version, d.kind, d.namespace, d.name) == NotFound
    && k in w.store && OldEnough(w.store[k].retention, created, a.now)
  }

  lemma ExpiredIsOld(ix: Index, a: Act, i: nat)
    requires a.PruneL? && |a.seen| == |ix.descendants| && i < |ix.descendants| && Expired(ix, a, i)
    ensures OldEnough(ix.retention, ix.descendants[i].createdAt.value, a.now)
  {
    if ix.retention.Some? ==> ix.retention.value.days <= 106751 {
      WindowInForce(ix.retention, ix.descendants[i].createdAt.value, a.now);
    }
  }

  lemma TakenOutIsLetGo(w: World, a: Act, lookup: Lookup, k: IndexKey, x: DescendantEntry, d: Derived)
    requires TakesOut(w, a, k, x) && CurrentOn(w, a, k) && ToldAt(w, a, lookup)
    requires Names(x, d) && x.createdAt.Some?
    ensures LetsGo(w, a, lookup, k, x.createdAt.value, d)
  {
    var copy :| WritesFrom(w, a, k, copy) && Drops(w, a, copy, x);
    assert x in copy.descendants;
    var i :| 0 <= i < |copy.descendants| && copy.descendants[i] == x && Expired(copy, a, i);
    assert a.seen[i] == Ask(lookup, x);
    ExpiredIsOld(copy, a, i);
  }

  ghost predicate LetGoAt(w: World, acts: seq<Act>, n: nat, answers: nat -> Lookup, k: IndexKey, created: int,
                          d: Derived)
  {
    n < |acts| && LetsGo(Exec(w, acts[..n]), acts[n], answers(n), k, created, d)
  }

  /** Over every run from nothing: once only current copies are written to an index that stays, an entry that leaves
      it does so at a prune that did not find the very object the entry was made from, at the age its policy sets. */
  lemma LossMeansGone(past: seq<Act>, future: seq<Act>, k: IndexKey, x: DescendantEntry, d: Derived, made: nat,
                      answers: nat -> Lookup)
    requires k in Exec(EMPTY, past).store && x in Exec(EMPTY, past).store[k].descendants
    requires TracedAt(past, k, x, d, made)
    requires CurrentRunOn(Exec(EMPTY, past), future, k) && !Deletes(future, k)
    requires Told(Exec(EMPTY, past), future, answers)
    ensures k in Exec(Exec(EMPTY, past), future).store
    ensures || x in Exec(Exec(EMPTY, past), future).store[k].descendants
            || exists n: nat :: LetGoAt(Exec(EMPTY, past), future, n, answers, k, past[made].now, d)
  {
    var w := Exec(EMPTY, past);
    TracedEntriesName(past, k, x, d, made);
    LossHasACause(w, future, k, x);
    if x !in Exec(w, future).store[k].descendants {
      var n: nat :| TakenOutAt(w, future, n, k, x);
      assert ToldAt(Exec(w, future[..n]), future[n], answers(n));
      TakenOutIsLetGo(Exec(w, future[..n]), future[n], answers(n), k, x, d);
      assert LetGoAt(w, future, n, answers, k, past[made].now, d);
    }
  }

  /** In particular an object that every lookup finds, or fails to rule out, keeps its entry for good. */
  lemma LiveObjectsStayListed(past: seq<Act>, future: seq<Act>, k: IndexKey, x: DescendantEntry, d: Derived, made: nat,
                              answers: nat -> Lookup)
    requires k in Exec(EMPTY, past).store && x in Exec(EMPTY, past).store[k].descendants
    requires TracedAt(past, k, x, d, made)
    requires CurrentRunOn(Exec(EMPTY, past), future, k) && !Deletes(future, k)
    requires Told(Exec(EMPTY, past), future, answers)
    requires forall n: nat :: answers(n)(d.group, d.version, d.kind, d.namespace, d.name) != NotFound
    ensures k in Exec(Exec(EMPTY, past), future).store
    ensures x in Exec(Exec(EMPTY, past), future).store[k].descendants
  {
    LossMeansGone(past, future, k, x, d, made, answers);
  }
}
