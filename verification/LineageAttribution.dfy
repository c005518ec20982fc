/** Who an entry says acted: in every interleaving, however stale, the principal its index is bound to, exactly as
    long as no registry computed for one principal lands on the index of another. */
module LineageAttribution {
  import opened Text
  import opened Lineage
  import opened Retention
  import opened LineageRuns
  import opened LineageSerial

  /** Every entry names the principal its index is bound to, and somebody. */
  ghost predicate Attributed(ix: Index) {
    ix.binding.declaringPrincipal != "" && NamesOnly(ix.descendants, ix.binding.declaringPrincipal)
  }

  ghost predicate NamesOnly(ds: seq<DescendantEntry>, actor: string) {
    forall i :: 0 <= i < |ds| ==> ds[i].actorRef == actor
  }

  ghost predicate AttributedStore(s: Store) {
    forall k :: k in s ==> Attributed(s[k])
  }

  predicate SamePrincipal(x: Index, y: Index) {
    x.binding.declaringPrincipal == y.binding.declaringPrincipal
  }

  /** The registry a step writes comes from a copy with the principal of the index it lands on, or is empty. */
  ghost predicate Lands(w: World, a: Act) {
    && (a.AppendD? && a.pid in w.desc ==>
          var p := w.desc[a.pid];
          WantsD(p, a.now).Some? && p.key in w.store ==> SamePrincipal(p.snap, w.store[p.key]))
    && (a.PruneL? && a.pid in w.lin && |a.seen| == |w.lin[a.pid].snap.descendants| ==>
          var p := w.lin[a.pid];
          var kept := KeptOf(p.snap, a.seen, a.now);
          kept != p.snap.descendants && p.key in w.store ==> kept == [] || SamePrincipal(p.snap, w.store[p.key]))
  }

  ghost predicate LandingRun(w: World, acts: seq<Act>) {
    acts == [] || (LandingRun(w, acts[..|acts| - 1]) && Lands(Exec(w, acts[..|acts| - 1]), acts[|acts| - 1]))
  }

  /** Stored indexes and copies alike. */
  ghost predicate Fair(w: World) {
    && AttributedStore(w.store)
    && (forall i :: i in w.desc ==> Attributed(w.desc[i].snap))
    && (forall i :: i in w.lin ==> Attributed(w.lin[i].snap))
  }

  // ---------------------------------------------------------------- one step

  lemma PatchAttributedIff(s: Store, k: IndexKey, ds: seq<DescendantEntry>, actor: string)
    requires AttributedStore(s) && NamesOnly(ds, actor)
    ensures AttributedStore(PatchD(s, k, ds))
            <==> (k in s ==> ds == [] || actor == s[k].binding.declaringPrincipal)
  {
    var t := PatchD(s, k, ds);
    if k in s {
      assert t[k].binding == s[k].binding && t[k].descendants == ds;
      assert ds != [] ==> ds[0].actorRef == actor;
      assert Attributed(s[k]);
      assert Attributed(t[k]) <==> (ds == [] || actor == s[k].binding.declaringPrincipal);
      assert forall l :: l in s && l != k ==> t[l] == s[l];
      if Attributed(t[k]) {
        assert AttributedStore(t);
      }
    }
  }

  lemma AppendIff(w: World, pid: nat, now: int)
    requires Fair(w)
    ensures var a := AppendD(pid, now);
            (AttributedStore(Next(w, a).store) <==> Lands(w, a)) && (Lands(w, a) ==> Fair(Next(w, a)))
  {
    if pid in w.desc && WantsD(w.desc[pid], now).Some? {
      var p := w.desc[pid];
      var actor := p.snap.binding.declaringPrincipal;
      assert Attributed(p.snap) && EntryFor(p.snap, p.d, now).actorRef == actor;
      PatchAttributedIff(w.store, p.key, WantsD(p, now).value, actor);
    }
  }

  lemma KeptNames(ix: Index, seen: seq<Existence>, now: int)
    requires Attributed(ix) && |seen| == |ix.descendants|
    ensures NamesOnly(KeptOf(ix, seen, now), ix.binding.declaringPrincipal)
  {
    var at := KeptIsFilter(ix.descendants, seen, now, Window(Days(ix.retention)));
  }

  lemma PruneIff(w: World, pid: nat, seen: seq<Existence>, now: int)
    requires Fair(w)
    ensures var a := PruneL(pid, seen, now);
            (AttributedStore(Next(w, a).store) <==> Lands(w, a)) && (Lands(w, a) ==> Fair(Next(w, a)))
  {
    if pid in w.lin && |seen| == |w.lin[pid].snap.descendants| {
      var p := w.lin[pid];
      KeptNames(p.snap, seen, now);
      PatchAttributedIff(w.store, p.key, KeptOf(p.snap, seen, now), p.snap.binding.declaringPrincipal);
    }
  }

  /** Neither registries nor bindings differ. */
  ghost predicate SameRegistries(s: Store, t: Store) {
    s.Keys == t.Keys
    && forall k :: k in s ==> t[k].descendants == s[k].descendants && t[k].binding == s[k].binding
  }

  lemma OtherPatches(s: Store, k: IndexKey, es: seq<OutcomeEntry>, os: seq<OwnerRef>)
    ensures SameRegistries(s, PatchO(s, k, es)) && SameRegistries(s, PatchOwners(s, k, os))
  {
  }

  lemma FairAcross(w: World, v: World)
    requires Fair(w) && SameRegistries(w.store, v.store) && v.desc == w.desc
    requires forall i :: i in v.lin ==> i in w.lin && v.lin[i] == w.lin[i]
    ensures Fair(v)
  {
    forall k | k in v.store ensures Attributed(v.store[k]) {
      assert Attributed(w.store[k]);
    }
  }

  lemma AppendOFair(w: World, pid: nat, now: int)
    requires Fair(w)
    ensures Fair(AppendOStep(w, pid, now))
  {
    if pid in w.out {
      var p := w.out[pid];
      OtherPatches(w.store, p.key, if WantsO(p, now).Some? then WantsO(p, now).value else [], []);
      FairAcross(w, AppendOStep(w, pid, now));
    }
  }

  lemma OwnFair(w: World, pid: nat)
    requires Fair(w)
    ensures Fair(OwnStep(w, pid))
  {
    if pid in w.lin {
      var p := w.lin[pid];
      OtherPatches(w.store, p.key, [], if WantsOwners(p).Some? then WantsOwners(p).value else []);
      FairAcross(w, OwnStep(w, pid));
    }
  }

  lemma RetentionPatch(w: World, k: IndexKey, policy: Option<Lineage.Retention>)
    ensures SameRegistries(w.store, RetentionStep(w, k, policy).store)
  {
  }

  lemma RetentionFair(w: World, k: IndexKey, policy: Option<Lineage.Retention>)
    requires Fair(w)
    ensures Fair(RetentionStep(w, k, policy))
  {
    RetentionPatch(w, k, policy);
    FairAcross(w, RetentionStep(w, k, policy));
  }

  lemma ReadDFair(w: World, pid: nat, d: Derived)
    requires Fair(w)
    ensures Fair(ReadDStep(w, pid, d))
  {
    assert Look(w.store, d).Some? ==> Attributed(Look(w.store, d).value.snap);
  }

  lemma ReadLFair(w: World, pid: nat, root: Root)
    requires Fair(w)
    ensures Fair(ReadLStep(w, pid, root))
  {
  }

  lemma CreateFair(w: World, root: Root)
    requires Fair(w)
    ensures Fair(CreateStep(w, root))
  {
    assert Attributed(Built(root));
  }

  lemma OtherStepsFair(w: World, a: Act)
    requires Fair(w) && !a.AppendD? && !a.PruneL?
    ensures Fair(Next(w, a))
  {
    match a
    case CreateIndex(root) => CreateFair(w, root);
    case DeleteIndex(k) =>
    case ReadD(pid, d) => ReadDFair(w, pid, d);
    case ReadL(pid, root) => ReadLFair(w, pid, root);
    case ReadO(pid, d) =>
    case AppendO(pid, now) => AppendOFair(w, pid, now);
    case OwnL(pid) => OwnFair(w, pid);
    case SetRetention(k, policy) => RetentionFair(w, k, policy);
  }

  lemma StepIff(w: World, a: Act)
    requires Fair(w)
    ensures AttributedStore(Next(w, a).store) <==> Lands(w, a)
    ensures Lands(w, a) ==> Fair(Next(w, a))
  {
    match a
    case AppendD(pid, now) => AppendIff(w, pid, now);
    case PruneL(pid, seen, now) => PruneIff(w, pid, seen, now);
    case _ => OtherStepsFair(w, a);
  }

  // ---------------------------------------------------------------- every run

  /** In every interleaving from nothing whose registries land on the principal they were computed for, each entry's
      actor is the principal that declared its index's root. */
  lemma {:induction false} EntriesAreAttributed(acts: seq<Act>)
    requires LandingRun(EMPTY, acts)
    ensures Fair(Exec(EMPTY, acts))
  {
    if acts != [] {
      var init := acts[..|acts| - 1];
      EntriesAreAttributed(init);
      StepIff(Exec(EMPTY, init), acts[|acts| - 1]);
    }
  }

  /** After every step of the run. */
  ghost predicate AlwaysAttributed(w: World, acts: seq<Act>) {
    && AttributedStore(Exec(w, acts).store)
    && (acts == [] || AlwaysAttributed(w, acts[..|acts| - 1]))
  }

  /** That condition is exact: every store along a run is attributed if and only if every registry lands so. */
  lemma {:induction false} AttributedIffLanding(acts: seq<Act>)
    ensures AlwaysAttributed(EMPTY, acts) <==> LandingRun(EMPTY, acts)
  {
    if acts != [] {
      var init := acts[..|acts| - 1];
      AttributedIffLanding(init);
      if LandingRun(EMPTY, init) {
        EntriesAreAttributed(init);
        StepIff(Exec(EMPTY, init), acts[|acts| - 1]);
      }
    }
  }

  // ---------------------------------------------------------------- runs that meet it

  predicate NoDeletion(acts: seq<Act>) {
    forall i :: 0 <= i < |acts| ==> !acts[i].DeleteIndex?
  }

  /** The index behind every copy is still the one that was copied. */
  ghost predicate Anchored(w: World) {
    && (forall i :: i in w.desc ==> w.desc[i].key in w.store && SameBinding(w.desc[i].snap, w.store[w.desc[i].key]))
    && (forall i :: i in w.lin ==> w.lin[i].key in w.store && SameBinding(w.lin[i].snap, w.store[w.lin[i].key]))
  }

  predicate SameBinding(x: Index, y: Index) {
    x.binding == y.binding
  }

  ghost predicate BindingsKept(s: Store, t: Store) {
    forall k :: k in s ==> k in t && t[k].binding == s[k].binding
  }

  lemma NextKeepsBindings(w: World, a: Act)
    requires !a.DeleteIndex?
    ensures BindingsKept(w.store, Next(w, a).store)
  {
    forall k | k in w.store ensures k in Next(w, a).store && Next(w, a).store[k].binding == w.store[k].binding {
      BindingStays(w, a, k);
    }
  }

  /** A copy a step leaves behind is an old one, or one of what is stored now. */
  lemma CopiesAreOldOrNew(w: World, a: Act)
    ensures var v := Next(w, a);
            forall i :: i in v.desc ==> (i in w.desc && v.desc[i] == w.desc[i])
                                        || (v.desc[i].key in v.store && v.desc[i].snap == v.store[v.desc[i].key])
    ensures var v := Next(w, a);
            forall i :: i in v.lin ==> (i in w.lin && v.lin[i] == w.lin[i])
                                       || (v.lin[i].key in v.store && v.lin[i].snap == v.store[v.lin[i].key])
  {
  }

  lemma AnchoredLands(w: World, a: Act)
    requires Anchored(w)
    ensures Lands(w, a)
  {
  }

  lemma AnchoredAcross(w: World, v: World)
    requires Anchored(w) && BindingsKept(w.store, v.store)
    requires forall i :: i in v.desc ==> (i in w.desc && v.desc[i] == w.desc[i])
                                         || (v.desc[i].key in v.store && v.desc[i].snap == v.store[v.desc[i].key])
    requires forall i :: i in v.lin ==> (i in w.lin && v.lin[i] == w.lin[i])
                                        || (v.lin[i].key in v.store && v.lin[i].snap == v.store[v.lin[i].key])
    ensures Anchored(v)
  {
  }

  lemma NextAnchored(w: World, a: Act)
    requires Anchored(w) && !a.DeleteIndex?
    ensures Lands(w, a) && Anchored(Next(w, a))
  {
    AnchoredLands(w, a);
    NextKeepsBindings(w, a);
    CopiesAreOldOrNew(w, a);
    AnchoredAcross(w, Next(w, a));
  }

  /** In every interleaving in which no index is deleted, however stale the copies, registries land. */
  lemma {:induction false} UndeletedRunsLand(acts: seq<Act>)
    requires NoDeletion(acts)
    ensures LandingRun(EMPTY, acts) && Anchored(Exec(EMPTY, acts))
  {
    if acts != [] {
      var init := acts[..|acts| - 1];
      UndeletedRunsLand(init);
      NextAnchored(Exec(EMPTY, init), acts[|acts| - 1]);
    }
  }

  /** So do they in every current run, deletions and all. */
  lemma {:induction false} CurrentRunsLand(acts: seq<Act>)
    requires CurrentRun(EMPTY, acts)
    ensures LandingRun(EMPTY, acts)
  {
    if acts != [] {
      var init := acts[..|acts| - 1];
      CurrentRunsLand(init);
      EntriesAreAttributed(init);
      CurrentLands(Exec(EMPTY, init), acts[|acts| - 1]);
    }
  }

  lemma CurrentLands(w: World, a: Act)
    requires Fair(w) && Current(w, a)
    ensures Lands(w, a)
  {
    if a.PruneL? && a.pid in w.lin && |a.seen| == |w.lin[a.pid].snap.descendants| && w.lin[a.pid].key in w.store {
      var p := w.lin[a.pid];
      var kept := KeptOf(p.snap, a.seen, a.now);
      KeptNames(p.snap, a.seen, a.now);
      KeptNames(w.store[p.key], a.seen, a.now);
      assert kept != [] ==> kept[0].actorRef == p.snap.binding.declaringPrincipal;
      assert kept != [] ==> kept[0].actorRef == w.store[p.key].binding.declaringPrincipal;
    }
  }

  // ---------------------------------------------------------------- and one that does not

  /** An index deleted and made again for another principal between the read and the append of a reconcile. */
  function RecreatingRun(r: Root, q: Root, pid: nat, d: Derived, now: int): seq<Act> {
    [CreateIndex(r), ReadD(pid, d)] + [DeleteIndex(RootKey(r)), CreateIndex(q)] + [AppendD(pid, now)]
  }

  /** The entry computed for the old principal lands on the index of the new one. */
  lemma RecreatedIndexMisattributes(r: Root, q: Root, pid: nat, d: Derived, now: int)
    requires Registered(r.kind) && Registered(q.kind) && RootKey(q) == RootKey(r) && Target(d) == Some(RootKey(r))
    requires Principal(q.annotations) != Principal(r.annotations)
    ensures var s := Exec(EMPTY, RecreatingRun(r, q, pid, d, now)).store;
            && RootKey(r) in s
            && s[RootKey(r)].binding.declaringPrincipal == Principal(q.annotations)
            && s[RootKey(r)].descendants == [EntryFor(Built(r), d, now)]
            && !Attributed(s[RootKey(r)])
  {
    var k := RootKey(r);
    var a := ReadDStep(CreateStep(EMPTY, r), pid, d);
    var b := CreateStep(a.(store := a.store - {k}), q);
    RecreatingSteps(r, q, pid, d, now);
    ReadAfterCreate(r, pid, d);
    Recreated(a, k, q);
    AppendOnNew(b, pid, Watcher(k, d, Built(r)), now);
  }

  lemma RecreatingSteps(r: Root, q: Root, pid: nat, d: Derived, now: int)
    ensures var a := ReadDStep(CreateStep(EMPTY, r), pid, d);
            Exec(EMPTY, RecreatingRun(r, q, pid, d, now))
            == AppendDStep(CreateStep(a.(store := a.store - {RootKey(r)}), q), pid, now)
  {
    var u, a := CreateStep(EMPTY, r), ReadDStep(CreateStep(EMPTY, r), pid, d);
    var b := a.(store := a.store - {RootKey(r)});
    FiveSteps(EMPTY, CreateIndex(r), ReadD(pid, d), DeleteIndex(RootKey(r)), CreateIndex(q), AppendD(pid, now));
    assert Next(EMPTY, CreateIndex(r)) == u && Next(u, ReadD(pid, d)) == a && Next(a, DeleteIndex(RootKey(r))) == b;
  }

  lemma FiveSteps(w: World, a: Act, b: Act, c: Act, d: Act, e: Act)
    ensures Exec(w, [a, b] + [c, d] + [e]) == Next(Next(Next(Next(Next(w, a), b), c), d), e)
  {
    ExecSnoc(w, [a, b] + [c, d], e);
    ExecConcat(w, [a, b], [c, d]);
    ExecPair(w, a, b);
    ExecPair(Exec(w, [a, b]), c, d);
  }

  lemma Recreated(a: World, k: IndexKey, q: Root)
    requires Registered(q.kind) && RootKey(q) == k
    ensures CreateStep(a.(store := a.store - {k}), q) == a.(store := (a.store - {k})[k := Built(q)])
  {
  }

  lemma ReadAfterCreate(r: Root, pid: nat, d: Derived)
    requires Registered(r.kind) && Target(d) == Some(RootKey(r))
    ensures ReadDStep(CreateStep(EMPTY, r), pid, d)
            == World(map[RootKey(r) := Built(r)], map[pid := Watcher(RootKey(r), d, Built(r))], map[], map[])
  {
  }

  lemma AppendOnNew(w: World, pid: nat, p: Watcher, now: int)
    requires pid in w.desc && w.desc[pid] == p && p.key in w.store && p.snap.descendants == []
    requires p.snap.binding.declaringPrincipal != "" && !SamePrincipal(p.snap, w.store[p.key])
    ensures var s := AppendDStep(w, pid, now).store;
            && p.key in s && s[p.key].binding == w.store[p.key].binding
            && s[p.key].descendants == [EntryFor(p.snap, p.d, now)] && !Attributed(s[p.key])
  {
    var s := AppendDStep(w, pid, now).store;
    assert [] + [EntryFor(p.snap, p.d, now)] == [EntryFor(p.snap, p.d, now)];
    assert s[p.key].descendants[0].actorRef == p.snap.binding.declaringPrincipal;
  }
}
