/** What every run of the DSNS step system guarantees when no two objects claim the same slot. */
module DsnsRuns {
  import opened Text
  import opened Zone
  import opened DnsState
  import opened Derive
  import opened Dsns

  /** Which slots an object may ever occupy. Module Derive shows how names make such claims exclusive. */
  type Claim = (Key, string) -> bool

  ghost predicate Exclusive(c: Claim) {
    forall k, l, x :: c(k, x) && c(l, x) ==> k == l
  }

  ghost predicate Within(c: Claim, k: Key, rs: seq<Record>) {
    forall x :: x in Keys(rs) ==> c(k, x)
  }

  /** Static records occupy slots nobody claims, and delegate nothing. */
  ghost predicate StaticOk(c: Claim, r: Record) {
    r.rtype != TYPE_NS && forall k :: !c(k, KeyOf(r))
  }

  ghost predicate ActOk(d: Projection, c: Claim, a: Act) {
    match a
    case Create(k, o) => Within(c, k, d(Named(k, o)))
    case Modify(k, o) => Within(c, k, d(Named(k, o)))
    case Glue(r) => StaticOk(c, r)
    case Restart(seeds) => forall i :: 0 <= i < |seeds| ==> StaticOk(c, seeds[i])
    case _ => true
  }

  ghost predicate ActsOk(d: Projection, c: Claim, acts: seq<Act>) {
    forall i :: 0 <= i < |acts| ==> ActOk(d, c, acts[i])
  }

  /** A start whose objects keep to their claims and whose seeds keep out of them. */
  ghost predicate StartOk(w: World, c: Claim) {
    && Start(w) && Exclusive(c)
    && (forall k :: k in w.store ==> Within(c, k, RecordsOf(w, w.store[k])))
    && exists seeds: seq<Record> :: w.ops == Statics(seeds) && forall i :: 0 <= i < |seeds| ==> StaticOk(c, seeds[i])
  }

  // ---------------------------------------------------------------- the invariant

  /** The copy of its object a reconcile carries around. */
  function Copy(pc: Pc): Option<Resource> {
    match pc
    case Adding(o) => Some(o)
    case Refetching => None
    case Ready(o) => Some(o)
    case Clearing(after) => Later(after)
    case Rendering(after) => Later(after)
    case Writing(_, after) => Later(after)
    case Mirroring(_, after) => Later(after)
    case Releasing(o, _) => Some(o)
  }

  function Later(after: After): Option<Resource> {
    if after.Release? then Some(after.o) else None
  }

  ghost predicate Carries(pc: Pc) {
    pc.Writing? || pc.Mirroring? || pc.Releasing?
  }

  ghost predicate Avoids(c: Claim, k: Key, z: Records) {
    forall x :: x in z ==> !c(k, x)
  }

  ghost predicate PcClean(w: World, c: Claim, k: Key) {
    k in w.procs ==>
      var pc := w.procs[k];
      && (Copy(pc).Some? ==> Within(c, k, RecordsOf(w, Copy(pc).value)))
      && (Carries(pc) ==> GlueClosed(pc.zone))
      && (Carries(pc) && Cleared(pc) ==> Avoids(c, k, pc.zone))
  }

  ghost predicate Holds(b: Batch, c: Claim, k: Key) {
    OwnerId(k) in b.latest ==> forall x :: x in b.latest[OwnerId(k)] ==> c(k, x)
  }

  /** The index is a history of fresh operations over claimed slots. */
  ghost predicate IndexClean(w: World, c: Claim) {
    var b := BatchOf(w.ops);
    && Disjoint(w.ops)
    && (forall k :: Proper(k) ==> Holds(b, c, k))
    && (forall x :: x in b.statics ==> b.statics[x].rtype != TYPE_NS && forall k :: !c(k, x))
    && (forall o :: o in b.latest ==> GlueClosed(b.latest[o]))
  }

  ghost predicate Clean(w: World, c: Claim) {
    && IndexClean(w, c)
    && (forall k :: k in w.store ==> Within(c, k, RecordsOf(w, w.store[k])))
    && (forall k :: PcClean(w, c, k))
    && (forall z :: z in w.acked ==> GlueClosed(z))
  }

  // ---------------------------------------------------------------- steps that leave the index alone

  lemma MoveClean(w: World, v: World, c: Claim, k: Key)
    requires Clean(w, c) && SameProcsBut(w, v, k) && PcClean(v, c, k) && v.ops == w.ops && v.derive == w.derive
    requires forall l :: l in v.store ==> Within(c, l, RecordsOf(v, v.store[l]))
    requires forall z :: z in v.acked ==> GlueClosed(z)
    ensures Clean(v, c)
  {
    forall l ensures PcClean(v, c, l) { assert PcClean(w, c, l); }
  }

  lemma PutClean(w: World, c: Claim, k: Key, o: Resource, p: Resource)
    requires Safe(w) && Clean(w, c) && Within(c, k, RecordsOf(w, p)) && SameContent(p, o)
    ensures forall l :: l in Put(w, k, o).store ==> Within(c, l, RecordsOf(w, Put(w, k, o).store[l]))
  {
    assert SoundAt(w.derive, p);
    assert SameContent(p, o.(version := w.version + 1));
  }

  lemma UserStepClean(w: World, c: Claim, a: Act)
    requires a.Create? || a.Modify? || a.Delete?
    requires Safe(w) && Clean(w, c) && ActOk(w.derive, c, a)
    ensures Clean(UserStep(w, a), c)
  {
    var v := UserStep(w, a);
    if v != w {
      PutClean(w, c, a.k, UserObject(w, a), if a.Delete? then w.store[a.k] else Named(a.k, a.o));
      assert PcClean(w, c, a.k);
      MoveClean(w, v, c, a.k);
    }
  }

  lemma FetchClean(w: World, c: Claim, k: Key)
    requires Clean(w, c)
    ensures Clean(FetchStep(w, k), c)
  {
    var v := FetchStep(w, k);
    if v != w {
      assert PcClean(v, c, k) by { assert k in w.store || FirstRead(w, k) == Some(Clearing(Done)); }
      MoveClean(w, v, c, k);
    }
  }

  lemma PutFinalizerClean(w: World, c: Claim, k: Key, ok: bool)
    requires Safe(w) && Clean(w, c)
    ensures Clean(PutFinalizerStep(w, k, ok), c)
  {
    assert PcClean(w, c, k);
    if k in w.procs && w.procs[k].Adding? {
      var o := w.procs[k].o;
      PutClean(w, c, k, WithFinalizer(o), o);
    }
    MoveClean(w, PutFinalizerStep(w, k, ok), c, k);
  }

  lemma RefetchClean(w: World, c: Claim, k: Key, ok: bool)
    requires Clean(w, c)
    ensures Clean(RefetchStep(w, k, ok), c)
  {
    assert PcClean(w, c, k);
    MoveClean(w, RefetchStep(w, k, ok), c, k);
  }

  lemma DropFinalizerClean(w: World, c: Claim, k: Key, ok: bool)
    requires Safe(w) && Clean(w, c)
    ensures Clean(DropFinalizerStep(w, k, ok), c)
  {
    assert PcClean(w, c, k);
    if k in w.procs && w.procs[k].Releasing? {
      var o := w.procs[k].o;
      PutClean(w, c, k, WithoutFinalizer(o), o);
    }
    MoveClean(w, DropFinalizerStep(w, k, ok), c, k);
  }

  lemma PrimaryClean(w: World, c: Claim, k: Key, ok: bool)
    requires Clean(w, c)
    ensures Clean(PrimaryStep(w, k, ok), c)
  {
    assert PcClean(w, c, k);
    MoveClean(w, PrimaryStep(w, k, ok), c, k);
  }

  lemma MirrorClean(w: World, c: Claim, k: Key, ok: bool)
    requires Clean(w, c)
    ensures Clean(MirrorStep(w, k, ok), c)
  {
    assert PcClean(w, c, k);
    if k in w.procs && w.procs[k].Mirroring? {
      var z, after := w.procs[k].zone, w.procs[k].after;
      var v := if ok then w.(mirror := Some(z)) else w;
      MirrorSetClean(w, c, z);
      if after.Done? {
        MoveClean(v, End(v, k), c, k);
      } else {
        ReleasingClean(v, c, k, z, after.o);
      }
    }
  }

  lemma ReleasingClean(w: World, c: Claim, k: Key, z: Records, o: Resource)
    requires Clean(w, c) && k in w.procs && w.procs[k] == Mirroring(z, Release(o))
    ensures Clean(SetPc(w, k, Releasing(o, z)), c)
  {
    assert PcClean(w, c, k);
    MoveClean(w, SetPc(w, k, Releasing(o, z)), c, k);
  }

  lemma MirrorSetClean(w: World, c: Claim, z: Records)
    requires Clean(w, c)
    ensures Clean(w.(mirror := Some(z)), c)
  {
    var v := w.(mirror := Some(z));
    forall l ensures PcClean(v, c, l) { assert PcClean(w, c, l); }
  }

  // ---------------------------------------------------------------- rendering

  /** A zone made of glue-closed lists and harmless statics has an address for every name server it names. */
  lemma ProjectionIsGlued(m: Records, b: Batch)
    requires Projects(m, b)
    requires forall x :: x in b.statics ==> b.statics[x].rtype != TYPE_NS
    requires forall o :: o in b.latest ==> GlueClosed(b.latest[o])
    ensures GlueClosed(m)
  {
    forall k | k in m && m[k].rtype == TYPE_NS
      ensures m[k].value == "ns." + m[k].name + "." + ZONE && RecordKey(TYPE_A, "ns." + m[k].name) in m
    {
      var o :| Gives(b, o, k);
      assert GlueClosed(b.latest[o]);
      assert Gives(b, o, RecordKey(TYPE_A, "ns." + m[k].name));
    }
  }

  /** While an owner holds nothing, nothing in the zone is in its claim. */
  lemma ZoneAvoids(w: World, c: Claim, k: Key)
    requires Safe(w) && IndexClean(w, c) && Exclusive(c) && OwnerId(k) !in Owners(w)
    ensures Avoids(c, k, CurrentZone(w))
  {
    var b := BatchOf(w.ops);
    ZoneIsProjection(w.ops);
    forall x | x in CurrentZone(w) ensures !c(k, x) {
      if x !in b.statics {
        var o :| Gives(b, o, x);
        assert Guarded(w, o);
        var l :| Proper(l) && OwnerId(l) == o && Guards(w, l);
        assert Holds(b, c, l);
      }
    }
  }

  lemma RenderClean(w: World, c: Claim, k: Key)
    requires Safe(w) && Clean(w, c) && Exclusive(c)
    ensures Clean(RenderStep(w, k), c)
  {
    if k in w.procs && w.procs[k].Rendering? {
      ZoneIsGlued(w, c);
      if w.procs[k].after.Release? {
        assert PcOk(w, k);
        ZoneAvoids(w, c, k);
      }
      WritingClean(w, c, k, CurrentZone(w));
    }
  }

  lemma ZoneIsGlued(w: World, c: Claim)
    requires Safe(w) && IndexClean(w, c)
    ensures GlueClosed(CurrentZone(w))
  {
    ZoneIsProjection(w.ops);
    ProjectionIsGlued(CurrentZone(w), BatchOf(w.ops));
  }

  lemma WritingClean(w: World, c: Claim, k: Key, z: Records)
    requires Clean(w, c) && k in w.procs && w.procs[k].Rendering? && GlueClosed(z)
    requires w.procs[k].after.Release? ==> Avoids(c, k, z)
    ensures Clean(SetPc(w.(owed := false), k, Writing(z, w.procs[k].after)), c)
  {
    assert PcClean(w, c, k);
    MoveClean(w, SetPc(w.(owed := false), k, Writing(z, w.procs[k].after)), c, k);
  }

  // ---------------------------------------------------------------- changing the index

  lemma ClaimedIsFresh(w: World, c: Claim, k: Key, rs: seq<Record>)
    requires Safe(w) && IndexClean(w, c) && Exclusive(c) && Proper(k) && Within(c, k, rs)
    ensures Fresh(BatchOf(w.ops), Update(OwnerId(k), rs))
    ensures forall x :: x in Contribution(rs) ==> c(k, x)
  {
    var b := BatchOf(w.ops);
    forall x | x in Contribution(rs) ensures c(k, x) {
      ContributionIsLast(rs, x);
    }
    forall o, x | o in b.latest && o != OwnerId(k) && x in b.latest[o] ensures x !in Contribution(rs) {
      assert Guarded(w, o);
      var l :| Proper(l) && OwnerId(l) == o && Guards(w, l);
      assert Holds(b, c, l);
    }
  }

  lemma SameElsewhere(w: World, v: World, c: Claim, k: Key)
    requires Clean(w, c) && SameProcsBut(w, v, k) && PcClean(v, c, k) && v.store == w.store && v.acked == w.acked
             && v.derive == w.derive
    requires IndexClean(v, c)
    ensures Clean(v, c)
  {
    forall l ensures PcClean(v, c, l) { assert PcClean(w, c, l); }
  }

  lemma UpdateIndexClean(w: World, v: World, c: Claim, k: Key, o: Resource)
    requires Safe(w) && IndexClean(w, c) && Exclusive(c) && Proper(k) && Within(c, k, RecordsOf(w, o))
    requires v.ops == w.ops + [Update(OwnerId(k), RecordsOf(w, o))]
    ensures IndexClean(v, c)
  {
    var rs := RecordsOf(w, o);
    OwnersSnoc(w, Update(OwnerId(k), rs));
    ClaimedIsFresh(w, c, k, rs);
    assert SoundAt(w.derive, o);
    assert v.ops[..|v.ops| - 1] == w.ops;
    forall l | Proper(l) ensures Holds(BatchOf(v.ops), c, l) {
      assert Holds(BatchOf(w.ops), c, l);
      if OwnerId(l) == OwnerId(k) {
        OwnerIdInjective(l, k);
      }
    }
  }

  lemma RemoveIndexClean(w: World, v: World, c: Claim, owner: string)
    requires IndexClean(w, c) && v.ops == w.ops + [Remove(owner)]
    ensures IndexClean(v, c)
  {
    OwnersSnoc(w, Remove(owner));
    assert v.ops[..|v.ops| - 1] == w.ops;
    forall l | Proper(l) ensures Holds(BatchOf(v.ops), c, l) {
      assert Holds(BatchOf(w.ops), c, l);
    }
  }

  lemma RegisterClean(w: World, c: Claim, k: Key)
    requires Safe(w) && Clean(w, c) && Exclusive(c) && k in w.procs && w.procs[k].Ready?
    ensures Clean(MutateStep(w, k), c)
  {
    assert PcOk(w, k) && PcClean(w, c, k);
    UpdateIndexClean(w, MutateStep(w, k), c, k, w.procs[k].o);
    SameElsewhere(w, MutateStep(w, k), c, k);
  }

  lemma MutateClean(w: World, c: Claim, k: Key)
    requires Safe(w) && Clean(w, c) && Exclusive(c)
    ensures Clean(MutateStep(w, k), c)
  {
    if k in w.procs && w.procs[k].Ready? {
      RegisterClean(w, c, k);
    } else if k in w.procs && w.procs[k].Clearing? {
      assert PcClean(w, c, k);
      RemoveIndexClean(w, MutateStep(w, k), c, OwnerId(k));
      SameElsewhere(w, MutateStep(w, k), c, k);
    }
  }

  lemma StaticIndexClean(w: World, v: World, c: Claim, r: Record)
    requires Safe(w) && IndexClean(w, c) && StaticOk(c, r) && v.ops == w.ops + [SetStatic(r)]
    ensures IndexClean(v, c)
  {
    var b := BatchOf(w.ops);
    OwnersSnoc(w, SetStatic(r));
    assert v.ops[..|v.ops| - 1] == w.ops;
    forall o | o in b.latest ensures KeyOf(r) !in b.latest[o] {
      assert Guarded(w, o);
      var l :| Proper(l) && OwnerId(l) == o && Guards(w, l);
      assert Holds(b, c, l);
    }
    forall l | Proper(l) ensures Holds(BatchOf(v.ops), c, l) { assert Holds(b, c, l); }
  }

  lemma GlueClean(w: World, c: Claim, r: Record)
    requires Safe(w) && Clean(w, c) && StaticOk(c, r)
    ensures Clean(GlueStep(w, r), c)
  {
    var v := GlueStep(w, r);
    StaticIndexClean(w, v, c, r);
    forall l ensures PcClean(v, c, l) { assert PcClean(w, c, l); }
  }

  lemma {:induction false} SeedsClean(seeds: seq<Record>, c: Claim)
    requires forall i :: 0 <= i < |seeds| ==> StaticOk(c, seeds[i])
    ensures Disjoint(Statics(seeds))
    ensures var b := BatchOf(Statics(seeds));
            && b.latest == map[]
            && (forall x :: x in b.statics ==> b.statics[x].rtype != TYPE_NS && forall k :: !c(k, x))
  {
    if seeds != [] {
      var init := seeds[..|seeds| - 1];
      SeedsClean(init, c);
      assert Statics(seeds)[..|seeds| - 1] == Statics(init);
    }
  }

  lemma RestartClean(w: World, c: Claim, seeds: seq<Record>)
    requires Clean(w, c) && forall i :: 0 <= i < |seeds| ==> StaticOk(c, seeds[i])
    ensures Clean(RestartStep(w, seeds), c)
  {
    SeedsClean(seeds, c);
    forall l ensures PcClean(RestartStep(w, seeds), c, l) { }
  }

  // ---------------------------------------------------------------- every run

  lemma NextClean(w: World, c: Claim, a: Act)
    requires Safe(w) && Clean(w, c) && Exclusive(c) && ActOk(w.derive, c, a)
    ensures Clean(Next(w, a), c) && Next(w, a).derive == w.derive
  {
    if a.Create? || a.Modify? || a.Delete? {
      UserStepClean(w, c, a);
    } else if a.Glue? || a.Restart? || a.Mutate? {
      NextIndexClean(w, c, a);
    } else if a.Render? || a.WritePrimary? || a.WriteMirror? {
      NextPublishClean(w, c, a);
    } else {
      NextApiClean(w, c, a);
    }
  }

  lemma NextIndexClean(w: World, c: Claim, a: Act)
    requires Safe(w) && Clean(w, c) && Exclusive(c) && ActOk(w.derive, c, a)
    requires a.Glue? || a.Restart? || a.Mutate?
    ensures Clean(Next(w, a), c) && Next(w, a).derive == w.derive
  {
    match a {
      case Glue(r) => GlueClean(w, c, r);
      case Restart(seeds) => RestartClean(w, c, seeds);
      case Mutate(k) => MutateClean(w, c, k);
    }
  }

  lemma NextPublishClean(w: World, c: Claim, a: Act)
    requires Safe(w) && Clean(w, c) && Exclusive(c)
    requires a.Render? || a.WritePrimary? || a.WriteMirror?
    ensures Clean(Next(w, a), c) && Next(w, a).derive == w.derive
  {
    match a {
      case Render(k) => RenderClean(w, c, k);
      case WritePrimary(k, ok) => PrimaryClean(w, c, k, ok);
      case WriteMirror(k, ok) => MirrorClean(w, c, k, ok);
    }
  }

  lemma DeriveIsConstant(w: World, a: Act)
    ensures Next(w, a).derive == w.derive
  {
  }

  lemma NextApiClean(w: World, c: Claim, a: Act)
    requires Safe(w) && Clean(w, c)
    requires a.Fetch? || a.PutFinalizer? || a.Refetch? || a.DropFinalizer?
    ensures Clean(Next(w, a), c) && Next(w, a).derive == w.derive
  {
    DeriveIsConstant(w, a);
    match a {
      case Fetch(k) => FetchClean(w, c, k);
      case PutFinalizer(k, ok) => PutFinalizerClean(w, c, k, ok);
      case Refetch(k, ok) => RefetchClean(w, c, k, ok);
      case DropFinalizer(k, ok) => DropFinalizerClean(w, c, k, ok);
    }
  }

  lemma {:induction false} RunsAreClean(w: World, c: Claim, acts: seq<Act>)
    requires StartOk(w, c) && ActsOk(w.derive, c, acts)
    ensures Safe(Exec(w, acts)) && Clean(Exec(w, acts), c) && Exec(w, acts).derive == w.derive
  {
    RunsAreSafe(w, acts);
    if acts == [] {
      var seeds: seq<Record> :| w.ops == Statics(seeds) && forall i :: 0 <= i < |seeds| ==> StaticOk(c, seeds[i]);
      SeedsClean(seeds, c);
      forall l ensures PcClean(w, c, l) { }
    } else {
      var init := acts[..|acts| - 1];
      RunsAreClean(w, c, init);
      NextClean(Exec(w, init), c, acts[|acts| - 1]);
    }
  }

  /** In every run the index is the batch projection of its history. */
  lemma RunsProject(w: World, c: Claim, acts: seq<Act>)
    requires StartOk(w, c) && ActsOk(w.derive, c, acts)
    ensures var v := Exec(w, acts); Projects(CurrentZone(v), BatchOf(v.ops))
  {
    RunsAreClean(w, c, acts);
    ZoneIsProjection(Exec(w, acts).ops);
  }

  /** Every zone the primary has ever acknowledged carries, for each delegation in it, the address of the
      name server it delegates to. */
  lemma PublishedDelegationsHaveGlue(w: World, c: Claim, acts: seq<Act>, z: Records)
    requires StartOk(w, c) && ActsOk(w.derive, c, acts) && z in Exec(w, acts).acked
    ensures GlueClosed(z)
  {
    RunsAreClean(w, c, acts);
  }

  lemma GuardLostOnlyByDrop(w: World, a: Act, k: Key)
    requires Safe(w) && Guards(w, k) && !Guards(Next(w, a), k)
    ensures a == DropFinalizer(k, true) && k in w.procs && w.procs[k].Releasing?
  {
    if a.Create? || a.Modify? || a.Delete? {
      UserKeepsGuards(w, a, k);
    } else if a.PutFinalizer? {
      PutFinalizerKeepsGuards(w, a.k, a.ok, k);
    } else if !a.DropFinalizer? {
      StoreStays(w, a);
    }
  }

  lemma UserKeepsGuards(w: World, a: Act, k: Key)
    requires (a.Create? || a.Modify? || a.Delete?) && Guards(w, k)
    ensures Guards(UserStep(w, a), k)
  {
  }

  lemma PutFinalizerKeepsGuards(w: World, l: Key, ok: bool, k: Key)
    requires Guards(w, k)
    ensures Guards(PutFinalizerStep(w, l, ok), k)
  {
  }

  lemma StoreStays(w: World, a: Act)
    requires !a.Create? && !a.Modify? && !a.Delete? && !a.PutFinalizer? && !a.DropFinalizer?
    ensures Next(w, a).store == w.store
  {
  }
}
