/** When the primary ConfigMap carries the current zone: in every settled state of a run exactly if each write that
    leaves nothing under way carries the current zone, hence whenever Applies do not overlap, and not in general when
    they do. */
module DsnsPublish {
  import opened Text
  import opened Zone
  import opened DnsState
  import opened Dsns

  ghost predicate IsWriting(w: World, k: Key) {
    k in w.procs && w.procs[k].Writing?
  }

  ghost predicate IsRendering(w: World, k: Key) {
    k in w.procs && w.procs[k].Rendering?
  }

  /** Applies do not overlap: nobody renders while someone else has rendered and not yet written. */
  ghost predicate SerialAct(w: World, a: Act) {
    a.Render? ==> forall l :: !IsWriting(w, l)
  }

  ghost predicate SerialApplies(w: World, acts: seq<Act>) {
    acts == [] || (SerialApplies(w, acts[..|acts| - 1]) && SerialAct(Exec(w, acts[..|acts| - 1]), acts[|acts| - 1]))
  }

  /** The zone is on its way to the primary, or already there. */
  ghost predicate UnderWay(w: World) {
    || w.owed
    || (exists k :: IsRendering(w, k))
    || (exists k :: IsWriting(w, k) && w.procs[k].zone == CurrentZone(w))
    || ((forall k :: !IsWriting(w, k)) && w.primary == Some(CurrentZone(w)))
  }

  ghost predicate Tracked(w: World) {
    && (forall k, l :: IsWriting(w, k) && IsWriting(w, l) ==> k == l)
    && UnderWay(w)
  }

  /** A step that touches neither index, primary nor any rendering or writing reconcile. */
  lemma QuietTracked(w: World, v: World)
    requires Tracked(w) && v.ops == w.ops && v.primary == w.primary && v.owed == w.owed
    requires forall k :: IsRendering(w, k) <==> IsRendering(v, k)
    requires forall k :: IsWriting(w, k) <==> IsWriting(v, k)
    requires forall k :: IsWriting(w, k) && IsWriting(v, k) ==> v.procs[k] == w.procs[k]
    ensures Tracked(v)
  {
    if k :| IsRendering(w, k) {
      assert IsRendering(v, k);
    } else if k :| IsWriting(w, k) && w.procs[k].zone == CurrentZone(w) {
      assert IsWriting(v, k);
    }
  }

  lemma MutateTracked(w: World, k: Key)
    requires Tracked(w)
    ensures Tracked(MutateStep(w, k))
  {
    var v := MutateStep(w, k);
    if v.ops == w.ops {
      assert v == w;
    } else {
      assert IsRendering(v, k);
      assert forall l :: IsWriting(v, l) ==> IsWriting(w, l);
    }
  }

  lemma RenderTracked(w: World, k: Key)
    requires Tracked(w) && forall l :: !IsWriting(w, l)
    ensures Tracked(RenderStep(w, k))
  {
    var v := RenderStep(w, k);
    if IsRendering(w, k) {
      assert IsWriting(v, k) && v.procs[k].zone == CurrentZone(v);
      forall l | l != k ensures !IsWriting(v, l) { assert !IsWriting(w, l); }
    }
  }

  lemma PrimaryTracked(w: World, k: Key, ok: bool)
    requires Tracked(w)
    ensures Tracked(PrimaryStep(w, k, ok))
  {
    var v := PrimaryStep(w, k, ok);
    if IsWriting(w, k) {
      assert forall l :: !IsWriting(v, l) by {
        forall l ensures !IsWriting(v, l) { assert l != k ==> !IsWriting(w, l); }
      }
      if !v.owed {
        if l :| IsRendering(w, l) {
          assert IsRendering(v, l);
        }
      }
    }
  }

  /** One reconcile moves between points other than rendering and writing. */
  lemma AsideTracked(w: World, v: World, k: Key)
    requires Tracked(w) && v.ops == w.ops && v.primary == w.primary && v.owed == w.owed && SameProcsBut(w, v, k)
    requires !IsRendering(w, k) && !IsRendering(v, k) && !IsWriting(w, k) && !IsWriting(v, k)
    ensures Tracked(v)
  {
    forall l ensures IsRendering(w, l) <==> IsRendering(v, l) { }
    forall l ensures (IsWriting(w, l) <==> IsWriting(v, l)) && (IsWriting(w, l) ==> v.procs[l] == w.procs[l]) { }
    QuietTracked(w, v);
  }

  lemma GlueTracked(w: World, r: Record)
    requires Tracked(w)
    ensures Tracked(GlueStep(w, r))
  {
    assert forall l :: IsWriting(GlueStep(w, r), l) <==> IsWriting(w, l);
  }

  lemma RestartTracked(w: World, seeds: seq<Record>)
    ensures Tracked(RestartStep(w, seeds))
  {
    assert forall l :: !IsWriting(RestartStep(w, seeds), l);
  }

  lemma PutFinalizerTracked(w: World, k: Key, ok: bool)
    requires Tracked(w)
    ensures Tracked(PutFinalizerStep(w, k, ok))
  {
    if k in w.procs && w.procs[k].Adding? { AsideTracked(w, PutFinalizerStep(w, k, ok), k); }
  }

  lemma RefetchTracked(w: World, k: Key, ok: bool)
    requires Tracked(w)
    ensures Tracked(RefetchStep(w, k, ok))
  {
    if k in w.procs && w.procs[k].Refetching? { AsideTracked(w, RefetchStep(w, k, ok), k); }
  }

  lemma MirrorTracked(w: World, k: Key, ok: bool)
    requires Tracked(w)
    ensures Tracked(MirrorStep(w, k, ok))
  {
    if k in w.procs && w.procs[k].Mirroring? { AsideTracked(w, MirrorStep(w, k, ok), k); }
  }

  lemma DropFinalizerTracked(w: World, k: Key, ok: bool)
    requires Tracked(w)
    ensures Tracked(DropFinalizerStep(w, k, ok))
  {
    if k in w.procs && w.procs[k].Releasing? { AsideTracked(w, DropFinalizerStep(w, k, ok), k); }
  }

  lemma NextTracked(w: World, a: Act)
    requires Tracked(w) && SerialAct(w, a)
    ensures Tracked(Next(w, a))
  {
    match a {
      case Mutate(k) => MutateTracked(w, k);
      case Render(k) => RenderTracked(w, k);
      case WritePrimary(k, ok) => PrimaryTracked(w, k, ok);
      case Glue(r) => GlueTracked(w, r);
      case Restart(seeds) => RestartTracked(w, seeds);
      case Fetch(k) => FetchTracked(w, k);
      case PutFinalizer(k, ok) => PutFinalizerTracked(w, k, ok);
      case Refetch(k, ok) => RefetchTracked(w, k, ok);
      case WriteMirror(k, ok) => MirrorTracked(w, k, ok);
      case DropFinalizer(k, ok) => DropFinalizerTracked(w, k, ok);
      case Create(_, _) => UserTracked(w, a);
      case Modify(_, _) => UserTracked(w, a);
      case Delete(_) => UserTracked(w, a);
    }
  }

  lemma FetchTracked(w: World, k: Key)
    requires Tracked(w)
    ensures Tracked(FetchStep(w, k))
  {
    if FetchStep(w, k) != w {
      AsideTracked(w, FetchStep(w, k), k);
    }
  }

  lemma UserTracked(w: World, a: Act)
    requires Tracked(w) && (a.Create? || a.Modify? || a.Delete?)
    ensures Tracked(UserStep(w, a))
  {
    var v := UserStep(w, a);
    assert forall l :: (IsRendering(w, l) <==> IsRendering(v, l)) && (IsWriting(w, l) <==> IsWriting(v, l));
    QuietTracked(w, v);
  }

  lemma {:induction false} SerialRunsAreTracked(w: World, acts: seq<Act>)
    requires Start(w) && SerialApplies(w, acts)
    ensures Tracked(Exec(w, acts))
  {
    if acts == [] {
      assert forall k :: !IsWriting(w, k);
    } else {
      SerialRunsAreTracked(w, acts[..|acts| - 1]);
      NextTracked(Exec(w, acts[..|acts| - 1]), acts[|acts| - 1]);
    }
  }

  // ---------------------------------------------------------------- settled states

  /** Nothing about to render or write, and no glue change, failed write or restart since the last render. */
  ghost predicate Settled(w: World) {
    !w.owed && forall k :: !IsRendering(w, k) && !IsWriting(w, k)
  }

  ghost predicate Upheld(w: World) {
    Settled(w) ==> w.primary == Some(CurrentZone(w))
  }

  /** Writing k leaves nothing under way. */
  ghost predicate IsLastWriter(w: World, k: Key) {
    IsWriting(w, k) && !w.owed && forall l :: !IsRendering(w, l) && (l != k ==> !IsWriting(w, l))
  }

  /** A successful write that leaves nothing under way carries the current zone. */
  ghost predicate LandsLast(w: World, a: Act) {
    a.WritePrimary? && a.ok && IsLastWriter(w, a.k) ==> w.procs[a.k].zone == CurrentZone(w)
  }

  ghost predicate LandingWrites(w: World, acts: seq<Act>) {
    acts == [] || (LandingWrites(w, acts[..|acts| - 1]) && LandsLast(Exec(w, acts[..|acts| - 1]), acts[|acts| - 1]))
  }

  /** Every settled state along the run has the current zone in the primary. */
  ghost predicate AlwaysUpheld(w: World, acts: seq<Act>) {
    Upheld(Exec(w, acts)) && (acts == [] || AlwaysUpheld(w, acts[..|acts| - 1]))
  }

  lemma PrimaryIff(w: World, k: Key, ok: bool)
    requires Upheld(w)
    ensures Upheld(PrimaryStep(w, k, ok)) <==> LandsLast(w, WritePrimary(k, ok))
  {
    var v := PrimaryStep(w, k, ok);
    if IsWriting(w, k) && ok {
      assert !IsWriting(v, k) && !IsRendering(v, k);
      assert forall l :: l != k ==> (IsWriting(v, l) <==> IsWriting(w, l));
      assert forall l :: l != k ==> (IsRendering(v, l) <==> IsRendering(w, l));
      assert Settled(v) <==> IsLastWriter(w, k);
    }
  }

  /** One reconcile moves away from a point other than rendering and writing. */
  lemma AsideUpheld(w: World, v: World, k: Key)
    requires Upheld(w) && v.ops == w.ops && v.primary == w.primary && v.owed == w.owed && SameProcsBut(w, v, k)
    requires !IsRendering(w, k) && !IsWriting(w, k)
    ensures Upheld(v)
  {
    if Settled(v) {
      forall l ensures !IsRendering(w, l) && !IsWriting(w, l) {
        assert !IsRendering(v, l) && !IsWriting(v, l);
      }
    }
  }

  lemma MutateUpheld(w: World, k: Key)
    requires Upheld(w)
    ensures Upheld(MutateStep(w, k))
  {
    var v := MutateStep(w, k);
    if v.ops == w.ops {
      assert v == w;
    } else {
      assert IsRendering(v, k);
    }
  }

  lemma RenderUpheld(w: World, k: Key)
    requires Upheld(w)
    ensures Upheld(RenderStep(w, k))
  {
    if IsRendering(w, k) {
      assert IsWriting(RenderStep(w, k), k);
    }
  }

  lemma FetchUpheld(w: World, k: Key)
    requires Upheld(w)
    ensures Upheld(FetchStep(w, k))
  {
    if FetchStep(w, k) != w {
      AsideUpheld(w, FetchStep(w, k), k);
    }
  }

  lemma FinalizersUpheld(w: World, k: Key, ok: bool)
    requires Upheld(w)
    ensures Upheld(PutFinalizerStep(w, k, ok)) && Upheld(DropFinalizerStep(w, k, ok))
  {
    if k in w.procs && w.procs[k].Adding? { AsideUpheld(w, PutFinalizerStep(w, k, ok), k); }
    if k in w.procs && w.procs[k].Releasing? { AsideUpheld(w, DropFinalizerStep(w, k, ok), k); }
  }

  lemma RefetchUpheld(w: World, k: Key, ok: bool)
    requires Upheld(w)
    ensures Upheld(RefetchStep(w, k, ok))
  {
    if k in w.procs && w.procs[k].Refetching? { AsideUpheld(w, RefetchStep(w, k, ok), k); }
  }

  lemma MirrorUpheld(w: World, k: Key, ok: bool)
    requires Upheld(w)
    ensures Upheld(MirrorStep(w, k, ok))
  {
    if k in w.procs && w.procs[k].Mirroring? { AsideUpheld(w, MirrorStep(w, k, ok), k); }
  }

  lemma UserUpheld(w: World, a: Act)
    requires Upheld(w) && (a.Create? || a.Modify? || a.Delete?)
    ensures Upheld(UserStep(w, a))
  {
    var v := UserStep(w, a);
    assert v.procs == w.procs && v.ops == w.ops && v.primary == w.primary && v.owed == w.owed;
    assert forall l :: (IsRendering(v, l) <==> IsRendering(w, l)) && (IsWriting(v, l) <==> IsWriting(w, l));
  }

  /** Writing the primary is the only step that can let a settled state down. */
  lemma OtherStepsUphold(w: World, a: Act)
    requires Upheld(w) && !a.WritePrimary?
    ensures Upheld(Next(w, a))
  {
    match a {
      case Mutate(k) => MutateUpheld(w, k);
      case Render(k) => RenderUpheld(w, k);
      case Fetch(k) => FetchUpheld(w, k);
      case PutFinalizer(k, ok) => FinalizersUpheld(w, k, ok);
      case DropFinalizer(k, ok) => FinalizersUpheld(w, k, ok);
      case Refetch(k, ok) => RefetchUpheld(w, k, ok);
      case WriteMirror(k, ok) => MirrorUpheld(w, k, ok);
      case Glue(r) => assert !Settled(GlueStep(w, r));
      case Restart(seeds) => assert !Settled(RestartStep(w, seeds));
      case Create(_, _) => UserUpheld(w, a);
      case Modify(_, _) => UserUpheld(w, a);
      case Delete(_) => UserUpheld(w, a);
    }
  }

  lemma UpheldIff(w: World, a: Act)
    requires Upheld(w)
    ensures Upheld(Next(w, a)) <==> LandsLast(w, a)
  {
    if a.WritePrimary? {
      PrimaryIff(w, a.k, a.ok);
    } else {
      OtherStepsUphold(w, a);
    }
  }

  /** Exactly when the primary can be trusted: every settled state along a run carries the current zone if and only if
      every write that leaves nothing under way carries it. */
  lemma {:induction false} PrimaryIsCurrentIff(w: World, acts: seq<Act>)
    requires Start(w)
    ensures AlwaysUpheld(w, acts) <==> LandingWrites(w, acts)
  {
    if acts != [] {
      var init := acts[..|acts| - 1];
      PrimaryIsCurrentIff(w, init);
      if LandingWrites(w, init) {
        UpheldIff(Exec(w, init), acts[|acts| - 1]);
      }
    }
  }

  /** Once such a run has settled, whatever overlapped on the way, the primary carries the current zone. */
  lemma SettledPrimaryIsCurrent(w: World, acts: seq<Act>)
    requires Start(w) && LandingWrites(w, acts) && Settled(Exec(w, acts))
    ensures Exec(w, acts).primary == Some(CurrentZone(Exec(w, acts)))
  {
    PrimaryIsCurrentIff(w, acts);
  }

  lemma TrackedLands(w: World, a: Act)
    requires Tracked(w)
    ensures LandsLast(w, a)
  {
  }

  /** Applies that do not overlap land. */
  lemma {:induction false} SerialAppliesLand(w: World, acts: seq<Act>)
    requires Start(w) && SerialApplies(w, acts)
    ensures LandingWrites(w, acts)
  {
    if acts != [] {
      var init := acts[..|acts| - 1];
      SerialAppliesLand(w, init);
      SerialRunsAreTracked(w, init);
      TrackedLands(Exec(w, init), acts[|acts| - 1]);
    }
  }

  // ---------------------------------------------------------------- overlapping Applies

  /** Two reconciles, both successful in every call; the later rendering is written first. */
  function OverlappingRun(k: Key, l: Key, glue: Record): seq<Act> {
    [Fetch(k), Mutate(k), Render(k)] + [Glue(glue)] + [Fetch(l), Mutate(l), Render(l)]
    + [WritePrimary(l, true), WriteMirror(l, true)] + [WritePrimary(k, true), WriteMirror(k, true)]
  }

  lemma {:induction false} ExecConcat(w: World, a: seq<Act>, b: seq<Act>)
    ensures Exec(w, a + b) == Exec(Exec(w, a), b)
  {
    if b == [] {
      assert a + b == a;
    } else {
      ExecConcat(w, a, b[..|b| - 1]);
      assert (a + b)[..|a + b| - 1] == a + b[..|b| - 1];
    }
  }

  lemma ExecOne(w: World, a: Act)
    ensures Exec(w, [a]) == Next(w, a)
  {
    assert [a][..0] == [];
  }

  lemma ExecTwo(w: World, a: Act, b: Act)
    ensures Exec(w, [a, b]) == Next(Next(w, a), b)
  {
    ExecOne(w, a);
    assert [a, b][..1] == [a];
  }

  lemma ExecThree(w: World, a: Act, b: Act, c: Act)
    ensures Exec(w, [a, b, c]) == Next(Next(Next(w, a), b), c)
  {
    ExecTwo(w, a, b);
    assert [a, b, c][..2] == [a, b];
  }

  lemma ExecFour(w: World, a: Act, b: Act, c: Act, d: Act)
    ensures Exec(w, [a, b, c, d]) == Next(Next(Next(Next(w, a), b), c), d)
  {
    ExecThree(w, a, b, c);
    assert [a, b, c, d][..3] == [a, b, c];
  }

  lemma RunSnoc(ops: seq<Op>, op: Op)
    ensures Run(ops + [op]) == Apply(Run(ops), op)
  {
    assert (ops + [op])[..|ops|] == ops;
  }

  lemma IdleRemoval(ops: seq<Op>, owner: string)
    requires owner !in Run(ops).owned
    ensures Run(ops + [Remove(owner)]) == Run(ops)
  {
    RunSnoc(ops, Remove(owner));
    assert Run(ops).owned - {owner} == Run(ops).owned;
  }

  ghost predicate UpToWrite(w: World, v: World, k: Key) {
    && v.procs == w.procs[k := Writing(CurrentZone(w), Done)] && v.store == w.store
    && Run(v.ops) == Run(w.ops) && !v.owed
  }

  lemma IdleFetch(w: World, k: Key)
    requires Proper(k) && k !in w.store && k !in w.procs
    ensures FetchStep(w, k) == SetPc(w, k, Clearing(Done))
  {
  }

  lemma ClearAndRender(w: World, k: Key)
    requires k in w.procs && w.procs[k] == Clearing(Done)
    ensures var v := RenderStep(MutateStep(w, k), k);
            && v.ops == w.ops + [Remove(OwnerId(k))] && v.store == w.store && !v.owed
            && v.procs == w.procs[k := Writing(Run(v.ops).records, Done)]
  {
    var w2 := SetPc(w.(ops := w.ops + [Remove(OwnerId(k))]), k, Rendering(Done));
    assert MutateStep(w, k) == w2;
    assert w2.procs[k] == Rendering(Done);
  }

  lemma IdleSteps(w: World, k: Key)
    requires Proper(k) && k !in w.store && k !in w.procs && OwnerId(k) !in Run(w.ops).owned
    ensures UpToWrite(w, RenderStep(MutateStep(FetchStep(w, k), k), k), k)
  {
    IdleFetch(w, k);
    var u := SetPc(w, k, Clearing(Done));
    ClearAndRender(u, k);
    IdleWrite(w, RenderStep(MutateStep(u, k), k), k);
  }

  lemma IdleWrite(w: World, v: World, k: Key)
    requires OwnerId(k) !in Run(w.ops).owned
    requires v.ops == w.ops + [Remove(OwnerId(k))] && v.store == w.store && !v.owed
    requires v.procs == w.procs[k := Clearing(Done)][k := Writing(Run(v.ops).records, Done)]
    ensures UpToWrite(w, v, k)
  {
    IdleRemoval(w.ops, OwnerId(k));
    assert w.procs[k := Clearing(Done)][k := Writing(CurrentZone(w), Done)]
           == w.procs[k := Writing(CurrentZone(w), Done)];
  }

  /** The reconcile of an object that is not there, and whose owner holds nothing, up to its write. */
  lemma IdleReconcile(w: World, k: Key)
    requires Proper(k) && k !in w.store && k !in w.procs && OwnerId(k) !in Run(w.ops).owned
    ensures UpToWrite(w, Exec(w, [Fetch(k), Mutate(k), Render(k)]), k)
  {
    ExecIdle(w, k, Exec(w, [Fetch(k), Mutate(k), Render(k)]));
    IdleSteps(w, k);
  }

  lemma ExecIdle(w: World, k: Key, v: World)
    requires v == Exec(w, [Fetch(k), Mutate(k), Render(k)])
    ensures v == RenderStep(MutateStep(FetchStep(w, k), k), k)
  {
    ExecThree(w, Fetch(k), Mutate(k), Render(k));
  }

  lemma WriteOut(w: World, k: Key)
    requires IsWriting(w, k) && w.procs[k].after.Done?
    ensures var v := Exec(w, [WritePrimary(k, true), WriteMirror(k, true)]);
            && v.procs == w.procs - {k} && v.primary == Some(w.procs[k].zone) && v.ops == w.ops && v.owed == w.owed
  {
    ExecTwo(w, WritePrimary(k, true), WriteMirror(k, true));
  }

  lemma GlueOnly(w: World, glue: Record)
    requires Run(w.ops) == EMPTY
    ensures var v := Exec(w, [Glue(glue)]);
            && v.procs == w.procs && v.store == w.store
            && Run(v.ops).owned == map[] && CurrentZone(v) == map[KeyOf(glue) := Defaulted(glue)]
  {
    ExecOne(w, Glue(glue));
    RunSnoc(w.ops, SetStatic(glue));
  }

  /** Without the non-overlap condition the primary can settle on a stale zone although nothing failed. */
  lemma OverlapCanPublishStale(w: World, k: Key, l: Key, glue: Record)
    requires Start(w) && w.store == map[] && w.ops == [] && Proper(k) && Proper(l) && k != l
    ensures var v := Exec(w, OverlappingRun(k, l, glue));
            && Settled(v) && v.procs == map[]
            && v.primary == Some(map[]) && CurrentZone(v) == map[KeyOf(glue) := Defaulted(glue)]
  {
    var a1, a2, a3 := [Fetch(k), Mutate(k), Render(k)], [Glue(glue)], [Fetch(l), Mutate(l), Render(l)];
    var a4, a5 := [WritePrimary(l, true), WriteMirror(l, true)], [WritePrimary(k, true), WriteMirror(k, true)];
    ExecConcat(w, a1 + a2 + a3 + a4, a5);
    ExecConcat(w, a1 + a2 + a3, a4);
    ExecConcat(w, a1 + a2, a3);
    ExecConcat(w, a1, a2);
    var w1 := Exec(w, a1);
    IdleReconcile(w, k);
    var w2 := Exec(w1, a2);
    GlueOnly(w1, glue);
    var w3 := Exec(w2, a3);
    IdleReconcile(w2, l);
    var w4 := Exec(w3, a4);
    WriteOut(w3, l);
    WriteOut(w4, k);
    assert w.procs[k := Writing(map[], Done)][l := Writing(CurrentZone(w2), Done)] - {l} - {k} == map[];
  }
}
