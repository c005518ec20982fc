/** Rebuilding the index after a restart. In any interleaving of reconciles with failing calls, once every live object
    has been registered since the process last started, the zone is the static records plus the projection of the
    live objects: the order, the repeats and the failures do not show. */
module DsnsRebuild {
  import opened Text
  import opened Zone
  import opened DnsState
  import opened Derive
  import opened Dsns

  type Objects = map<Key, Resource>

  // ---------------------------------------------------------------- the zone of the live objects

  ghost predicate Live(store: Objects, k: Key) {
    k in store && !store[k].deleting
  }

  ghost predicate Offers(d: Projection, store: Objects, k: Key, x: string) {
    Live(store, k) && x in Contribution(d(store[k]))
  }

  /** Static records plus the records of all live objects, and nothing else. */
  ghost predicate IsLiveZone(m: Records, statics: Records, d: Projection, store: Objects) {
    && (forall x :: x in statics ==> x in m && m[x] == statics[x])
    && (forall k, x :: Offers(d, store, k, x) ==> x in m && m[x] == Contribution(d(store[k]))[x])
    && (forall x :: x in m ==> x in statics || exists k :: Offers(d, store, k, x))
  }

  lemma LiveZoneUnique(m: Records, n: Records, statics: Records, d: Projection, store: Objects)
    requires IsLiveZone(m, statics, d, store) && IsLiveZone(n, statics, d, store)
    ensures m == n
  {
    LiveZoneCovers(m, n, statics, d, store);
    LiveZoneCovers(n, m, statics, d, store);
  }

  lemma LiveZoneCovers(m: Records, n: Records, statics: Records, d: Projection, store: Objects)
    requires IsLiveZone(m, statics, d, store) && IsLiveZone(n, statics, d, store)
    ensures forall x :: x in m ==> x in n && n[x] == m[x]
  {
    forall x | x in m ensures x in n && n[x] == m[x] {
      if x !in statics {
        var k :| Offers(d, store, k, x);
      }
    }
  }

  lemma SoleOwner(k: Key)
    requires Proper(k)
    ensures forall l :: Proper(l) && OwnerId(l) == OwnerId(k) ==> l == k
  {
    forall l | Proper(l) && OwnerId(l) == OwnerId(k) ensures l == k {
      OwnerIdInjective(l, k);
    }
  }

  ghost predicate ProperStore(store: Objects) {
    forall k :: k in store ==> Proper(k)
  }

  /** The same objects are live, with the same content. */
  ghost predicate SameLive(before: Objects, after: Objects) {
    forall k :: (Live(before, k) <==> Live(after, k)) && (Live(before, k) ==> SameContent(before[k], after[k]))
  }

  /** What finalizers and versions do to the objects does not show in their zone. */
  lemma LiveZoneStays(m: Records, statics: Records, d: Projection, before: Objects, after: Objects)
    requires Sound(d) && SameLive(before, after) && IsLiveZone(m, statics, d, before)
    ensures IsLiveZone(m, statics, d, after)
  {
    forall k | Live(before, k) ensures d(after[k]) == d(before[k]) {
      assert SoundAt(d, before[k]);
    }
    assert forall k, x :: Offers(d, before, k, x) <==> Offers(d, after, k, x);
  }

  // ---------------------------------------------------------------- the batch view of a partial rebuild

  /** No slot is offered twice, or both offered and static. */
  ghost predicate Apart(statics: Records, d: Projection, store: Objects) {
    && (forall k, l, x :: Offers(d, store, k, x) && Offers(d, store, l, x) ==> k == l)
    && (forall k, x :: Offers(d, store, k, x) ==> x !in statics)
  }

  ghost predicate Behind(store: Objects, done: set<Key>, k: Key, o: string) {
    k in done && Live(store, k) && OwnerId(k) == o
  }

  ghost predicate Up(b: Batch, o: string, rs: seq<Record>) {
    if rs == [] then o !in b.latest else o in b.latest && b.latest[o] == Contribution(rs)
  }

  /** The batch view has the live objects among those registered, each with its records, and no other owner. */
  ghost predicate Rebuilt(b: Batch, d: Projection, store: Objects, done: set<Key>) {
    && (forall o :: o in b.latest ==> exists k :: Behind(store, done, k, o))
    && (forall k :: k in done && Live(store, k) ==> Up(b, OwnerId(k), d(store[k])))
  }

  lemma {:induction false} SeedStatics(seeds: seq<Record>)
    ensures BatchOf(Statics(seeds)) == Batch(AddAll(map[], seeds), map[])
    ensures Disjoint(Statics(seeds)) && TypedOps(Statics(seeds))
  {
    if seeds != [] {
      SeedStatics(seeds[..|seeds| - 1]);
      assert Statics(seeds)[..|seeds| - 1] == Statics(seeds[..|seeds| - 1]);
    }
  }

  lemma BatchSnoc(ops: seq<Op>, op: Op)
    ensures BatchOf(ops + [op]) == Note(BatchOf(ops), op)
    ensures Disjoint(ops + [op]) <==> Disjoint(ops) && Fresh(BatchOf(ops), op)
    ensures TypedOps(ops + [op]) <==> TypedOps(ops) && TypedOp(op)
  {
    assert (ops + [op])[..|ops|] == ops;
    assert forall i :: 0 <= i < |ops| ==> (ops + [op])[i] == ops[i];
    assert (ops + [op])[|ops|] == op;
  }

  /** A history that has got somewhere. */
  ghost predicate Progress(ops: seq<Op>, d: Projection, store: Objects, done: set<Key>) {
    && TypedOps(ops) && Disjoint(ops)
    && Apart(BatchOf(ops).statics, d, store)
    && Rebuilt(BatchOf(ops), d, store, done)
  }

  /** Nobody offers the slot of this static record. */
  ghost predicate Free(d: Projection, store: Objects, r: Record) {
    forall k :: !Offers(d, store, k, KeyOf(r))
  }

  ghost predicate AllFree(d: Projection, store: Objects, seeds: seq<Record>) {
    forall i :: 0 <= i < |seeds| ==> Free(d, store, seeds[i])
  }

  ghost predicate NoSharing(d: Projection, store: Objects) {
    forall k, l, x :: Offers(d, store, k, x) && Offers(d, store, l, x) ==> k == l
  }

  lemma {:induction false} SeedKeys(seeds: seq<Record>, x: string)
    requires x in AddAll(map[], seeds)
    ensures exists i :: 0 <= i < |seeds| && KeyOf(seeds[i]) == x
  {
    if seeds != [] {
      var n := |seeds| - 1;
      if x in AddAll(map[], seeds[..n]) {
        SeedKeys(seeds[..n], x);
        var i :| 0 <= i < n && KeyOf(seeds[..n][i]) == x;
        assert seeds[i] == seeds[..n][i];
      } else {
        assert KeyOf(seeds[n]) == x;
      }
    }
  }

  lemma SeedsProgress(seeds: seq<Record>, d: Projection, store: Objects)
    requires NoSharing(d, store) && AllFree(d, store, seeds)
    ensures Progress(Statics(seeds), d, store, {})
  {
    SeedStatics(seeds);
    var statics := BatchOf(Statics(seeds)).statics;
    forall k, x | Offers(d, store, k, x) ensures x !in statics {
      if x in statics {
        SeedKeys(seeds, x);
      }
    }
  }

  lemma GlueProgress(ops: seq<Op>, r: Record, d: Projection, store: Objects, done: set<Key>)
    requires Progress(ops, d, store, done) && Free(d, store, r)
    ensures Progress(ops + [SetStatic(r)], d, store, done)
  {
    BatchSnoc(ops, SetStatic(r));
    var b := BatchOf(ops);
    forall o | o in b.latest ensures KeyOf(r) !in b.latest[o] {
      var k :| Behind(store, done, k, o);
      assert Offers(d, store, k, KeyOf(r)) <==> KeyOf(r) in Contribution(d(store[k]));
    }
    assert forall k, x :: Offers(d, store, k, x) ==> x != KeyOf(r);
  }

  /** An object that is not live holds nothing, and removing nothing changes nothing. */
  lemma RemoveProgress(ops: seq<Op>, k: Key, d: Projection, store: Objects, done: set<Key>)
    requires Progress(ops, d, store, done) && !Live(store, k) && Proper(k) && ProperStore(store)
    ensures Progress(ops + [Remove(OwnerId(k))], d, store, done)
  {
    BatchSnoc(ops, Remove(OwnerId(k)));
    SoleOwner(k);
    var b := BatchOf(ops);
    forall o | o in b.latest ensures o != OwnerId(k) {
      var l :| Behind(store, done, l, o);
    }
    assert Note(b, Remove(OwnerId(k))) == b;
  }

  lemma UpdateIsFresh(b: Batch, k: Key, d: Projection, store: Objects, done: set<Key>)
    requires Rebuilt(b, d, store, done) && Apart(b.statics, d, store) && Live(store, k)
    ensures FreshSlots(b, OwnerId(k), Contribution(d(store[k])))
  {
    var c := Contribution(d(store[k]));
    forall x | x in c ensures Offers(d, store, k, x) { }
    forall o, x | o in b.latest && o != OwnerId(k) && x in b.latest[o] ensures x !in c {
      var l :| Behind(store, done, l, o);
      assert Offers(d, store, l, x);
    }
  }

  lemma UpdateHasOwners(b: Batch, k: Key, d: Projection, store: Objects, done: set<Key>)
    requires Rebuilt(b, d, store, done) && Live(store, k)
    ensures var n := Note(b, Update(OwnerId(k), d(store[k])));
            forall o :: o in n.latest ==> exists l :: Behind(store, done + {k}, l, o)
  {
    var n := Note(b, Update(OwnerId(k), d(store[k])));
    forall o | o in n.latest ensures exists l :: Behind(store, done + {k}, l, o) {
      if o == OwnerId(k) {
        assert Behind(store, done + {k}, k, o);
      } else {
        var l :| Behind(store, done, l, o);
        assert Behind(store, done + {k}, l, o);
      }
    }
  }

  lemma UpdateRebuilds(b: Batch, k: Key, d: Projection, store: Objects, done: set<Key>)
    requires Rebuilt(b, d, store, done) && Live(store, k) && Proper(k) && ProperStore(store)
    ensures Rebuilt(Note(b, Update(OwnerId(k), d(store[k]))), d, store, done + {k})
  {
    UpdateHasOwners(b, k, d, store, done);
    SoleOwner(k);
    var n := Note(b, Update(OwnerId(k), d(store[k])));
    assert Up(n, OwnerId(k), d(store[k]));
    forall l | l in done + {k} && Live(store, l) ensures Up(n, OwnerId(l), d(store[l])) {
      if l != k {
        assert Up(b, OwnerId(l), d(store[l])) && OwnerId(l) != OwnerId(k);
      }
    }
  }

  lemma UpdateProgress(ops: seq<Op>, k: Key, d: Projection, store: Objects, done: set<Key>)
    requires Progress(ops, d, store, done) && Sound(d) && Live(store, k) && Proper(k) && ProperStore(store)
    ensures Progress(ops + [Update(OwnerId(k), d(store[k]))], d, store, done + {k})
  {
    BatchSnoc(ops, Update(OwnerId(k), d(store[k])));
    assert SoundAt(d, store[k]);
    UpdateIsFresh(BatchOf(ops), k, d, store, done);
    UpdateRebuilds(BatchOf(ops), k, d, store, done);
  }

  /** When every live object is in, the zone is the live zone. */
  lemma ProgressCompletes(ops: seq<Op>, d: Projection, store: Objects, done: set<Key>)
    requires Progress(ops, d, store, done) && forall k :: Live(store, k) ==> k in done
    ensures IsLiveZone(Run(ops).records, BatchOf(ops).statics, d, store)
  {
    ZoneIsProjection(ops);
    var m, b := Run(ops).records, BatchOf(ops);
    forall k, x | Offers(d, store, k, x) ensures x in m && m[x] == Contribution(d(store[k]))[x] {
      assert Up(b, OwnerId(k), d(store[k]));
      assert Gives(b, OwnerId(k), x);
    }
    forall x | x in m ensures x in b.statics || exists k :: Offers(d, store, k, x) {
      if x !in b.statics {
        var o :| Gives(b, o, x);
        var k :| Behind(store, done, k, o);
        assert Up(b, OwnerId(k), d(store[k]));
        assert Offers(d, store, k, x);
      }
    }
  }

  // ---------------------------------------------------------------- the invariant of a rebuild

  /** The object a reconcile means to release once its zone is published. */
  function ReleaseOf(pc: Pc): Option<Resource> {
    match pc
    case Clearing(after) => Released(after)
    case Rendering(after) => Released(after)
    case Writing(_, after) => Released(after)
    case Mirroring(_, after) => Released(after)
    case Releasing(o, _) => Some(o)
    case _ => None
  }

  function Released(after: After): Option<Resource> {
    if after.Release? then Some(after.o) else None
  }

  /** A reconcile's copy says of its object what the objects said at the start. */
  ghost predicate Fits(store: Objects, k: Key, pc: Pc) {
    && Proper(k)
    && (pc.Adding? || pc.Ready? ==> Live(store, k) && SameContent(store[k], pc.o) && !pc.o.deleting)
    && (pc.Refetching? ==> Live(store, k))
    && (pc.Clearing? ==> !Live(store, k))
    && (ReleaseOf(pc).Some? ==> !Live(store, k) && ReleaseOf(pc).value.deleting)
  }

  ghost predicate AllFit(store: Objects, procs: map<Key, Pc>) {
    forall k :: k in procs ==> Fits(store, k, procs[k])
  }

  /** The objects are those of the start but for finalizers and versions, and every copy of one is true to it. */
  ghost predicate Steady(store: Objects, w: World) {
    SameLive(store, w.store) && AllFit(store, w.procs)
  }

  predicate ByUser(a: Act) {
    a.Create? || a.Modify? || a.Delete?
  }

  lemma SetPcSteady(store: Objects, w: World, k: Key, pc: Pc)
    requires Steady(store, w) && Fits(store, k, pc)
    ensures Steady(store, SetPc(w, k, pc))
  {
  }

  lemma EndSteady(store: Objects, w: World, k: Key)
    requires Steady(store, w)
    ensures Steady(store, End(w, k))
  {
  }

  lemma FetchSteady(store: Objects, w: World, k: Key)
    requires Steady(store, w)
    ensures Steady(store, FetchStep(w, k))
  {
    var v := FetchStep(w, k);
    if v != w {
      assert Live(store, k) <==> Live(w.store, k);
      SetPcSteady(store, w, k, FirstRead(w, k).value);
    }
  }

  lemma PutSteady(store: Objects, w: World, k: Key, o: Resource)
    requires Steady(store, w)
    requires if o.deleting then !Live(store, k) else Live(store, k) && SameContent(store[k], o)
    ensures Steady(store, Put(w, k, o))
  {
    var v := Put(w, k, o);
    forall l ensures (Live(store, l) <==> Live(v.store, l)) && (Live(store, l) ==> SameContent(store[l], v.store[l])) {
      assert l != k ==> (Live(v.store, l) <==> Live(w.store, l));
    }
  }

  lemma PutFinalizerSteady(store: Objects, w: World, k: Key, ok: bool)
    requires Steady(store, w)
    ensures Steady(store, PutFinalizerStep(w, k, ok))
  {
    if k in w.procs && w.procs[k].Adding? {
      var o := w.procs[k].o;
      assert Fits(store, k, w.procs[k]);
      if ok && Current(w, k, o) {
        PutSteady(store, w, k, WithFinalizer(o));
        SetPcSteady(store, Put(w, k, WithFinalizer(o)), k, Refetching);
      } else {
        EndSteady(store, w, k);
      }
    }
  }

  lemma RefetchSteady(store: Objects, w: World, k: Key, ok: bool)
    requires Steady(store, w)
    ensures Steady(store, RefetchStep(w, k, ok))
  {
    if k in w.procs && w.procs[k].Refetching? {
      assert Fits(store, k, w.procs[k]);
      if ok && k in w.store {
        assert Live(store, k) <==> Live(w.store, k);
        SetPcSteady(store, w, k, Ready(w.store[k]));
      } else {
        EndSteady(store, w, k);
      }
    }
  }

  lemma DropFinalizerSteady(store: Objects, w: World, k: Key, ok: bool)
    requires Steady(store, w)
    ensures Steady(store, DropFinalizerStep(w, k, ok))
  {
    if k in w.procs && w.procs[k].Releasing? {
      var o := w.procs[k].o;
      assert Fits(store, k, w.procs[k]);
      if ok && Current(w, k, o) {
        PutSteady(store, w, k, WithoutFinalizer(o));
        EndSteady(store, Put(w, k, WithoutFinalizer(o)), k);
      } else {
        EndSteady(store, w, k);
      }
    }
  }

  lemma RenderSteady(store: Objects, w: World, k: Key)
    requires Steady(store, w)
    ensures Steady(store, RenderStep(w, k))
  {
    if k in w.procs && w.procs[k].Rendering? {
      assert Fits(store, k, w.procs[k]);
      SetPcSteady(store, w, k, Writing(CurrentZone(w), w.procs[k].after));
    }
  }

  lemma PrimarySteady(store: Objects, w: World, k: Key, ok: bool)
    requires Steady(store, w)
    ensures Steady(store, PrimaryStep(w, k, ok))
  {
    if k in w.procs && w.procs[k].Writing? {
      assert Fits(store, k, w.procs[k]);
      EndSteady(store, w, k);
      SetPcSteady(store, w, k, Mirroring(w.procs[k].zone, w.procs[k].after));
    }
  }

  lemma MirrorSteady(store: Objects, w: World, k: Key, ok: bool)
    requires Steady(store, w)
    ensures Steady(store, MirrorStep(w, k, ok))
  {
    if k in w.procs && w.procs[k].Mirroring? {
      var after := w.procs[k].after;
      assert Fits(store, k, w.procs[k]);
      if after.Done? {
        EndSteady(store, w, k);
      } else {
        SetPcSteady(store, w, k, Releasing(after.o, w.procs[k].zone));
      }
    }
  }

  lemma MutateSteady(store: Objects, w: World, k: Key)
    requires Steady(store, w)
    ensures Steady(store, MutateStep(w, k))
  {
    if k in w.procs {
      assert Fits(store, k, w.procs[k]);
    }
  }

  lemma NextSteady(store: Objects, w: World, a: Act)
    requires Steady(store, w) && !ByUser(a)
    ensures Steady(store, Next(w, a))
  {
    match a
    case Fetch(k) => FetchSteady(store, w, k);
    case PutFinalizer(k, ok) => PutFinalizerSteady(store, w, k, ok);
    case Refetch(k, ok) => RefetchSteady(store, w, k, ok);
    case DropFinalizer(k, ok) => DropFinalizerSteady(store, w, k, ok);
    case Mutate(k) => MutateSteady(store, w, k);
    case Render(k) => RenderSteady(store, w, k);
    case WritePrimary(k, ok) => PrimarySteady(store, w, k, ok);
    case WriteMirror(k, ok) => MirrorSteady(store, w, k, ok);
    case Glue(r) =>
    case Restart(seeds) =>
  }

  // ---------------------------------------------------------------- every run

  /** The reconcile of k registers its object's records. */
  ghost predicate Registers(w: World, a: Act, k: Key) {
    a == Mutate(k) && k in w.procs && w.procs[k].Ready?
  }

  /** The objects registered since the process last started. */
  ghost function Covered(w: World, acts: seq<Act>): set<Key> {
    if acts == [] then {}
    else
      var init, a := acts[..|acts| - 1], acts[|acts| - 1];
      if a.Restart? then {}
      else if a.Mutate? && Registers(Exec(w, init), a, a.k) then Covered(w, init) + {a.k}
      else Covered(w, init)
  }

  ghost predicate Covers(w: World, acts: seq<Act>) {
    forall k :: Live(w.store, k) ==> k in Covered(w, acts)
  }

  /** Users leave the objects alone, and static records keep out of the slots the objects offer. */
  ghost predicate Calm(w: World, a: Act) {
    && !ByUser(a)
    && (a.Glue? ==> Free(w.derive, w.store, a.r))
    && (a.Restart? ==> AllFree(w.derive, w.store, a.seeds))
  }

  ghost predicate CalmRun(w: World, acts: seq<Act>) {
    forall i :: 0 <= i < |acts| ==> Calm(w, acts[i])
  }

  /** A fresh process over live objects that share no slot with each other or with the seeds. */
  ghost predicate FreshStart(w: World) {
    && Start(w) && NoSharing(w.derive, w.store)
    && exists seeds :: w.ops == Statics(seeds) && AllFree(w.derive, w.store, seeds)
  }

  lemma MutateProgress(store: Objects, w: World, k: Key, done: set<Key>)
    requires Sound(w.derive) && ProperStore(store) && Steady(store, w) && Progress(w.ops, w.derive, store, done)
    ensures Progress(MutateStep(w, k).ops, w.derive, store, if Registers(w, Mutate(k), k) then done + {k} else done)
  {
    if k in w.procs {
      var pc := w.procs[k];
      assert Fits(store, k, pc);
      if pc.Ready? {
        assert SoundAt(w.derive, store[k]);
        UpdateProgress(w.ops, k, w.derive, store, done);
      } else if pc.Clearing? {
        RemoveProgress(w.ops, k, w.derive, store, done);
      }
    }
  }

  lemma OpsStay(w: World, a: Act)
    requires !a.Glue? && !a.Restart? && !a.Mutate?
    ensures Next(w, a).ops == w.ops
  {
  }

  lemma DeriveStays(w: World, a: Act)
    ensures Next(w, a).derive == w.derive
  {
  }

  lemma NextProgress(w: World, v: World, a: Act, done: set<Key>)
    requires Sound(w.derive) && ProperStore(w.store) && NoSharing(w.derive, w.store) && Calm(w, a)
    requires v.derive == w.derive && Steady(w.store, v) && Progress(v.ops, w.derive, w.store, done)
    ensures Progress(Next(v, a).ops, w.derive, w.store,
                     if a.Restart? then {} else if a.Mutate? && Registers(v, a, a.k) then done + {a.k} else done)
  {
    match a
    case Glue(r) => GlueProgress(v.ops, r, w.derive, w.store, done);
    case Restart(seeds) => SeedsProgress(seeds, w.derive, w.store);
    case Mutate(k) => MutateProgress(w.store, v, k, done);
    case _ => OpsStay(v, a);
  }

  lemma {:induction false} RunsProgress(w: World, acts: seq<Act>)
    requires FreshStart(w) && CalmRun(w, acts)
    ensures var v := Exec(w, acts);
            v.derive == w.derive && Steady(w.store, v) && Progress(v.ops, w.derive, w.store, Covered(w, acts))
  {
    if acts == [] {
      var seeds :| w.ops == Statics(seeds) && AllFree(w.derive, w.store, seeds);
      SeedsProgress(seeds, w.derive, w.store);
    } else {
      var init, a := acts[..|acts| - 1], acts[|acts| - 1];
      assert forall i :: 0 <= i < |init| ==> init[i] == acts[i];
      RunsProgress(w, init);
      var v := Exec(w, init);
      assert Calm(w, a);
      NextSteady(w.store, v, a);
      DeriveStays(v, a);
      NextProgress(w, v, a, Covered(w, init));
    }
  }

  /** In every interleaving from a fresh process, with restarts, repeats and calls failing arbitrarily: once every
      live object has been registered since the last restart, the zone is the static records plus the projection of
      the live objects, as they were at the start and as they are now. */
  lemma RebuildIsComplete(w: World, acts: seq<Act>)
    requires FreshStart(w) && CalmRun(w, acts) && Covers(w, acts)
    ensures var v := Exec(w, acts);
            && SameLive(w.store, v.store)
            && IsLiveZone(CurrentZone(v), BatchOf(v.ops).statics, w.derive, w.store)
            && IsLiveZone(CurrentZone(v), BatchOf(v.ops).statics, w.derive, v.store)
  {
    RunsProgress(w, acts);
    var v := Exec(w, acts);
    ProgressCompletes(v.ops, w.derive, w.store, Covered(w, acts));
    LiveZoneStays(CurrentZone(v), BatchOf(v.ops).statics, w.derive, w.store, v.store);
  }

  // ---------------------------------------------------------------- confluence

  /** The load balancer's address does not change: every refresh sets the same record, and there is one if there is
      an address. No restart. */
  ghost predicate SteadyGlue(acts: seq<Act>, glue: Option<Record>) {
    && (forall i :: 0 <= i < |acts| ==> !acts[i].Restart? && (acts[i].Glue? ==> glue == Some(acts[i].r)))
    && (glue.Some? ==> Glue(glue.value) in acts)
  }

  /** The static part of every rebuilt zone. */
  function StaticPart(seeds: seq<Record>, glue: Option<Record>): Records {
    if glue.Some? then Added(AddAll(map[], seeds), glue.value) else AddAll(map[], seeds)
  }

  lemma StaticsNext(w: World, a: Act)
    requires !a.Restart?
    ensures BatchOf(Next(w, a).ops).statics
            == if a.Glue? then Added(BatchOf(w.ops).statics, a.r) else BatchOf(w.ops).statics
  {
    match a
    case Glue(r) => BatchSnoc(w.ops, SetStatic(r));
    case Mutate(k) => MutateStatics(w, k);
    case _ => OpsStay(w, a);
  }

  lemma MutateStatics(w: World, k: Key)
    ensures BatchOf(MutateStep(w, k).ops).statics == BatchOf(w.ops).statics
  {
    if k in w.procs && w.procs[k].Ready? {
      BatchSnoc(w.ops, Update(OwnerId(k), RecordsOf(w, w.procs[k].o)));
    } else {
      BatchSnoc(w.ops, Remove(OwnerId(k)));
    }
  }

  lemma {:induction false} StaticsOfRun(w: World, acts: seq<Act>, seeds: seq<Record>, glue: Option<Record>)
    requires w.ops == Statics(seeds)
    requires forall i :: 0 <= i < |acts| ==> !acts[i].Restart? && (acts[i].Glue? ==> glue == Some(acts[i].r))
    ensures BatchOf(Exec(w, acts).ops).statics
            == StaticPart(seeds, if glue.Some? && Glue(glue.value) in acts then glue else None)
  {
    if acts == [] {
      SeedStatics(seeds);
    } else {
      var init, a := acts[..|acts| - 1], acts[|acts| - 1];
      assert acts == init + [a];
      assert forall i :: 0 <= i < |init| ==> init[i] == acts[i];
      StaticsOfRun(w, init, seeds, glue);
      StaticsNext(Exec(w, init), a);
      assert glue.Some? ==> (Glue(glue.value) in acts <==> Glue(glue.value) in init || a == Glue(glue.value));
    }
  }

  /** Rebuilding is confluent: with objects and load balancer left alone, any two runs that have registered every live
      object, in whatever order, with whatever repeats and failures, have one zone, and one text per serial. */
  lemma RebuildIsConfluent(w: World, one: seq<Act>, two: seq<Act>, glue: Option<Record>, serial: nat)
    requires FreshStart(w) && CalmRun(w, one) && CalmRun(w, two) && Covers(w, one) && Covers(w, two)
    requires SteadyGlue(one, glue) && SteadyGlue(two, glue)
    ensures CurrentZone(Exec(w, one)) == CurrentZone(Exec(w, two))
    ensures Rendered(CurrentZone(Exec(w, one)), serial) == Rendered(CurrentZone(Exec(w, two)), serial)
  {
    var seeds :| w.ops == Statics(seeds) && AllFree(w.derive, w.store, seeds);
    RebuildIsComplete(w, one);
    RebuildIsComplete(w, two);
    StaticsOfRun(w, one, seeds, glue);
    StaticsOfRun(w, two, seeds, glue);
    LiveZoneUnique(CurrentZone(Exec(w, one)), CurrentZone(Exec(w, two)), StaticPart(seeds, glue), w.derive, w.store);
  }
}
