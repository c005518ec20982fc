/** The DSNS reconcilers as a step system: reconciles of different objects interleave at every API call and
    every lock, users create, change and delete objects at any point, and any call may fail. */
module Dsns {
  import opened Text
  import opened Zone
  import opened DnsState
  import opened Derive

  // ---------------------------------------------------------------- objects and owners

  datatype Key = Key(kind: string, namespace: string, name: string)

  function OwnerId(k: Key): string {
    k.kind + "/" + k.namespace + "/" + k.name
  }

  /** Kinds and namespaces contain no slash. */
  predicate Proper(k: Key) {
    '/' !in k.kind && '/' !in k.namespace
  }

  lemma OwnerIdInjective(k: Key, l: Key)
    requires Proper(k) && Proper(l) && OwnerId(k) == OwnerId(l)
    ensures k == l
  {
    var x, y := k.namespace + "/" + k.name, l.namespace + "/" + l.name;
    assert OwnerId(k) == k.kind + "/" + x && OwnerId(l) == l.kind + "/" + y;
    SplitFirst(k.kind, l.kind, x, y, '/');
    SplitFirst(k.namespace, l.namespace, k.name, l.name, '/');
  }

  const FINALIZER := "dsns.infrastructure.ontai.dev/cleanup"

  predicate HasFinalizer(o: Resource) {
    FINALIZER in o.finalizers
  }

  function WithFinalizer(o: Resource): Resource {
    o.(finalizers := o.finalizers + [FINALIZER])
  }

  function Filtered(fs: seq<string>): (r: seq<string>)
    ensures forall f :: f in r <==> f in fs && f != FINALIZER
  {
    if fs == [] then []
    else
      var n := |fs| - 1;
      assert fs == fs[..n] + [fs[n]];
      Filtered(fs[..n]) + (if fs[n] == FINALIZER then [] else [fs[n]])
  }

  ghost predicate ExactlyOthers(at: seq<nat>, fs: seq<string>) {
    forall i :: 0 <= i < |fs| ==> (i in at <==> fs[i] != FINALIZER)
  }

  lemma OthersSnoc(at: seq<nat>, fs: seq<string>, f: string)
    requires ExactlyOthers(at, fs) && Increasing(at, |fs|)
    ensures f == FINALIZER ==> ExactlyOthers(at, fs + [f])
    ensures f != FINALIZER ==> ExactlyOthers(at + [|fs|], fs + [f])
  {
    assert |fs| !in at;
  }

  /** The other finalizers stay, each as often as before and in their order. */
  lemma {:induction false} FilteredKeepsOthers(fs: seq<string>) returns (at: seq<nat>)
    ensures Picks(Filtered(fs), fs, at) && ExactlyOthers(at, fs)
  {
    if fs == [] {
      at := [];
    } else {
      var init, f := fs[..|fs| - 1], fs[|fs| - 1];
      assert fs == init + [f];
      var before := FilteredKeepsOthers(init);
      OthersSnoc(before, init, f);
      FilteredSnoc(init, f, before);
      at := if f == FINALIZER then before else before + [|init|];
    }
  }

  lemma FilteredOne(init: seq<string>, f: string)
    ensures f == FINALIZER ==> Filtered(init + [f]) == Filtered(init)
    ensures f != FINALIZER ==> Filtered(init + [f]) == Filtered(init) + [f]
  {
    assert (init + [f])[..|init|] == init;
  }

  lemma {:induction false} FilteredTwice(fs: seq<string>)
    ensures Filtered(Filtered(fs)) == Filtered(fs)
  {
    if fs != [] {
      var init, f := fs[..|fs| - 1], fs[|fs| - 1];
      assert fs == init + [f];
      FilteredTwice(init);
      FilteredOne(init, f);
      FilteredOne(Filtered(init), f);
    }
  }

  lemma FilteredSnoc(init: seq<string>, f: string, at: seq<nat>)
    requires Picks(Filtered(init), init, at)
    ensures f == FINALIZER ==> Picks(Filtered(init + [f]), init + [f], at)
    ensures f != FINALIZER ==> Picks(Filtered(init + [f]), init + [f], at + [|init|])
  {
    FilteredOne(init, f);
    PicksSnoc(Filtered(init), init, at, f);
  }

  function WithoutFinalizer(o: Resource): Resource {
    o.(finalizers := Filtered(o.finalizers))
  }

  // ---------------------------------------------------------------- the world

  /** What a successful Apply is followed by: nothing, or releasing the finalizer on this copy of the object. */
  datatype After = Done | Release(o: Resource)

  /** Where a reconcile in flight stands; copies of objects and of the zone may have gone stale. */
  datatype Pc =
    | Adding(o: Resource)                     // about to add the finalizer to the copy it read
    | Refetching                              // finalizer added, about to read again
    | Ready(o: Resource)                      // about to register the records of this copy
    | Clearing(after: After)                  // about to remove the owner's records
    | Rendering(after: After)                 // index changed, about to render under the lock
    | Writing(zone: Records, after: After)    // rendered, about to write the primary
    | Mirroring(zone: Records, after: After)  // primary acknowledged, about to try the mirror
    | Releasing(o: Resource, zone: Records)   // published, about to drop the finalizer

  datatype World = World(
    derive: Projection,           // constant
    store: map<Key, Resource>,
    version: nat,                 // last resourceVersion handed out
    ops: seq<Op>,                 // the history of the in-memory index since the process started
    primary: Option<Records>,
    mirror: Option<Records>,
    acked: seq<Records>,          // zones the primary has acknowledged
    procs: map<Key, Pc>,          // at most one reconcile per object
    owed: bool)                   // a glue change, a failed write or a restart has not been followed by a render

  function CurrentZone(w: World): Records {
    Run(w.ops).records
  }

  function RecordsOf(w: World, o: Resource): seq<Record> {
    w.derive(o)
  }

  datatype Act =
    | Create(k: Key, o: Resource)
    | Modify(k: Key, o: Resource)
    | Delete(k: Key)
    | Glue(r: Record)                         // refreshNSGlue
    | Restart(seeds: seq<Record>)
    | Fetch(k: Key)
    | PutFinalizer(k: Key, ok: bool)
    | Refetch(k: Key, ok: bool)
    | Mutate(k: Key)
    | Render(k: Key)
    | WritePrimary(k: Key, ok: bool)
    | WriteMirror(k: Key, ok: bool)
    | DropFinalizer(k: Key, ok: bool)

  function SetPc(w: World, k: Key, pc: Pc): World { w.(procs := w.procs[k := pc]) }

  function End(w: World, k: Key): World { w.(procs := w.procs - {k}) }

  function Named(k: Key, o: Resource): Resource {
    o.(kind := k.kind, namespace := k.namespace, name := k.name)
  }

  /** Stores an object under a fresh version, or lets it go if it is deleting and nothing holds it. */
  function Put(w: World, k: Key, o: Resource): World {
    if o.deleting && o.finalizers == [] then w.(store := w.store - {k}, version := w.version + 1)
    else w.(store := w.store[k := o.(version := w.version + 1)], version := w.version + 1)
  }

  /** The object a user's request asks for: deletion only marks it, other changes keep the mark. */
  function UserObject(w: World, a: Act): Resource
    requires a.Create? || a.Modify? || a.Delete?
    requires !a.Create? ==> a.k in w.store
  {
    match a
    case Create(k, o) => Named(k, o).(deleting := false)
    case Modify(k, o) => Named(k, o).(deleting := w.store[k].deleting)
    case Delete(k) => w.store[k].(deleting := true)
  }

  /** Users never take the DSNS finalizer away. */
  function UserStep(w: World, a: Act): World
    requires a.Create? || a.Modify? || a.Delete?
  {
    var refused := if a.Create? then a.k in w.store || !Proper(a.k)
                   else a.k !in w.store || (a.Modify? && HasFinalizer(w.store[a.k]) && !HasFinalizer(a.o));
    if refused then w else Put(w, a.k, UserObject(w, a))
  }

  function Statics(seeds: seq<Record>): seq<Op> {
    seq(|seeds|, i requires 0 <= i < |seeds| => SetStatic(seeds[i]))
  }

  /** The first read decides what the reconcile will do, if anything. */
  function FirstRead(w: World, k: Key): Option<Pc> {
    if k !in w.store then Some(Clearing(Done))
    else
      var o := w.store[k];
      if o.deleting then if HasFinalizer(o) then Some(Clearing(Release(o))) else None
      else Some(if HasFinalizer(o) then Ready(o) else Adding(o))
  }

  function FetchStep(w: World, k: Key): World {
    if k in w.procs || !Proper(k) || FirstRead(w, k).None? then w else SetPc(w, k, FirstRead(w, k).value)
  }

  /** Client.Update succeeds only on the version that was read. */
  predicate Current(w: World, k: Key, o: Resource) {
    k in w.store && w.store[k].version == o.version
  }

  function PutFinalizerStep(w: World, k: Key, ok: bool): World {
    if k !in w.procs || !w.procs[k].Adding? then w
    else
      var o := w.procs[k].o;
      if ok && Current(w, k, o) then SetPc(Put(w, k, WithFinalizer(o)), k, Refetching) else End(w, k)
  }

  function RefetchStep(w: World, k: Key, ok: bool): World {
    if k !in w.procs || !w.procs[k].Refetching? then w
    else if ok && k in w.store then SetPc(w, k, Ready(w.store[k])) else End(w, k)
  }

  function DropFinalizerStep(w: World, k: Key, ok: bool): World {
    if k !in w.procs || !w.procs[k].Releasing? then w
    else
      var o := w.procs[k].o;
      if ok && Current(w, k, o) then End(Put(w, k, WithoutFinalizer(o)), k) else End(w, k)
  }

  function GlueStep(w: World, r: Record): World {
    w.(ops := w.ops + [SetStatic(r)], owed := true)
  }

  function RestartStep(w: World, seeds: seq<Record>): World {
    w.(ops := Statics(seeds), procs := map[], owed := true)
  }

  function MutateStep(w: World, k: Key): World {
    if k !in w.procs then w
    else
      var pc := w.procs[k];
      if pc.Ready? then SetPc(w.(ops := w.ops + [Update(OwnerId(k), RecordsOf(w, pc.o))]), k, Rendering(Done))
      else if pc.Clearing? then SetPc(w.(ops := w.ops + [Remove(OwnerId(k))]), k, Rendering(pc.after))
      else w
  }

  function RenderStep(w: World, k: Key): World {
    if k !in w.procs || !w.procs[k].Rendering? then w
    else SetPc(w.(owed := false), k, Writing(CurrentZone(w), w.procs[k].after))
  }

  function PrimaryStep(w: World, k: Key, ok: bool): World {
    if k !in w.procs || !w.procs[k].Writing? then w
    else
      var z, after := w.procs[k].zone, w.procs[k].after;
      if ok then SetPc(w.(primary := Some(z), acked := w.acked + [z]), k, Mirroring(z, after))
      else End(w.(owed := true), k)
  }

  function MirrorStep(w: World, k: Key, ok: bool): World {
    if k !in w.procs || !w.procs[k].Mirroring? then w
    else
      var z, after := w.procs[k].zone, w.procs[k].after;
      var v := if ok then w.(mirror := Some(z)) else w;
      if after.Done? then End(v, k) else SetPc(v, k, Releasing(after.o, z))
  }

  function Next(w: World, a: Act): World {
    match a
    case Create(_, _) => UserStep(w, a)
    case Modify(_, _) => UserStep(w, a)
    case Delete(_) => UserStep(w, a)
    case Glue(r) => GlueStep(w, r)
    case Restart(seeds) => RestartStep(w, seeds)
    case Fetch(k) => FetchStep(w, k)
    case PutFinalizer(k, ok) => PutFinalizerStep(w, k, ok)
    case Refetch(k, ok) => RefetchStep(w, k, ok)
    case Mutate(k) => MutateStep(w, k)
    case Render(k) => RenderStep(w, k)
    case WritePrimary(k, ok) => PrimaryStep(w, k, ok)
    case WriteMirror(k, ok) => MirrorStep(w, k, ok)
    case DropFinalizer(k, ok) => DropFinalizerStep(w, k, ok)
  }

  function Exec(w: World, acts: seq<Act>): World {
    if acts == [] then w else Next(Exec(w, acts[..|acts| - 1]), acts[|acts| - 1])
  }

  /** A fresh process over an arbitrary cluster: nothing in flight, nothing on the index but its seeds. */
  ghost predicate Start(w: World) {
    && Sound(w.derive)
    && w.procs == map[] && w.owed && w.acked == [] && w.mirror == None
    && (exists seeds :: w.ops == Statics(seeds))
    && (forall k :: k in w.store ==> Proper(k))
  }

  // ---------------------------------------------------------------- finalizers guard records

  /** The object behind an owner is there and cannot vanish without DSNS. */
  ghost predicate Guards(w: World, k: Key) {
    k in w.store && HasFinalizer(w.store[k])
  }

  ghost predicate Guarded(w: World, owner: string) {
    exists k :: Proper(k) && OwnerId(k) == owner && Guards(w, k)
  }

  ghost function Owners(w: World): set<string> {
    BatchOf(w.ops).latest.Keys
  }

  ghost predicate Relies(pc: Pc) {
    pc.Refetching? || pc.Ready? || pc.Releasing?
    || ((pc.Clearing? || pc.Rendering? || pc.Writing? || pc.Mirroring?) && pc.after.Release?)
  }

  /** The owner's records have been removed and nothing may register them again until this reconcile ends. */
  ghost predicate Cleared(pc: Pc) {
    pc.Releasing? || ((pc.Rendering? || pc.Writing? || pc.Mirroring?) && pc.after.Release?)
  }

  ghost predicate Published(pc: Pc) {
    pc.Mirroring? || pc.Releasing?
  }

  ghost predicate PcOk(w: World, k: Key) {
    k in w.procs ==>
      var pc := w.procs[k];
      && Proper(k)
      && (Relies(pc) ==> Guards(w, k))
      && (Cleared(pc) ==> OwnerId(k) !in Owners(w))
      && (Published(pc) ==> pc.zone in w.acked)
  }

  ghost predicate Safe(w: World) {
    && Sound(w.derive)
    && TypedOps(w.ops)
    && (forall k :: k in w.store ==> Proper(k))
    && (forall o :: o in Owners(w) ==> Guarded(w, o))
    && (forall k :: PcOk(w, k))
    && (w.mirror.Some? ==> w.mirror.value in w.acked)
  }

  lemma OwnersSnoc(w: World, op: Op)
    ensures BatchOf(w.ops + [op]) == Note(BatchOf(w.ops), op)
  {
    assert (w.ops + [op])[..|w.ops|] == w.ops;
  }

  lemma {:induction false} StaticsOwnNothing(seeds: seq<Record>)
    ensures BatchOf(Statics(seeds)).latest == map[] && TypedOps(Statics(seeds))
  {
    if seeds != [] {
      StaticsOwnNothing(seeds[..|seeds| - 1]);
      assert Statics(seeds)[..|seeds| - 1] == Statics(seeds[..|seeds| - 1]);
    }
  }

  lemma GuardedMonotone(w: World, v: World)
    requires forall l :: Guards(w, l) ==> Guards(v, l)
    ensures forall x :: Guarded(w, x) ==> Guarded(v, x)
  {
    forall x | Guarded(w, x) ensures Guarded(v, x) {
      var l :| Proper(l) && OwnerId(l) == x && Guards(w, l);
      assert Guards(v, l);
    }
  }

  ghost predicate SameProcsBut(w: World, v: World, k: Key) {
    forall l :: l != k ==> (l in v.procs <==> l in w.procs) && (l in w.procs ==> v.procs[l] == w.procs[l])
  }

  /** A step that keeps the index and every guard, and moves one reconcile. */
  lemma MoveSafe(w: World, v: World, k: Key)
    requires Safe(w) && SameProcsBut(w, v, k) && PcOk(v, k) && v.ops == w.ops && v.derive == w.derive
    requires forall l :: Guards(w, l) ==> Guards(v, l)
    requires forall l :: l in v.store ==> Proper(l)
    requires forall z :: z in w.acked ==> z in v.acked
    requires v.mirror.Some? ==> v.mirror.value in v.acked
    ensures Safe(v)
  {
    GuardedMonotone(w, v);
    forall l ensures PcOk(v, l) { assert PcOk(w, l); }
  }

  /** Writing an object that keeps the finalizer, or one that had none, leaves every guard in place. */
  lemma PutKeepsGuards(w: World, k: Key, o: Resource)
    requires Guards(w, k) ==> HasFinalizer(o)
    ensures forall l :: Guards(w, l) ==> Guards(Put(w, k, o), l)
  {
  }

  lemma UserStepSafe(w: World, a: Act)
    requires Safe(w) && (a.Create? || a.Modify? || a.Delete?)
    ensures Safe(UserStep(w, a))
  {
    var v := UserStep(w, a);
    if v != w {
      PutKeepsGuards(w, a.k, UserObject(w, a));
      assert PcOk(w, a.k);
      MoveSafe(w, v, a.k);
    }
  }

  lemma FetchStepSafe(w: World, k: Key)
    requires Safe(w)
    ensures Safe(FetchStep(w, k))
  {
    var v := FetchStep(w, k);
    if v != w {
      assert PcOk(v, k);
      MoveSafe(w, v, k);
    }
  }

  lemma PutFinalizerSafe(w: World, k: Key, ok: bool)
    requires Safe(w)
    ensures Safe(PutFinalizerStep(w, k, ok))
  {
    assert PcOk(w, k);
    if k in w.procs && w.procs[k].Adding? {
      PutKeepsGuards(w, k, WithFinalizer(w.procs[k].o));
    }
    MoveSafe(w, PutFinalizerStep(w, k, ok), k);
  }

  lemma RefetchSafe(w: World, k: Key, ok: bool)
    requires Safe(w)
    ensures Safe(RefetchStep(w, k, ok))
  {
    assert PcOk(w, k);
    MoveSafe(w, RefetchStep(w, k, ok), k);
  }

  lemma EndSafe(w: World, k: Key)
    requires Safe(w)
    ensures Safe(End(w, k))
  {
    MoveSafe(w, End(w, k), k);
  }

  /** Dropping the finalizer hurts nobody: the owner holds nothing any more. */
  lemma DropFinalizerSafe(w: World, k: Key, ok: bool)
    requires Safe(w)
    ensures Safe(DropFinalizerStep(w, k, ok))
  {
    assert PcOk(w, k);
    EndSafe(w, k);
    if k in w.procs && w.procs[k].Releasing? && ok && Current(w, k, w.procs[k].o) {
      UnguardSafe(w, End(Put(w, k, WithoutFinalizer(w.procs[k].o)), k), k);
    }
  }

  lemma UnguardSafe(w: World, v: World, k: Key)
    requires Safe(w) && v.derive == w.derive && v.ops == w.ops && v.acked == w.acked && v.mirror == w.mirror
             && SameProcsBut(w, v, k) && k !in v.procs
    requires forall l :: l != k && Guards(w, l) ==> Guards(v, l)
    requires forall l :: l in v.store ==> Proper(l)
    requires OwnerId(k) !in Owners(w)
    ensures Safe(v)
  {
    forall x | x in Owners(v) ensures Guarded(v, x) {
      assert Guarded(w, x);
      var l :| Proper(l) && OwnerId(l) == x && Guards(w, l);
      assert Guards(v, l);
    }
    forall l ensures PcOk(v, l) { assert PcOk(w, l); }
  }

  /** The index changes in k's entry only, while k's guard stands. */
  lemma OpSafe(w: World, v: World, k: Key, op: Op)
    requires Safe(w) && SameProcsBut(w, v, k) && v.derive == w.derive && v.store == w.store && v.acked == w.acked
             && v.mirror == w.mirror
    requires v.ops == w.ops + [op] && TypedOp(op) && Proper(k) && PcOk(v, k)
    requires op == Remove(OwnerId(k)) || (op.Update? && op.owner == OwnerId(k) && Guards(w, k))
    ensures Safe(v)
  {
    OwnersSnoc(w, op);
    assert Owners(v) <= Owners(w) + (if op.Update? then {OwnerId(k)} else {});
    GuardedMonotone(w, v);
    forall x | x in Owners(v) ensures Guarded(v, x) {
      if x !in Owners(w) {
        assert Guards(v, k);
      }
    }
    forall l ensures PcOk(v, l) {
      assert PcOk(w, l);
      if l in w.procs && l != k && OwnerId(l) == OwnerId(k) {
        OwnerIdInjective(l, k);
      }
    }
  }

  lemma MutateSafe(w: World, k: Key)
    requires Safe(w)
    ensures Safe(MutateStep(w, k))
  {
    var v := MutateStep(w, k);
    assert PcOk(w, k);
    if k in w.procs && w.procs[k].Ready? {
      assert SoundAt(w.derive, w.procs[k].o);
      OpSafe(w, v, k, Update(OwnerId(k), RecordsOf(w, w.procs[k].o)));
    } else if k in w.procs && w.procs[k].Clearing? {
      OwnersSnoc(w, Remove(OwnerId(k)));
      OpSafe(w, v, k, Remove(OwnerId(k)));
    }
  }

  lemma GlueSafe(w: World, r: Record)
    requires Safe(w)
    ensures Safe(GlueStep(w, r))
  {
    var v := GlueStep(w, r);
    OwnersSnoc(w, SetStatic(r));
    GuardedMonotone(w, v);
    forall l ensures PcOk(v, l) { assert PcOk(w, l); }
  }

  lemma RestartSafe(w: World, seeds: seq<Record>)
    requires Safe(w)
    ensures Safe(RestartStep(w, seeds))
  {
    StaticsOwnNothing(seeds);
    forall l ensures PcOk(RestartStep(w, seeds), l) { }
  }

  lemma RenderSafe(w: World, k: Key)
    requires Safe(w)
    ensures Safe(RenderStep(w, k))
  {
    assert PcOk(w, k);
    MoveSafe(w, RenderStep(w, k), k);
  }

  lemma PrimarySafe(w: World, k: Key, ok: bool)
    requires Safe(w)
    ensures Safe(PrimaryStep(w, k, ok))
  {
    assert PcOk(w, k);
    MoveSafe(w, PrimaryStep(w, k, ok), k);
  }

  lemma MirrorSafe(w: World, k: Key, ok: bool)
    requires Safe(w)
    ensures Safe(MirrorStep(w, k, ok))
  {
    assert PcOk(w, k);
    if k in w.procs && w.procs[k].Mirroring? {
      var z, after := w.procs[k].zone, w.procs[k].after;
      var v := if ok then w.(mirror := Some(z)) else w;
      MirrorSetSafe(w, z);
      if after.Done? {
        EndSafe(v, k);
      } else {
        MoveSafe(v, SetPc(v, k, Releasing(after.o, z)), k);
      }
    }
  }

  lemma MirrorSetSafe(w: World, z: Records)
    requires Safe(w) && z in w.acked
    ensures Safe(w.(mirror := Some(z)))
  {
    var v := w.(mirror := Some(z));
    GuardedMonotone(w, v);
    forall l ensures PcOk(v, l) { assert PcOk(w, l); }
  }

  lemma NextSafe(w: World, a: Act)
    requires Safe(w)
    ensures Safe(Next(w, a))
  {
    match a {
      case Create(_, _) => UserStepSafe(w, a);
      case Modify(_, _) => UserStepSafe(w, a);
      case Delete(_) => UserStepSafe(w, a);
      case Glue(r) => GlueSafe(w, r);
      case Restart(seeds) => RestartSafe(w, seeds);
      case Fetch(k) => FetchStepSafe(w, k);
      case PutFinalizer(k, ok) => PutFinalizerSafe(w, k, ok);
      case Refetch(k, ok) => RefetchSafe(w, k, ok);
      case Mutate(k) => MutateSafe(w, k);
      case Render(k) => RenderSafe(w, k);
      case WritePrimary(k, ok) => PrimarySafe(w, k, ok);
      case WriteMirror(k, ok) => MirrorSafe(w, k, ok);
      case DropFinalizer(k, ok) => DropFinalizerSafe(w, k, ok);
    }
  }

  lemma {:induction false} RunsAreSafe(w: World, acts: seq<Act>)
    requires Start(w)
    ensures Safe(Exec(w, acts))
  {
    if acts == [] {
      var seeds :| w.ops == Statics(seeds);
      StaticsOwnNothing(seeds);
      forall l ensures PcOk(w, l) { }
    } else {
      RunsAreSafe(w, acts[..|acts| - 1]);
      NextSafe(Exec(w, acts[..|acts| - 1]), acts[|acts| - 1]);
    }
  }

  /** In every run, an owner with records on the index has its object still present, with the finalizer. */
  lemma HeldRecordsAreGuarded(w: World, acts: seq<Act>, k: Key)
    requires Start(w) && Proper(k) && OwnerId(k) in Run(Exec(w, acts).ops).owned
    ensures k in Exec(w, acts).store && HasFinalizer(Exec(w, acts).store[k])
  {
    var v := Exec(w, acts);
    RunsAreSafe(w, acts);
    RunTracks(v.ops);
    assert Guarded(v, OwnerId(k));
    var l :| Proper(l) && OwnerId(l) == OwnerId(k) && Guards(v, l);
    OwnerIdInjective(l, k);
  }

  /** In every run, what the mirror carries the primary has acknowledged before. */
  lemma MirrorFollowsPrimary(w: World, acts: seq<Act>)
    requires Start(w)
    ensures Exec(w, acts).mirror.Some? ==> Exec(w, acts).mirror.value in Exec(w, acts).acked
  {
    RunsAreSafe(w, acts);
  }
}
