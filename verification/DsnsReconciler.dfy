/** One DSNS reconcile as the program runs it, and as eight steps of the step system. */
module DsnsReconciler {
  import opened Text
  import opened Zone
  import opened DnsState
  import opened Derive
  import opened Dsns
  import opened DsnsPublish
  import opened DsnsRebuild
  import Writer

  // ---------------------------------------------------------------- what a reconcile does to the index

  /** refreshNSGlue, when there is an address to set. */
  function GlueOp(glue: Option<Record>): Option<Op> {
    if glue.Some? then Some(SetStatic(glue.value)) else None
  }

  /** What the reconcile of k does to the index, given the objects. */
  function ObjectOp(d: Projection, store: map<Key, Resource>, k: Key): Option<Op> {
    if k !in store then Some(Remove(OwnerId(k)))
    else if store[k].deleting then if HasFinalizer(store[k]) then Some(Remove(OwnerId(k))) else None
    else Some(Update(OwnerId(k), d(store[k])))
  }

  function Step(s: Index, op: Option<Op>): Index {
    if op.Some? then Apply(s, op.value) else s
  }

  // ---------------------------------------------------------------- the reconcile itself

  /** Which of its API calls fail. */
  datatype Faults = Faults(get: bool, add: bool, refetch: bool, write: Writer.Faults, release: bool)

  class DSNSReconciler {
    const state: DSNSState
    const writer: Writer.ConfigMapZoneWriter
    const derive: Projection
    var store: map<Key, Resource>   // the watched objects, as the API server has them
    var version: nat

    constructor (derive: Projection, store: map<Key, Resource>)
      ensures this.derive == derive && this.store == store && state.View() == EMPTY
      ensures fresh(state) && fresh(state.zone) && fresh(writer)
    {
      state := new DSNSState();
      writer := new Writer.ConfigMapZoneWriter();
      this.derive := derive;
      this.store := store;
      version := 0;
    }

    /** Every owner with records has its object present, with the finalizer. */
    ghost predicate Guarded()
      reads this, state
    {
      forall k :: Proper(k) && OwnerId(k) in state.owned ==> k in store && HasFinalizer(store[k])
    }

    /** The primary carries the current zone under some serial. */
    ghost predicate IsPublished(serial: nat)
      reads this, state, state.zone, writer
    {
      Writer.Holds(writer.cms, Writer.PRIMARY, Rendered(state.View().records, serial))
    }

    method Apply(serial: nat, f: Writer.Faults) returns (err: bool)
      modifies writer
      ensures !err ==> IsPublished(serial)
      ensures err <==> f.primaryGet || f.primaryWrite
    {
      var text := state.RenderZone(serial);
      err := writer.ApplyContent(text, f);
    }

    /** Client.Update: an object that is deleting and held by nothing goes away. */
    method Update(k: Key, o: Resource)
      modifies this
      ensures o.deleting && o.finalizers == [] ==> store == old(store) - {k}
      ensures !(o.deleting && o.finalizers == []) ==> store == old(store)[k := o.(version := old(version) + 1)]
    {
      version := version + 1;
      if o.deleting && |o.finalizers| == 0 {
        store := store - {k};
      } else {
        store := store[k := o.(version := version)];
      }
    }

    /** removeDSNSFinalizer and the update behind it. */
    method ReleaseFinalizer(k: Key)
      requires k in store && store[k].deleting && HasFinalizer(store[k])
      modifies this
      ensures OnlyChanges(old(store), store, k) && !(k in store && HasFinalizer(store[k]))
      ensures old(OnlyOurs(store, k)) ==> k !in store
    {
      var o := store[k];
      FilteredTwice(o.finalizers);
      ghost var v := version + 1;
      Update(k, WithoutFinalizer(o));
      LetGo(old(store), store, k, Filtered(o.finalizers), v);
    }

    /** The deletion path: records go first, then the finalizer. */
    method Retire(k: Key, serial: nat, f: Faults) returns (err: bool)
      requires Proper(k) && k in store && store[k].deleting && HasFinalizer(store[k])
      modifies this, state, state.zone, writer
      ensures err <==> f.write.primaryGet || f.write.primaryWrite || f.release
      ensures state.View() == WithoutOwner(old(state.View()), OwnerId(k))
      ensures err ==> store == old(store)
      ensures !err ==> IsPublished(serial) && !(k in store && HasFinalizer(store[k]))
      ensures !err && old(OnlyOurs(store, k)) ==> k !in store
      ensures OnlyChanges(old(store), store, k)
      ensures !(k in store && HasFinalizer(store[k])) ==> IsPublished(serial)
      ensures old(Guarded()) ==> Guarded()
    {
      state.RemoveRecords(OwnerId(k));
      err := Apply(serial, f.write);
      if err {
        return;
      }
      if f.release {
        return true;
      }
      ReleaseFinalizer(k);
    }

    /** Makes sure a live object carries the finalizer, and reads it again after adding it. */
    method EnsureFinalizer(k: Key, f: Faults) returns (err: bool)
      requires Proper(k) && Live(store, k)
      modifies this
      ensures OnlyChanges(old(store), store, k)
      ensures err <==> !old(HasFinalizer(store[k])) && (f.add || f.refetch)
      ensures k in store
      ensures !err ==> HasFinalizer(store[k])
      ensures store[k].finalizers
              == old(store[k].finalizers) + if old(HasFinalizer(store[k])) || f.add then [] else [FINALIZER]
    {
      var o := store[k];
      if HasFinalizer(o) {
        return false;
      }
      if f.add {
        return true;
      }
      AddedFiltered(o);
      Update(k, WithFinalizer(o));
      return f.refetch;
    }

    /** The path of a live object: the finalizer goes on first, then its records are registered. */
    method Register(k: Key, serial: nat, f: Faults) returns (err: bool)
      requires Proper(k) && Sound(derive) && Live(store, k)
      modifies this, state, state.zone, writer
      ensures err <==> || (!old(HasFinalizer(store[k])) && (f.add || f.refetch))
                       || f.write.primaryGet || f.write.primaryWrite
      ensures state.View() == if !old(HasFinalizer(store[k])) && (f.add || f.refetch) then old(state.View())
                              else WithOwner(old(state.View()), OwnerId(k), derive(old(store[k])))
      ensures !err ==> IsPublished(serial) && k in store && HasFinalizer(store[k])
      ensures OnlyChanges(old(store), store, k)
      ensures k in store && (old(HasFinalizer(store[k])) ==> HasFinalizer(store[k]))
      ensures old(Guarded()) ==> Guarded()
    {
      err := EnsureFinalizer(k, f);
      if err {
        return;
      }
      assert SoundAt(derive, store[k]);
      state.UpdateRecords(OwnerId(k), derive(store[k]));
      err := Apply(serial, f.write);
      SoleOwner(k);
    }

    method Reconcile(k: Key, glue: Option<Record>, serial: nat, f: Faults) returns (err: bool)
      requires Proper(k) && Sound(derive)
      modifies this, state, state.zone, writer
      // an error exactly when a call on the object's path fails, whether it is gone, live, held or let go
      ensures k !in old(store) ==> (err <==> f.get || f.write.primaryGet || f.write.primaryWrite)
      ensures Live(old(store), k) ==>
                (err <==> || f.get || (!HasFinalizer(old(store)[k]) && (f.add || f.refetch))
                          || f.write.primaryGet || f.write.primaryWrite)
      ensures k in old(store) && old(store)[k].deleting && HasFinalizer(old(store)[k]) ==>
                (err <==> f.get || f.write.primaryGet || f.write.primaryWrite || f.release)
      ensures k in old(store) && old(store)[k].deleting && !HasFinalizer(old(store)[k]) ==> (err <==> f.get)
      // the index: the glue refresh, and then the object's own operation unless the first read or the finalizer failed
      ensures var refreshed := Step(old(state.View()), GlueOp(glue));
              state.View() == if f.get || (Live(old(store), k) && !HasFinalizer(old(store)[k]) && (f.add || f.refetch))
                              then refreshed
                              else Step(refreshed, ObjectOp(derive, old(store), k))
      // a call without error does the object's whole reconcile
      ensures !err ==> Completes(derive, old(store), Step(old(state.View()), GlueOp(glue)), store, state.View(), k)
      // publication: success means the primary carries the zone, unless the object was none of our business
      ensures !err ==> IsPublished(serial) || ObjectOp(derive, old(store), k).None?
      // objects: nothing but the finalizer of this one changes, and a live one ends up with it
      ensures OnlyChanges(old(store), store, k)
      ensures !err && Live(old(store), k) ==> k in store && HasFinalizer(store[k])
      // the finalizer goes only with the records, after the zone without them was published
      ensures old(k in store && HasFinalizer(store[k])) && !(k in store && HasFinalizer(store[k])) ==>
                old(store)[k].deleting && OwnerId(k) !in state.owned && IsPublished(serial)
      ensures old(Guarded()) ==> Guarded()
    {
      if glue.Some? {
        state.SetStaticRecord(glue.value);
      }
      if f.get {
        return true;
      }
      if k !in store {
        state.RemoveRecords(OwnerId(k));
        err := Apply(serial, f.write);
      } else if store[k].deleting {
        if !HasFinalizer(store[k]) {
          return false;
        }
        err := Retire(k, serial, f);
      } else {
        err := Register(k, serial, f);
      }
    }
  }

  /** Only k changes, and of k only our finalizer and the version, or it goes away because it was deleting and nobody
      else held it. */
  ghost predicate OnlyChanges(before: map<Key, Resource>, after: map<Key, Resource>, k: Key) {
    && (forall l :: l != k ==> (l in after <==> l in before) && (l in after ==> after[l] == before[l]))
    && (k in after ==> k in before && SameContent(before[k], after[k]) && after[k].deleting == before[k].deleting)
    && (k in after ==> Filtered(after[k].finalizers) == Filtered(before[k].finalizers))
    && (k in before && k !in after ==> before[k].deleting && Filtered(before[k].finalizers) == [])
  }

  /** Taking our finalizer off, after which an object that nobody holds goes. */
  lemma LetGo(before: Objects, after: Objects, k: Key, fs: seq<string>, v: nat)
    requires k in before && before[k].deleting && fs == Filtered(before[k].finalizers) && fs == Filtered(fs)
    requires after == if fs == [] then before - {k} else before[k := before[k].(finalizers := fs, version := v)]
    ensures OnlyChanges(before, after, k) && !(k in after && HasFinalizer(after[k]))
    ensures fs == [] ==> k !in after
  {
    if fs != [] {
      StillHeld(before, after, k, before[k], before[k].(finalizers := fs, version := v));
    }
  }

  lemma StillHeld(before: Objects, after: Objects, k: Key, o: Resource, p: Resource)
    requires k in before && before[k] == o && after == before[k := p] && o.deleting && p.deleting && SameContent(o, p)
    requires p.finalizers == Filtered(o.finalizers) == Filtered(p.finalizers)
    ensures OnlyChanges(before, after, k) && !HasFinalizer(after[k])
  {
  }

  /** Putting it on changes nothing in the others. */
  lemma AddedFiltered(o: Resource)
    ensures Filtered(WithFinalizer(o).finalizers) == Filtered(o.finalizers)
  {
    FilteredOne(o.finalizers, FINALIZER);
  }

  // ---------------------------------------------------------------- the same in steps

  /** What a reconcile of k that runs through does to the objects and the index. */
  ghost predicate Completes(d: Projection, before: Objects, s: Index, after: Objects, t: Index, k: Key) {
    && t == Step(s, ObjectOp(d, before, k))
    && OnlyChanges(before, after, k)
    && (Live(before, k) ==> k in after && HasFinalizer(after[k]))
    && (k in before && before[k].deleting ==> !(k in after && HasFinalizer(after[k])))
    && (OnlyOurs(before, k) ==> k !in after)
  }

  /** A deleting object that nothing but our finalizer holds. */
  ghost predicate OnlyOurs(before: Objects, k: Key) {
    k in before && before[k].deleting && HasFinalizer(before[k]) && Filtered(before[k].finalizers) == []
  }

  /** The steps of a reconcile whose calls all succeed; those that are not its turn do nothing. */
  function Pass(k: Key): seq<Act> {
    [Fetch(k), PutFinalizer(k, true), Refetch(k, true), Mutate(k)]
    + [Render(k), WritePrimary(k, true), WriteMirror(k, true), DropFinalizer(k, true)]
  }

  function Front(w: World, k: Key): World {
    MutateStep(RefetchStep(PutFinalizerStep(FetchStep(w, k), k, true), k, true), k)
  }

  function Back(w: World, k: Key): World {
    DropFinalizerStep(MirrorStep(PrimaryStep(RenderStep(w, k), k, true), k, true), k, true)
  }

  lemma FrontIs(w: World, k: Key)
    ensures Next(Next(Next(Next(w, Fetch(k)), PutFinalizer(k, true)), Refetch(k, true)), Mutate(k)) == Front(w, k)
  {
  }

  lemma BackIs(w: World, k: Key)
    ensures Next(Next(Next(Next(w, Render(k)), WritePrimary(k, true)), WriteMirror(k, true)), DropFinalizer(k, true))
            == Back(w, k)
  {
  }

  lemma PassInTwo(w: World, k: Key)
    ensures Exec(w, Pass(k)) == Back(Front(w, k), k)
  {
    EightSteps(w, Fetch(k), PutFinalizer(k, true), Refetch(k, true), Mutate(k),
               Render(k), WritePrimary(k, true), WriteMirror(k, true), DropFinalizer(k, true));
    FrontIs(w, k);
    BackIs(Front(w, k), k);
  }

  lemma EightSteps(w: World, a: Act, b: Act, c: Act, d: Act, e: Act, f: Act, g: Act, h: Act)
    ensures Exec(w, [a, b, c, d] + [e, f, g, h])
            == Next(Next(Next(Next(Next(Next(Next(Next(w, a), b), c), d), e), f), g), h)
  {
    ExecConcat(w, [a, b, c, d], [e, f, g, h]);
    ExecFour(w, a, b, c, d);
    ExecFour(Exec(w, [a, b, c, d]), e, f, g, h);
  }

  /** From rendering on: the zone is published, and a release takes the finalizer off. */
  lemma BackFrom(w: World, k: Key, after: After)
    requires k in w.procs && w.procs[k] == Rendering(after) && (after.Release? ==> Current(w, k, after.o))
    ensures var v := Back(w, k);
            && v.procs == w.procs - {k} && v.ops == w.ops && v.primary == Some(CurrentZone(w))
            && v.store == if after.Done? then w.store else Put(w, k, WithoutFinalizer(after.o)).store
  {
    var z := CurrentZone(w);
    var a := RenderStep(w, k);
    assert a.procs[k] == Writing(z, after);
    var b := PrimaryStep(a, k, true);
    assert b.procs[k] == Mirroring(z, after) && b.primary == Some(z);
    var c := MirrorStep(b, k, true);
    MirrorThenDrop(b, k, z, after);
    assert b.store == w.store && b.procs - {k} == w.procs - {k} && b.version == w.version;
  }

  lemma MirrorThenDrop(w: World, k: Key, z: Records, after: After)
    requires k in w.procs && w.procs[k] == Mirroring(z, after) && (after.Release? ==> Current(w, k, after.o))
    ensures var v := DropFinalizerStep(MirrorStep(w, k, true), k, true);
            && v.procs == w.procs - {k} && v.ops == w.ops && v.primary == w.primary
            && v.store == if after.Done? then w.store else Put(w, k, WithoutFinalizer(after.o)).store
  {
    if after.Release? {
      var u := MirrorStep(w, k, true);
      assert u.procs[k] == Releasing(after.o, z) && u.store == w.store && u.version == w.version;
      assert u.procs - {k} == w.procs - {k};
    }
  }

  lemma BackIdle(w: World, k: Key)
    requires k !in w.procs
    ensures Back(w, k) == w
  {
  }

  lemma FrontClears(w: World, k: Key, after: After)
    requires Proper(k) && k !in w.procs && FirstRead(w, k) == Some(Clearing(after))
    ensures Front(w, k) == SetPc(w.(ops := w.ops + [Remove(OwnerId(k))]), k, Rendering(after))
  {
    var u := SetPc(w, k, Clearing(after));
    assert FetchStep(w, k) == u && u.procs[k] == Clearing(after);
    assert RefetchStep(PutFinalizerStep(u, k, true), k, true) == u;
    assert u.procs[k := Rendering(after)] == w.procs[k := Rendering(after)];
  }

  lemma FrontIgnores(w: World, k: Key)
    requires k !in w.procs && FirstRead(w, k).None?
    ensures Front(w, k) == w
  {
  }

  lemma FrontRegisters(w: World, k: Key, o: Resource)
    requires Proper(k) && k !in w.procs && FirstRead(w, k) == Some(Ready(o))
    ensures Front(w, k) == SetPc(w.(ops := w.ops + [Update(OwnerId(k), w.derive(o))]), k, Rendering(Done))
  {
    var u := SetPc(w, k, Ready(o));
    assert FetchStep(w, k) == u && u.procs[k] == Ready(o);
    assert RefetchStep(PutFinalizerStep(u, k, true), k, true) == u;
    assert u.procs[k := Rendering(Done)] == w.procs[k := Rendering(Done)];
  }

  lemma FrontAdds(w: World, k: Key, o: Resource)
    requires Proper(k) && k in w.store && k !in w.procs && w.store[k] == o && !o.deleting && !HasFinalizer(o)
    ensures var p := WithFinalizer(o).(version := w.version + 1); var v := Front(w, k);
            && v.procs == w.procs[k := Rendering(Done)] && v.store == w.store[k := p]
            && v.ops == w.ops + [Update(OwnerId(k), w.derive(p))] && v.derive == w.derive
  {
    var p := WithFinalizer(o).(version := w.version + 1);
    var u := SetPc(w, k, Adding(o));
    assert FetchStep(w, k) == u && u.procs[k] == Adding(o);
    var x := PutFinalizerStep(u, k, true);
    assert x.procs[k] == Refetching && x.store == w.store[k := p];
    var y := RefetchStep(x, k, true);
    assert y.procs[k] == Ready(p);
    assert u.procs[k := Refetching][k := Ready(p)][k := Rendering(Done)] == w.procs[k := Rendering(Done)];
  }

  /** Where a pass ends: the index has seen one operation, the zone is published, nothing of the pass is left. */
  ghost predicate EndsWith(w: World, v: World, op: Op) {
    v.procs == w.procs && Run(v.ops) == Apply(Run(w.ops), op) && v.primary == Some(CurrentZone(v))
  }

  lemma EndsInTwo(w: World, u: World, v: World, k: Key, after: After, op: Op)
    requires k !in w.procs && u.procs == w.procs[k := Rendering(after)] && u.ops == w.ops + [op]
    requires v.procs == u.procs - {k} && v.ops == u.ops && v.primary == Some(CurrentZone(u))
    ensures EndsWith(w, v, op)
  {
    RunSnoc(w.ops, op);
    assert w.procs[k := Rendering(after)] - {k} == w.procs;
  }

  lemma PutStore(w: World, u: World, k: Key, o: Resource)
    requires u.store == w.store && u.version == w.version
    ensures Put(u, k, o).store == Put(w, k, o).store
  {
  }

  lemma PassClears(w: World, u: World, v: World, k: Key, after: After)
    requires Proper(k) && k !in w.procs && FirstRead(w, k) == Some(Clearing(after))
    requires u == SetPc(w.(ops := w.ops + [Remove(OwnerId(k))]), k, Rendering(after))
    requires v.procs == u.procs - {k} && v.ops == u.ops && v.primary == Some(CurrentZone(u))
    requires v.store == if after.Done? then u.store else Put(u, k, WithoutFinalizer(after.o)).store
    ensures EndsWith(w, v, Remove(OwnerId(k)))
    ensures Completes(w.derive, w.store, Run(w.ops), v.store, Run(v.ops), k)
  {
    EndsInTwo(w, u, v, k, after, Remove(OwnerId(k)));
    if after.Release? {
      PutStore(w, u, k, WithoutFinalizer(after.o));
      ReleaseChanges(w, k, after.o);
    }
  }

  lemma ReleaseChanges(w: World, k: Key, o: Resource)
    requires k in w.store && w.store[k] == o && o.deleting
    ensures var after := Put(w, k, WithoutFinalizer(o)).store;
            && OnlyChanges(w.store, after, k) && !(k in after && HasFinalizer(after[k]))
            && (OnlyOurs(w.store, k) ==> k !in after)
  {
    FilteredTwice(o.finalizers);
    LetGo(w.store, Put(w, k, WithoutFinalizer(o)).store, k, Filtered(o.finalizers), w.version + 1);
  }

  lemma PassRegisters(w: World, u: World, v: World, k: Key, p: Resource)
    requires Sound(w.derive) && k !in w.procs && Live(w.store, k) && SameContent(w.store[k], p) && HasFinalizer(p)
    requires Filtered(p.finalizers) == Filtered(w.store[k].finalizers)
    requires !p.deleting && u.store == w.store[k := p] && u.procs == w.procs[k := Rendering(Done)]
    requires u.ops == w.ops + [Update(OwnerId(k), w.derive(p))]
    requires v.procs == u.procs - {k} && v.ops == u.ops && v.primary == Some(CurrentZone(u)) && v.store == u.store
    ensures EndsWith(w, v, Update(OwnerId(k), w.derive(w.store[k])))
    ensures Completes(w.derive, w.store, Run(w.ops), v.store, Run(v.ops), k)
  {
    assert SoundAt(w.derive, w.store[k]);
    EndsInTwo(w, u, v, k, Done, Update(OwnerId(k), w.derive(p)));
  }

  lemma ClearingPass(w: World, k: Key, after: After)
    requires Proper(k) && k !in w.procs && FirstRead(w, k) == Some(Clearing(after))
    ensures Reconciled(w, Back(Front(w, k), k), k)
  {
    FrontClears(w, k, after);
    var u := SetPc(w.(ops := w.ops + [Remove(OwnerId(k))]), k, Rendering(after));
    BackFrom(u, k, after);
    PassClears(w, u, Back(u, k), k, after);
  }

  lemma ReadyPass(w: World, k: Key)
    requires Sound(w.derive) && Proper(k) && k !in w.procs && Live(w.store, k) && HasFinalizer(w.store[k])
    ensures Reconciled(w, Back(Front(w, k), k), k)
  {
    var o := w.store[k];
    FrontRegisters(w, k, o);
    var u := SetPc(w.(ops := w.ops + [Update(OwnerId(k), w.derive(o))]), k, Rendering(Done));
    BackFrom(u, k, Done);
    assert w.store == w.store[k := o];
    PassRegisters(w, u, Back(u, k), k, o);
  }

  lemma AddingPass(w: World, u: World, k: Key)
    requires Sound(w.derive) && Proper(k) && k !in w.procs && Live(w.store, k) && !HasFinalizer(w.store[k])
    requires u == Front(w, k)
    ensures Reconciled(w, Back(u, k), k)
  {
    var p := WithFinalizer(w.store[k]).(version := w.version + 1);
    AddedFiltered(w.store[k]);
    FrontAdds(w, k, w.store[k]);
    BackFrom(u, k, Done);
    PassRegisters(w, u, Back(u, k), k, p);
  }

  /** The pass has done what the method promises for a call without error, has published the zone, and has left the
      other reconciles where they were. */
  ghost predicate Reconciled(w: World, v: World, k: Key) {
    && Completes(w.derive, w.store, Run(w.ops), v.store, Run(v.ops), k)
    && v.procs == w.procs
    && (ObjectOp(w.derive, w.store, k).Some? ==> v.primary == Some(CurrentZone(v)))
  }

  lemma IgnoredPass(w: World, k: Key)
    requires k !in w.procs && FirstRead(w, k).None?
    ensures Reconciled(w, Back(Front(w, k), k), k)
  {
    FrontIgnores(w, k);
    BackIdle(w, k);
  }

  /** A reconcile that nothing disturbs and none of whose calls fails does in the step system what the method promises
      for a call without error. */
  lemma PassIsReconcile(w: World, k: Key)
    requires Sound(w.derive) && Proper(k) && k !in w.procs
    ensures Reconciled(w, Exec(w, Pass(k)), k)
  {
    PassInTwo(w, k);
    PassReconciles(w, k, Exec(w, Pass(k)));
  }

  lemma PassReconciles(w: World, k: Key, v: World)
    requires Sound(w.derive) && Proper(k) && k !in w.procs && v == Back(Front(w, k), k)
    ensures Reconciled(w, v, k)
  {
    if FirstRead(w, k).None? {
      IgnoredPass(w, k);
    } else if FirstRead(w, k).value.Clearing? {
      ClearingPass(w, k, FirstRead(w, k).value.after);
    } else if HasFinalizer(w.store[k]) {
      ReadyPass(w, k);
    } else {
      AddingPass(w, Front(w, k), k);
    }
  }

  // ---------------------------------------------------------------- a whole life

  lemma BornLive(w: World, k: Key, o: Resource)
    requires Proper(k) && k !in w.store && o.finalizers == []
    ensures var v := Next(w, Create(k, o));
            && Live(v.store, k) && SameContent(Named(k, o), v.store[k]) && v.store[k].finalizers == []
            && v == w.(store := v.store, version := v.version)
  {
  }

  lemma ChangedAsAsked(w: World, k: Key, o: Resource)
    requires k in w.store && (HasFinalizer(w.store[k]) ==> HasFinalizer(o))
    requires w.store[k].deleting ==> o.finalizers != []
    ensures var v := Next(w, Modify(k, o));
            && k in v.store && SameContent(Named(k, o), v.store[k]) && v.store[k].finalizers == o.finalizers
            && v.store[k].deleting == w.store[k].deleting && v.store[k].version > w.version
            && v == w.(store := v.store, version := v.version)
  {
  }

  lemma MarkedForDeletion(w: World, k: Key)
    requires Live(w.store, k) && HasFinalizer(w.store[k])
    ensures var v := Next(w, Delete(k));
            && k in v.store && v.store[k].deleting && v.store[k].finalizers == w.store[k].finalizers
            && v == w.(store := v.store, version := v.version)
  {
  }

  /** An undisturbed life. Created and reconciled, the object has its finalizer and its owner holds exactly the keys of
      its records; deleted, it stays; reconciled again, its records are off the index and it is gone. The primary
      carries the zone both times. */
  lemma WholeLife(w: World, k: Key, o: Resource, born: World, known: World, doomed: World, gone: World)
    requires Sound(w.derive) && Proper(k) && k !in w.procs && k !in w.store && o.finalizers == []
    requires born == Next(w, Create(k, o)) && known == Exec(born, Pass(k))
    requires doomed == Next(known, Delete(k)) && gone == Exec(doomed, Pass(k))
    ensures Live(known.store, k) && HasFinalizer(known.store[k])
    ensures HeldBy(Run(known.ops), OwnerId(k)) == Keys(w.derive(Named(k, o)))
    ensures known.primary == Some(CurrentZone(known))
    ensures k in doomed.store && doomed.store[k].deleting
    ensures k !in gone.store && OwnerId(k) !in Run(gone.ops).owned
    ensures gone.primary == Some(CurrentZone(gone)) && gone.procs == w.procs
  {
    BornLive(w, k, o);
    PassIsReconcile(born, k);
    assert SoundAt(w.derive, Named(k, o));
    DeriveStays(born, Pass(k));
    MarkedForDeletion(known, k);
    PassIsReconcile(doomed, k);
  }

  lemma {:induction false} DeriveStays(w: World, acts: seq<Act>)
    ensures Exec(w, acts).derive == w.derive
  {
    if acts != [] {
      DeriveStays(w, acts[..|acts| - 1]);
    }
  }

  // ---------------------------------------------------------------- what a completed reconcile leaves

  /** In terms of the object alone: afterwards a live object's owner holds exactly the keys of its records, and each of
      these slots carries the last of its records; the owner of an object that is gone or going holds nothing and its
      slots are empty; every other slot and owner is as before, but for slots the owner had. */
  lemma CompletedMeans(d: Projection, before: Objects, s: Index, after: Objects, t: Index, k: Key)
    requires Completes(d, before, s, after, t, k) && Sound(d)
    requires forall i :: 0 <= i < |HeldBy(s, OwnerId(k))| ==> Splits(HeldBy(s, OwnerId(k))[i])
    ensures forall o :: o != OwnerId(k) ==>
              (o in t.owned <==> o in s.owned) && (o in s.owned ==> t.owned[o] == s.owned[o])
    ensures Live(before, k) ==>
              && HeldBy(t, OwnerId(k)) == Keys(d(before[k]))
              && forall x :: x in Contribution(d(before[k])) ==>
                   x in t.records && t.records[x] == Contribution(d(before[k]))[x]
    ensures Live(before, k) ==>
              forall x :: x !in Keys(d(before[k])) ==>
                (x in t.records <==> x in s.records && x !in HeldBy(s, OwnerId(k)))
                && (x in t.records ==> t.records[x] == s.records[x])
    ensures k !in before || (before[k].deleting && HasFinalizer(before[k])) ==>
              OwnerId(k) !in t.owned && t.records == s.records - Elements(HeldBy(s, OwnerId(k)))
  {
    var keys := HeldBy(s, OwnerId(k));
    DropAllRemoves(s.records, keys);
    if Live(before, k) {
      var rs := d(before[k]);
      AddAllContributes(WithoutOwner(s, OwnerId(k)).records, rs);
      forall x ensures x in Contribution(rs) <==> x in Keys(rs) {
        ContributionIsLast(rs, x);
      }
    }
  }
}
