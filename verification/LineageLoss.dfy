/** How a descendant entry can get lost, over every interleaving: by a registry written from a copy that lacks it, or
    by a prune of a copy in which it has expired. With current copies only the rules of retention are left. */
module LineageLoss {
  import opened Text
  import opened Lineage
  import opened Retention
  import opened LineageRuns
  import opened LineageSerial

  // ---------------------------------------------------------------- what a step does to an entry

  /** The entries a pruning step may drop from an index. */
  ghost predicate Expired(ix: Index, a: Act, i: int)
    requires a.PruneL? && |a.seen| == |ix.descendants| && 0 <= i < |ix.descendants|
  {
    var e := ix.descendants[i];
    e.createdAt.Some? && Since(a.now, e.createdAt.value) >= Window(Days(ix.retention)) && a.seen[i] == NotFound
  }

  lemma DroppedIsExpired(ix: Index, a: Act, i: nat)
    requires a.PruneL? && |a.seen| == |ix.descendants| && i < |ix.descendants|
    requires ix.descendants[i] !in KeptOf(ix, a.seen, a.now)
    ensures Expired(ix, a, i)
  {
    var at := KeptIsFilter(ix.descendants, a.seen, a.now, Window(Days(ix.retention)));
    var kept := KeptOf(ix, a.seen, a.now);
    assert forall x :: 0 <= x < |at| ==> kept[x] == ix.descendants[at[x]] && kept[x] in kept;
    assert i !in at;
  }

  ghost predicate ExpiredIn(ix: Index, a: Act, e: DescendantEntry) {
    && a.PruneL? && |a.seen| == |ix.descendants|
    && exists i :: 0 <= i < |ix.descendants| && ix.descendants[i] == e && Expired(ix, a, i)
  }

  /** The step patches the registry of k, from this copy. */
  ghost predicate WritesFrom(w: World, a: Act, k: IndexKey, copy: Index) {
    || (&& a.AppendD? && a.pid in w.desc && w.desc[a.pid].key == k && w.desc[a.pid].snap == copy
        && WantsD(w.desc[a.pid], a.now).Some?)
    || (&& a.PruneL? && a.pid in w.lin && w.lin[a.pid].key == k && w.lin[a.pid].snap == copy
        && |a.seen| == |copy.descendants| && KeptOf(copy, a.seen, a.now) != copy.descendants)
  }

  /** An append of something else from a copy without the entry, or a prune of a copy that lacks it or in which it has
      expired. */
  ghost predicate Drops(w: World, a: Act, copy: Index, e: DescendantEntry) {
    if e in copy.descendants then ExpiredIn(copy, a, e)
    else a.AppendD? && a.pid in w.desc ==> e != EntryFor(copy, w.desc[a.pid].d, a.now)
  }

  ghost predicate Loses(w: World, a: Act, k: IndexKey, e: DescendantEntry) {
    exists copy :: WritesFrom(w, a, k, copy) && Drops(w, a, copy, e)
  }

  lemma NotWritten(w: World, a: Act, k: IndexKey)
    requires k in w.store && a != DeleteIndex(k) && forall copy :: !WritesFrom(w, a, k, copy)
    ensures k in Next(w, a).store && Next(w, a).store[k].descendants == w.store[k].descendants
  {
    if a.AppendD? && a.pid in w.desc {
      assert !WritesFrom(w, a, k, w.desc[a.pid].snap);
    } else if a.PruneL? && a.pid in w.lin {
      assert !WritesFrom(w, a, k, w.lin[a.pid].snap);
    } else if !a.AppendD? && !a.PruneL? {
      OtherStepD(w, a, k);
    }
  }

  /** The registry a writing step leaves behind. */
  lemma Written(w: World, a: Act, k: IndexKey, copy: Index)
    requires k in w.store && WritesFrom(w, a, k, copy)
    ensures k in Next(w, a).store
    ensures a.AppendD? ==> Next(w, a).store[k].descendants
                           == copy.descendants + [EntryFor(copy, w.desc[a.pid].d, a.now)]
    ensures a.PruneL? ==> Next(w, a).store[k].descendants == KeptOf(copy, a.seen, a.now)
  {
  }

  lemma KeptSubset(ix: Index, seen: seq<Existence>, now: int)
    requires |seen| == |ix.descendants|
    ensures forall e :: e in KeptOf(ix, seen, now) ==> e in ix.descendants
  {
    var at := KeptIsFilter(ix.descendants, seen, now, Window(Days(ix.retention)));
  }

  /** An expired entry goes, where no UID occurs twice. */
  lemma ExpiredIsDropped(ix: Index, a: Act, e: DescendantEntry)
    requires UniqueD(ix.descendants) && ExpiredIn(ix, a, e)
    ensures e !in KeptOf(ix, a.seen, a.now)
  {
    var at := KeptIsFilter(ix.descendants, a.seen, a.now, Window(Days(ix.retention)));
    var i :| 0 <= i < |ix.descendants| && ix.descendants[i] == e && Expired(ix, a, i);
    assert i !in at;
    var kept := KeptOf(ix, a.seen, a.now);
    assert forall x :: 0 <= x < |at| ==> kept[x] == ix.descendants[at[x]] && at[x] != i;
    assert forall j :: 0 <= j < |ix.descendants| && j != i ==> ix.descendants[j].uid != e.uid;
  }

  lemma LostIsDropped(w: World, a: Act, k: IndexKey, copy: Index, e: DescendantEntry)
    requires k in w.store && WritesFrom(w, a, k, copy) && k in Next(w, a).store
    requires e !in Next(w, a).store[k].descendants
    ensures Drops(w, a, copy, e)
  {
    Written(w, a, k, copy);
    if a.AppendD? {
      AppendKeeps(copy.descendants, EntryFor(copy, w.desc[a.pid].d, a.now));
    } else if e in copy.descendants {
      var i :| 0 <= i < |copy.descendants| && copy.descendants[i] == e;
      DroppedIsExpired(copy, a, i);
    }
  }

  lemma AppendKeeps(ds: seq<DescendantEntry>, x: DescendantEntry)
    ensures x in ds + [x] && forall e :: e in ds ==> e in ds + [x]
  {
    assert (ds + [x])[|ds|] == x;
  }

  lemma DroppedIsLost(w: World, a: Act, k: IndexKey, copy: Index, e: DescendantEntry)
    requires k in w.store && WritesFrom(w, a, k, copy) && UniqueD(copy.descendants) && Drops(w, a, copy, e)
    ensures k in Next(w, a).store && e !in Next(w, a).store[k].descendants
  {
    Written(w, a, k, copy);
    if a.PruneL? {
      KeptSubset(copy, a.seen, a.now);
      if e in copy.descendants {
        ExpiredIsDropped(copy, a, e);
      }
    }
  }

  lemma LostByStep(w: World, a: Act, k: IndexKey, e: DescendantEntry)
    requires k in w.store && a != DeleteIndex(k) && e in w.store[k].descendants
    ensures k in Next(w, a).store
    ensures e !in Next(w, a).store[k].descendants ==> Loses(w, a, k, e)
  {
    if copy :| WritesFrom(w, a, k, copy) {
      Written(w, a, k, copy);
      if e !in Next(w, a).store[k].descendants {
        LostIsDropped(w, a, k, copy, e);
      }
    } else {
      NotWritten(w, a, k);
    }
  }

  /** A stored entry survives a step on an index that stays exactly when the step does not write the registry from a
      copy that lacks the entry or has it expired. */
  lemma SurvivesIff(w: World, a: Act, k: IndexKey, e: DescendantEntry)
    requires GoodWorld(w) && k in w.store && a != DeleteIndex(k) && e in w.store[k].descendants
    ensures k in Next(w, a).store
    ensures e in Next(w, a).store[k].descendants <==> !Loses(w, a, k, e)
  {
    LostByStep(w, a, k, e);
    if Loses(w, a, k, e) {
      var copy :| WritesFrom(w, a, k, copy) && Drops(w, a, copy, e);
      DroppedIsLost(w, a, k, copy, e);
    }
  }

  // ---------------------------------------------------------------- every interleaving

  /** This step takes the entry out of the index, for one of those reasons. */
  ghost predicate TakesOut(w: World, a: Act, k: IndexKey, e: DescendantEntry) {
    && k in w.store && e in w.store[k].descendants
    && k in Next(w, a).store && e !in Next(w, a).store[k].descendants
    && Loses(w, a, k, e)
  }

  ghost predicate TakenOutAt(w: World, acts: seq<Act>, n: nat, k: IndexKey, e: DescendantEntry) {
    n < |acts| && TakesOut(Exec(w, acts[..n]), acts[n], k, e)
  }

  /** In every interleaving, however stale the copies: an entry that disappears from an index that stays was taken out
      at a step that wrote the registry from a copy without the entry, or pruned a copy in which it had expired. */
  lemma {:induction false} LossHasACause(w: World, acts: seq<Act>, k: IndexKey, e: DescendantEntry)
    requires k in w.store && !Deletes(acts, k) && e in w.store[k].descendants
    ensures k in Exec(w, acts).store
    ensures e in Exec(w, acts).store[k].descendants || exists n: nat :: TakenOutAt(w, acts, n, k, e)
  {
    IndexStays(w, acts, k);
    if acts != [] {
      var n := |acts| - 1;
      var init, a := acts[..n], acts[n];
      NotDeleted(acts, k);
      LossHasACause(w, init, k, e);
      if e in Exec(w, init).store[k].descendants {
        LostByStep(Exec(w, init), a, k, e);
        assert e in Exec(w, acts).store[k].descendants || TakenOutAt(w, acts, n, k, e);
      } else {
        var m: nat :| TakenOutAt(w, init, m, k, e);
        assert acts[..m] == init[..m] && acts[m] == init[m];
        assert TakenOutAt(w, acts, m, k, e);
      }
    }
  }

  // ---------------------------------------------------------------- current copies

  /** Whatever is written to the registry of k comes from a current copy of it. */
  ghost predicate CurrentOn(w: World, a: Act, k: IndexKey) {
    forall copy :: WritesFrom(w, a, k, copy) && k in w.store ==>
      copy.descendants == w.store[k].descendants && (a.PruneL? ==> copy.retention == w.store[k].retention)
  }

  ghost predicate CurrentRunOn(w: World, acts: seq<Act>, k: IndexKey) {
    forall n: nat :: n < |acts| ==> CurrentOn(Exec(w, acts[..n]), acts[n], k)
  }

  lemma CurrentIsCurrentOn(w: World, a: Act, k: IndexKey)
    requires Current(w, a)
    ensures CurrentOn(w, a, k)
  {
  }

  lemma {:induction false} CurrentAt(w: World, acts: seq<Act>, n: nat)
    requires CurrentRun(w, acts) && n < |acts|
    ensures Current(Exec(w, acts[..n]), acts[n])
    decreases |acts|
  {
    var init := acts[..|acts| - 1];
    if n < |init| {
      CurrentAt(w, init, n);
      assert init[..n] == acts[..n] && init[n] == acts[n];
    }
  }

  /** Current runs are current on every index. */
  lemma CurrentRunsAreCurrentOn(w: World, acts: seq<Act>, k: IndexKey)
    requires CurrentRun(w, acts)
    ensures CurrentRunOn(w, acts, k)
  {
    forall n: nat | n < |acts| ensures CurrentOn(Exec(w, acts[..n]), acts[n], k) {
      CurrentAt(w, acts, n);
      CurrentIsCurrentOn(Exec(w, acts[..n]), acts[n], k);
    }
  }

  /** This step is a prune of this index, by the rules of retention, and takes the entry out. */
  ghost predicate PrunesEntry(w: World, a: Act, k: IndexKey, e: DescendantEntry) {
    && a.PruneL? && a.pid in w.lin && w.lin[a.pid].key == k
    && k in w.store && k in Next(w, a).store && e !in Next(w, a).store[k].descendants
    && var ix := w.store[k];
       && |a.seen| == |ix.descendants|
       && exists i :: 0 <= i < |ix.descendants| && ix.descendants[i] == e && Expired(ix, a, i)
  }

  ghost predicate PrunedAt(w: World, acts: seq<Act>, n: nat, k: IndexKey, e: DescendantEntry) {
    n < |acts| && PrunesEntry(Exec(w, acts[..n]), acts[n], k, e)
  }

  lemma CurrentLossIsPruning(w: World, a: Act, k: IndexKey, e: DescendantEntry)
    requires TakesOut(w, a, k, e) && CurrentOn(w, a, k)
    ensures PrunesEntry(w, a, k, e)
  {
    var copy :| WritesFrom(w, a, k, copy) && Drops(w, a, copy, e);
    assert e in copy.descendants;
    var ix := w.store[k];
    var i :| 0 <= i < |copy.descendants| && copy.descendants[i] == e && Expired(copy, a, i);
    assert ix.descendants[i] == e && Expired(ix, a, i);
  }

  /** When only current copies are written to an index that stays, whatever goes on elsewhere, an entry that disappears
      was taken out by a prune of that index: it had a timestamp, its age had reached the window in force, and its
      object was confirmed gone. */
  lemma LossIsPruning(w: World, acts: seq<Act>, k: IndexKey, e: DescendantEntry)
    requires CurrentRunOn(w, acts, k) && k in w.store && !Deletes(acts, k) && e in w.store[k].descendants
    ensures k in Exec(w, acts).store
    ensures e in Exec(w, acts).store[k].descendants || exists n: nat :: PrunedAt(w, acts, n, k, e)
  {
    LossHasACause(w, acts, k, e);
    if e !in Exec(w, acts).store[k].descendants {
      var n: nat :| TakenOutAt(w, acts, n, k, e);
      CurrentLossIsPruning(Exec(w, acts[..n]), acts[n], k, e);
      assert PrunedAt(w, acts, n, k, e);
    }
  }

  // ---------------------------------------------------------------- a prune racing an append

  /** A lineage reconcile that read before an append and prunes after it takes the new entry out with the old ones,
      for every index with something to prune: the append itself had a current copy. */
  lemma StalePruneLoses(w: World, p: nat, root: Root, i: nat, d: Derived, seen: seq<Existence>, now: int, k: IndexKey)
    requires RootKey(root) == k && Target(d) == Some(k) && k in w.store && |seen| == |w.store[k].descendants|
    requires !Listed(w.store[k].descendants, d.uid) && KeptOf(w.store[k], seen, now) != w.store[k].descendants
    ensures var s := Exec(w, [ReadL(p, root), ReadD(i, d), AppendD(i, now), PruneL(p, seen, now)]).store;
            k in s && s[k].descendants == KeptOf(w.store[k], seen, now) && !Listed(s[k].descendants, d.uid)
  {
    var ix := w.store[k];
    ExecFour(w, ReadL(p, root), ReadD(i, d), AppendD(i, now), PruneL(p, seen, now));
    ReadsBeforeRace(w, p, root, i, d, k);
    var v := ReadDStep(ReadLStep(w, p, root), i, d);
    AppendThenPrune(v, p, Keeper(k, root, ix), i, Watcher(k, d, ix), seen, now);
    KeptNotListed(ix, seen, now, d.uid);
  }

  lemma KeptNotListed(ix: Index, seen: seq<Existence>, now: int, uid: string)
    requires |seen| == |ix.descendants| && !Listed(ix.descendants, uid)
    ensures !Listed(KeptOf(ix, seen, now), uid)
  {
    KeptSubset(ix, seen, now);
    var kept := KeptOf(ix, seen, now);
    forall x | 0 <= x < |kept| ensures kept[x].uid != uid {
      assert kept[x] in kept;
    }
  }

  /** The append of that run was current, and had put its entry in. */
  lemma RacingAppendIsCurrent(w: World, p: nat, root: Root, i: nat, d: Derived, now: int, k: IndexKey)
    requires RootKey(root) == k && Target(d) == Some(k) && k in w.store && !Listed(w.store[k].descendants, d.uid)
    ensures var v := Exec(w, [ReadL(p, root), ReadD(i, d)]); var u := Next(v, AppendD(i, now));
            CurrentOn(v, AppendD(i, now), k) && k in u.store && Listed(u.store[k].descendants, d.uid)
  {
    ExecPair(w, ReadL(p, root), ReadD(i, d));
    ReadsBeforeRace(w, p, root, i, d, k);
    AppendLists(ReadDStep(ReadLStep(w, p, root), i, d), i, Watcher(k, d, w.store[k]), now);
  }

  lemma AppendLists(w: World, i: nat, y: Watcher, now: int)
    requires i in w.desc && w.desc[i] == y && y.key in w.store && w.store[y.key] == y.snap
    requires !Listed(y.snap.descendants, y.d.uid)
    ensures CurrentOn(w, AppendD(i, now), y.key)
    ensures var v := AppendDStep(w, i, now); y.key in v.store && Listed(v.store[y.key].descendants, y.d.uid)
  {
    assert AppendDStep(w, i, now).store[y.key].descendants[|y.snap.descendants|].uid == y.d.uid;
  }

  lemma ReadsBeforeRace(w: World, p: nat, root: Root, i: nat, d: Derived, k: IndexKey)
    requires RootKey(root) == k && Target(d) == Some(k) && k in w.store
    ensures ReadDStep(ReadLStep(w, p, root), i, d)
            == w.(lin := w.lin[p := Keeper(k, root, w.store[k])], desc := w.desc[i := Watcher(k, d, w.store[k])])
  {
  }

  lemma AppendThenPrune(w: World, p: nat, x: Keeper, i: nat, y: Watcher, seen: seq<Existence>, now: int)
    requires p in w.lin && w.lin[p] == x && i in w.desc && w.desc[i] == y && x.key == y.key && x.snap == y.snap
    requires x.key in w.store && w.store[x.key] == x.snap
    requires |seen| == |x.snap.descendants| && KeptOf(x.snap, seen, now) != x.snap.descendants
    requires !Listed(x.snap.descendants, y.d.uid)
    ensures var v := AppendDStep(w, i, now);
            && x.key in PruneStep(v, p, seen, now).store
            && PruneStep(v, p, seen, now).store[x.key].descendants == KeptOf(x.snap, seen, now)
  {
    assert AppendDStep(w, i, now).lin == w.lin;
  }
}
