/** Runs in which a patch lands on the list it was computed from, as when each read-to-patch is one step: what the
    registries then promise, and what is lost without that. */
module LineageSerial {
  import opened Text
  import opened Lineage
  import opened Retention
  import opened Outcome
  import opened LineageRuns

  // ---------------------------------------------------------------- read and patch as one step

  function SerialD(s: Store, d: Derived, now: int): Store {
    match Look(s, d)
    case None => s
    case Some(p) => if WantsD(p, now).Some? then PatchD(s, p.key, WantsD(p, now).value) else s
  }

  function SerialO(s: Store, d: Derived, now: int): Store {
    match Look(s, d)
    case None => s
    case Some(p) => if WantsO(p, now).Some? then PatchO(s, p.key, WantsO(p, now).value) else s
  }

  lemma ExecSnoc(w: World, acts: seq<Act>, a: Act)
    ensures Exec(w, acts + [a]) == Next(Exec(w, acts), a)
  {
    assert (acts + [a])[..|acts|] == acts;
  }

  lemma ExecPair(w: World, a: Act, b: Act)
    ensures Exec(w, [a, b]) == Next(Next(w, a), b)
  {
    ExecSnoc(w, [], a);
    ExecSnoc(w, [a], b);
    assert [] + [a] == [a] && [a] + [b] == [a, b];
  }

  lemma {:induction false} ExecConcat(w: World, one: seq<Act>, two: seq<Act>)
    ensures Exec(w, one + two) == Exec(Exec(w, one), two)
  {
    if two == [] {
      assert one + two == one;
    } else {
      var init, a := two[..|two| - 1], two[|two| - 1];
      ExecConcat(w, one, init);
      assert one + two == (one + init) + [a];
      ExecSnoc(w, one + init, a);
    }
  }

  lemma ExecFour(w: World, a: Act, b: Act, c: Act, d: Act)
    ensures Exec(w, [a, b, c, d]) == Next(Next(Next(Next(w, a), b), c), d)
  {
    ExecPair(w, a, b);
    ExecPair(Exec(w, [a, b]), c, d);
    ExecConcat(w, [a, b], [c, d]);
    assert [a, b] + [c, d] == [a, b, c, d];
  }

  lemma PairIsSerialD(w: World, pid: nat, d: Derived, now: int)
    requires pid !in w.desc
    ensures Exec(w, [ReadD(pid, d), AppendD(pid, now)]).store == SerialD(w.store, d, now)
    ensures Exec(w, [ReadD(pid, d), AppendD(pid, now)]).out == w.out
  {
    ExecPair(w, ReadD(pid, d), AppendD(pid, now));
  }

  lemma PairIsSerialO(w: World, pid: nat, d: Derived, now: int)
    requires pid !in w.out
    ensures Exec(w, [ReadO(pid, d), AppendO(pid, now)]).store == SerialO(w.store, d, now)
  {
    ExecPair(w, ReadO(pid, d), AppendO(pid, now));
  }

  lemma ErasedD(pid: nat, d: Derived, now: int)
    ensures var acts := [ReadD(pid, d), AppendD(pid, now)]; WithoutOutcomes(acts) == acts && OutcomesOnly(acts) == []
  {
    var r, a := ReadD(pid, d), AppendD(pid, now);
    assert [r, a][..1] == [r] && [r][..0] == [];
    assert WithoutOutcomes([r]) == [r] && OutcomesOnly([r]) == [];
  }

  lemma ErasedO(pid: nat, d: Derived, now: int)
    ensures var acts := [ReadO(pid, d), AppendO(pid, now)]; WithoutOutcomes(acts) == [] && OutcomesOnly(acts) == acts
  {
    var r, a := ReadO(pid, d), AppendO(pid, now);
    assert [r, a][..1] == [r] && [r][..0] == [];
    assert WithoutOutcomes([r]) == [] && OutcomesOnly([r]) == [r];
  }

  lemma ErasureSnoc(acts: seq<Act>, a: Act)
    ensures WithoutOutcomes(acts + [a]) == WithoutOutcomes(acts) + (if OfOutcomes(a) then [] else [a])
    ensures OutcomesOnly(acts + [a]) == OutcomesOnly(acts) + (if OfOthers(a) then [] else [a])
  {
    assert (acts + [a])[..|acts|] == acts;
  }

  lemma {:induction false} ErasureConcat(one: seq<Act>, two: seq<Act>)
    ensures WithoutOutcomes(one + two) == WithoutOutcomes(one) + WithoutOutcomes(two)
    ensures OutcomesOnly(one + two) == OutcomesOnly(one) + OutcomesOnly(two)
  {
    if two == [] {
      assert one + two == one;
    } else {
      var init, a := two[..|two| - 1], two[|two| - 1];
      assert one + two == (one + init) + [a] && two == init + [a];
      ErasureConcat(one, init);
      ErasureStep(one, init, a);
    }
  }

  lemma ErasureStep(one: seq<Act>, init: seq<Act>, a: Act)
    requires WithoutOutcomes(one + init) == WithoutOutcomes(one) + WithoutOutcomes(init)
    requires OutcomesOnly(one + init) == OutcomesOnly(one) + OutcomesOnly(init)
    ensures WithoutOutcomes(one + init + [a]) == WithoutOutcomes(one) + WithoutOutcomes(init + [a])
    ensures OutcomesOnly(one + init + [a]) == OutcomesOnly(one) + OutcomesOnly(init + [a])
  {
    ErasureSnoc(init, a);
    ErasureSnoc(one + init, a);
    Joined(WithoutOutcomes(one), WithoutOutcomes(init), if OfOutcomes(a) then [] else [a],
           WithoutOutcomes(one + init), WithoutOutcomes(init + [a]), WithoutOutcomes(one + init + [a]));
    Joined(OutcomesOnly(one), OutcomesOnly(init), if OfOthers(a) then [] else [a],
           OutcomesOnly(one + init), OutcomesOnly(init + [a]), OutcomesOnly(one + init + [a]));
  }

  /** A descendant reconcile and an outcome reconcile of the same index or of different ones, woven together in any
      way: the result is that of running the one after the other. */
  lemma AppendsCommute(w: World, acts: seq<Act>, i: nat, d: Derived, now: int, j: nat, e: Derived, later: int)
    requires i !in w.desc && j !in w.out
    requires WithoutOutcomes(acts) == [ReadD(i, d), AppendD(i, now)]
    requires OutcomesOnly(acts) == [ReadO(j, e), AppendO(j, later)]
    ensures Exec(w, acts).store == SerialO(SerialD(w.store, d, now), e, later)
  {
    var one, two := [ReadD(i, d), AppendD(i, now)], [ReadO(j, e), AppendO(j, later)];
    ErasedD(i, d, now);
    ErasedO(j, e, later);
    ErasureConcat(one, two);
    assert one + [] == one && [] + two == two;
    WeavingDoesNotMatter(w, acts, one + two);
    ExecConcat(w, one, two);
    PairIsSerialD(w, i, d, now);
    PairIsSerialO(Exec(w, one), j, e, later);
  }

  /** In particular neither entry is lost. */
  lemma NeitherEntryIsLost(w: World, acts: seq<Act>, i: nat, d: Derived, now: int, j: nat, e: Derived, later: int,
                           k: IndexKey)
    requires i !in w.desc && j !in w.out
    requires WithoutOutcomes(acts) == [ReadD(i, d), AppendD(i, now)]
    requires OutcomesOnly(acts) == [ReadO(j, e), AppendO(j, later)]
    requires Target(d) == Some(k) && Target(e) == Some(k) && k in w.store && Classify(e.conditions).Some?
    ensures k in Exec(w, acts).store
    ensures Listed(Exec(w, acts).store[k].descendants, d.uid) && Recorded(Exec(w, acts).store[k].outcomes, e.uid)
  {
    AppendsCommute(w, acts, i, d, now, j, e, later);
    SerialDLists(w.store, d, now, k);
    SerialORecords(SerialD(w.store, d, now), e, later, k);
  }

  lemma SerialDLists(s: Store, d: Derived, now: int, k: IndexKey)
    requires Target(d) == Some(k) && k in s
    ensures k in SerialD(s, d, now) && Listed(SerialD(s, d, now)[k].descendants, d.uid)
  {
    var ds := s[k].descendants;
    if !Listed(ds, d.uid) {
      assert SerialD(s, d, now)[k].descendants[|ds|].uid == d.uid;
    }
  }

  lemma SerialORecords(s: Store, d: Derived, now: int, k: IndexKey)
    requires Target(d) == Some(k) && k in s && Classify(d.conditions).Some?
    ensures k in SerialO(s, d, now) && Recorded(SerialO(s, d, now)[k].outcomes, d.uid)
    ensures SerialO(s, d, now)[k].descendants == s[k].descendants
  {
    var es := s[k].outcomes;
    if !Recorded(es, d.uid) {
      assert SerialO(s, d, now)[k].outcomes[|es|].derivedObjectUID == d.uid;
    }
  }

  // ---------------------------------------------------------------- stale appends

  /** A patch by a descendant reconcile adds to what is stored exactly when its copy is current. */
  lemma AppendsOnlyIffCurrent(s: Store, p: Watcher, now: int)
    requires p.key in s && WantsD(p, now).Some?
    ensures (exists e :: PatchD(s, p.key, WantsD(p, now).value)[p.key].descendants == s[p.key].descendants + [e])
            <==> s[p.key].descendants == p.snap.descendants
  {
    var after := PatchD(s, p.key, WantsD(p, now).value)[p.key].descendants;
    var entry := EntryFor(p.snap, p.d, now);
    assert after == p.snap.descendants + [entry];
    if e :| after == s[p.key].descendants + [e] {
      assert p.snap.descendants == after[..|after| - 1] == s[p.key].descendants;
    }
  }

  /** Two descendant reconciles that both read before either writes: the first entry is lost. */
  lemma StaleAppendLoses(w: World, i: nat, d: Derived, j: nat, e: Derived, now: int, k: IndexKey)
    requires i != j && Target(d) == Some(k) && Target(e) == Some(k) && d.uid != e.uid && k in w.store
    requires !Listed(w.store[k].descendants, d.uid) && !Listed(w.store[k].descendants, e.uid)
    ensures var s := Exec(w, [ReadD(i, d), ReadD(j, e), AppendD(i, now), AppendD(j, now)]).store;
            k in s && Listed(s[k].descendants, e.uid) && !Listed(s[k].descendants, d.uid)
  {
    ExecFour(w, ReadD(i, d), ReadD(j, e), AppendD(i, now), AppendD(j, now));
    BothRead(w, i, d, j, e, k);
    var ix := w.store[k];
    StaleAppendLands(ReadDStep(ReadDStep(w, i, d), j, e), i, Watcher(k, d, ix), j, Watcher(k, e, ix), now);
    ListedAfter(ix.descendants, EntryFor(ix, e, now), d.uid);
  }

  lemma BothRead(w: World, i: nat, d: Derived, j: nat, e: Derived, k: IndexKey)
    requires i != j && Target(d) == Some(k) && Target(e) == Some(k) && k in w.store
    ensures ReadDStep(ReadDStep(w, i, d), j, e)
            == w.(desc := w.desc[i := Watcher(k, d, w.store[k])][j := Watcher(k, e, w.store[k])])
  {
  }

  lemma ListedAfter(ds: seq<DescendantEntry>, x: DescendantEntry, uid: string)
    requires !Listed(ds, uid) && x.uid != uid
    ensures !Listed(ds + [x], uid) && Listed(ds + [x], x.uid)
  {
    assert (ds + [x])[|ds|].uid == x.uid;
  }

  lemma StaleAppendLands(w: World, i: nat, p: Watcher, j: nat, q: Watcher, now: int)
    requires i != j && i in w.desc && w.desc[i] == p && j in w.desc && w.desc[j] == q
    requires p.key == q.key && p.key in w.store && WantsD(p, now).Some? && WantsD(q, now).Some?
    ensures var s := AppendDStep(AppendDStep(w, i, now), j, now).store;
            q.key in s && s[q.key].descendants == q.snap.descendants + [EntryFor(q.snap, q.d, now)]
  {
    var v := AppendDStep(w, i, now);
    assert v.desc == w.desc - {i} && j in v.desc && v.desc[j] == q;
    assert q.key in v.store;
  }

  // ---------------------------------------------------------------- current runs

  /** The patch a step makes lands on the state it was computed from. */
  ghost predicate Current(w: World, a: Act) {
    && (a.AppendD? && a.pid in w.desc ==>
          var p := w.desc[a.pid];
          p.key in w.store ==>
            w.store[p.key].descendants == p.snap.descendants && w.store[p.key].binding == p.snap.binding)
    && (a.AppendO? && a.pid in w.out ==>
          var p := w.out[a.pid];
          p.key in w.store ==> w.store[p.key].outcomes == p.snap.outcomes)
    && (a.PruneL? && a.pid in w.lin ==>
          var p := w.lin[a.pid];
          p.key in w.store ==>
            w.store[p.key].descendants == p.snap.descendants && w.store[p.key].retention == p.snap.retention)
  }

  ghost predicate CurrentRun(w: World, acts: seq<Act>) {
    acts == [] || (CurrentRun(w, acts[..|acts| - 1]) && Current(Exec(w, acts[..|acts| - 1]), acts[|acts| - 1]))
  }

  lemma CurrentPair(w: World, a: Act, b: Act)
    requires Current(w, a) && Current(Next(w, a), b)
    ensures CurrentRun(w, [a, b])
  {
    ExecSnoc(w, [], a);
    assert [] + [a] == [a] && [a][..0] == [] && [a, b][..1] == [a];
    assert CurrentRun(w, [a]);
  }

  /** Read and patch without anything in between is current. */
  lemma SerialIsCurrent(w: World, pid: nat, d: Derived, now: int)
    requires pid !in w.desc && pid !in w.out
    ensures CurrentRun(w, [ReadD(pid, d), AppendD(pid, now)])
    ensures CurrentRun(w, [ReadO(pid, d), AppendO(pid, now)])
  {
    CurrentPair(w, ReadD(pid, d), AppendD(pid, now));
    CurrentPair(w, ReadO(pid, d), AppendO(pid, now));
  }

  /** Current runs one after the other are a current run: so is any sequence of serial blocks. */
  lemma {:induction false} CurrentConcat(w: World, one: seq<Act>, two: seq<Act>)
    requires CurrentRun(w, one) && CurrentRun(Exec(w, one), two)
    ensures CurrentRun(w, one + two)
  {
    if two == [] {
      assert one + two == one;
    } else {
      var init, a := two[..|two| - 1], two[|two| - 1];
      assert two == init + [a] && one + two == (one + init) + [a];
      CurrentSnoc(Exec(w, one), init, a);
      CurrentConcat(w, one, init);
      CurrentGoesOn(w, one, init, a);
    }
  }

  lemma CurrentGoesOn(w: World, one: seq<Act>, init: seq<Act>, a: Act)
    requires CurrentRun(w, one + init) && Current(Exec(Exec(w, one), init), a)
    ensures CurrentRun(w, one + init + [a])
  {
    ExecConcat(w, one, init);
    CurrentSnoc(w, one + init, a);
  }

  lemma CurrentSnoc(w: World, acts: seq<Act>, a: Act)
    ensures CurrentRun(w, acts + [a]) <==> CurrentRun(w, acts) && Current(Exec(w, acts), a)
  {
    assert (acts + [a])[..|acts|] == acts;
  }

  lemma SerialPruneIsCurrent(w: World, pid: nat, root: Root, seen: seq<Existence>, now: int)
    requires pid !in w.lin
    ensures CurrentRun(w, [ReadL(pid, root), PruneL(pid, seen, now)])
  {
    CurrentPair(w, ReadL(pid, root), PruneL(pid, seen, now));
  }

  predicate Deletes(acts: seq<Act>, k: IndexKey) {
    exists i :: 0 <= i < |acts| && acts[i] == DeleteIndex(k)
  }

  // ---------------------------------------------------------------- one current step

  ghost predicate Prunes(ix: Index, a: Act, after: seq<DescendantEntry>) {
    a.PruneL? && |a.seen| == |ix.descendants| && after == KeptOf(ix, a.seen, a.now)
  }

  /** A prune of this very index. */
  ghost predicate PrunesAt(w: World, a: Act, k: IndexKey, after: seq<DescendantEntry>)
    requires k in w.store
  {
    Prunes(w.store[k], a, after) && a.pid in w.lin && w.lin[a.pid].key == k
  }

  ghost predicate Appends(w: World, a: Act, k: IndexKey, after: seq<DescendantEntry>)
    requires k in w.store
  {
    && a.AppendD? && a.pid in w.desc && w.desc[a.pid].key == k
    && !Listed(w.store[k].descendants, w.desc[a.pid].d.uid)
    && after == w.store[k].descendants + [EntryFor(w.store[k], w.desc[a.pid].d, a.now)]
  }

  lemma AppendStepD(w: World, a: Act, k: IndexKey)
    requires Current(w, a) && k in w.store && a.AppendD?
    ensures k in Next(w, a).store
    ensures var ds := Next(w, a).store[k].descendants; ds == w.store[k].descendants || Appends(w, a, k, ds)
  {
    if a.pid in w.desc && w.desc[a.pid].key == k {
      var p := w.desc[a.pid];
      assert EntryFor(p.snap, p.d, a.now) == EntryFor(w.store[k], p.d, a.now);
    }
  }

  lemma PruneStepD(w: World, a: Act, k: IndexKey)
    requires Current(w, a) && k in w.store && a.PruneL?
    ensures k in Next(w, a).store
    ensures var ds := Next(w, a).store[k].descendants; ds == w.store[k].descendants || PrunesAt(w, a, k, ds)
  {
  }

  lemma OtherStepD(w: World, a: Act, k: IndexKey)
    requires k in w.store && a != DeleteIndex(k) && !a.AppendD? && !a.PruneL?
    ensures k in Next(w, a).store && Next(w, a).store[k].descendants == w.store[k].descendants
  {
  }

  /** A current step leaves a registry alone, appends one entry with a new UID at its end, or drops entries by the
      rules of retention. */
  lemma CurrentStepD(w: World, a: Act, k: IndexKey)
    requires Current(w, a) && k in w.store && a != DeleteIndex(k)
    ensures k in Next(w, a).store
    ensures var ds := Next(w, a).store[k].descendants;
            ds == w.store[k].descendants || Appends(w, a, k, ds) || PrunesAt(w, a, k, ds)
  {
    if a.AppendD? {
      AppendStepD(w, a, k);
    } else if a.PruneL? {
      PruneStepD(w, a, k);
    } else {
      OtherStepD(w, a, k);
    }
  }

  // ---------------------------------------------------------------- what a current run keeps of a registry

  lemma {:induction false} IndexStays(w: World, acts: seq<Act>, k: IndexKey)
    requires k in w.store && !Deletes(acts, k)
    ensures k in Exec(w, acts).store
  {
    if acts != [] {
      var n := |acts| - 1;
      NotDeleted(acts, k);
      IndexStays(w, acts[..n], k);
    }
  }

  lemma NotDeleted(acts: seq<Act>, k: IndexKey)
    requires acts != [] && !Deletes(acts, k)
    ensures !Deletes(acts[..|acts| - 1], k) && acts[|acts| - 1] != DeleteIndex(k)
  {
    assert forall i :: 0 <= i < |acts| - 1 ==> acts[..|acts| - 1][i] == acts[i];
  }

  /** The first n entries of b are what is left of a, in a's order; the others came later. */
  ghost predicate LeftOf(a: seq<DescendantEntry>, b: seq<DescendantEntry>, n: nat, at: seq<nat>) {
    n <= |b| && Picks(b[..n], a, at)
  }

  lemma {:induction false} CutBelow(at: seq<nat>, bound: nat, n: nat) returns (m: nat)
    requires Increasing(at, bound)
    ensures m <= |at| && (forall i :: 0 <= i < m ==> at[i] < n) && (forall i :: m <= i < |at| ==> n <= at[i])
  {
    m := 0;
    while m < |at| && at[m] < n
      invariant m <= |at| && forall i :: 0 <= i < m ==> at[i] < n
    {
      m := m + 1;
    }
  }

  lemma ThinLeft(a: seq<DescendantEntry>, b: seq<DescendantEntry>, n: nat, at: seq<nat>, c: seq<DescendantEntry>,
                 via: seq<nat>)
    returns (m: nat, at': seq<nat>)
    requires LeftOf(a, b, n, at) && Picks(c, b, via)
    ensures LeftOf(a, c, m, at')
  {
    m := CutBelow(via, |b|, n);
    at' := seq(m, i requires 0 <= i < m => at[via[i]]);
    forall i | 0 <= i < m ensures c[..m][i] == a[at'[i]] {
      assert c[i] == b[via[i]] == b[..n][via[i]];
    }
    assert forall i, j :: 0 <= i < j < m ==> via[i] < via[j];
  }

  /** Over a current run the survivors keep their order, and newcomers stand behind them. */
  lemma {:induction false} SurvivorsKeepOrder(w: World, acts: seq<Act>, k: IndexKey) returns (n: nat, at: seq<nat>)
    requires CurrentRun(w, acts) && k in w.store && !Deletes(acts, k)
    ensures k in Exec(w, acts).store
    ensures LeftOf(w.store[k].descendants, Exec(w, acts).store[k].descendants, n, at)
  {
    IndexStays(w, acts, k);
    var first := w.store[k].descendants;
    if acts == [] {
      n, at := |first|, seq(|first|, i => i);
      assert first[..n] == first;
    } else {
      var init, a := acts[..|acts| - 1], acts[|acts| - 1];
      NotDeleted(acts, k);
      n, at := SurvivorsKeepOrder(w, init, k);
      var mid := Exec(w, init);
      CurrentStepD(mid, a, k);
      n, at := OrderStep(first, mid.store[k], a, Next(mid, a).store[k].descendants, n, at);
    }
  }

  lemma OrderStep(first: seq<DescendantEntry>, ix: Index, a: Act, after: seq<DescendantEntry>, n: nat, at: seq<nat>)
    returns (m: nat, at': seq<nat>)
    requires LeftOf(first, ix.descendants, n, at)
    requires after == ix.descendants || (exists e :: after == ix.descendants + [e]) || Prunes(ix, a, after)
    ensures LeftOf(first, after, m, at')
  {
    if Prunes(ix, a, after) {
      var via := KeptIsFilter(ix.descendants, a.seen, a.now, Window(Days(ix.retention)));
      m, at' := ThinLeft(first, ix.descendants, n, at, after, via);
    } else {
      m, at' := n, at;
      assert after[..n] == ix.descendants[..n];
    }
  }

  // ---------------------------------------------------------------- outcomes only grow

  lemma CurrentStepO(w: World, a: Act, k: IndexKey)
    requires Current(w, a) && k in w.store && a != DeleteIndex(k)
    ensures k in Next(w, a).store && w.store[k].outcomes <= Next(w, a).store[k].outcomes
  {
    if a.AppendO? {
      OutcomeStepGrows(w, a.pid, a.now, k);
    } else {
      OtherStepO(w, a, k);
    }
  }

  lemma OutcomeStepGrows(w: World, pid: nat, now: int, k: IndexKey)
    requires Current(w, AppendO(pid, now)) && k in w.store
    ensures k in AppendOStep(w, pid, now).store && w.store[k].outcomes <= AppendOStep(w, pid, now).store[k].outcomes
  {
    assert Current(w, AppendO(pid, now)) && AppendO(pid, now).pid == pid;
  }

  lemma OtherStepO(w: World, a: Act, k: IndexKey)
    requires k in w.store && a != DeleteIndex(k) && !a.AppendO?
    ensures k in Next(w, a).store && Next(w, a).store[k].outcomes == w.store[k].outcomes
  {
  }

  lemma {:induction false} OutcomesOnlyGrow(w: World, acts: seq<Act>, k: IndexKey)
    requires CurrentRun(w, acts) && k in w.store && !Deletes(acts, k)
    ensures k in Exec(w, acts).store && w.store[k].outcomes <= Exec(w, acts).store[k].outcomes
  {
    if acts != [] {
      var init, a := acts[..|acts| - 1], acts[|acts| - 1];
      NotDeleted(acts, k);
      OutcomesOnlyGrow(w, init, k);
      CurrentStepO(Exec(w, init), a, k);
    }
  }

  /** A patch by an outcome reconcile adds to what is stored exactly when its copy is current. */
  lemma OutcomeAppendsOnlyIffCurrent(s: Store, p: Watcher, now: int)
    requires p.key in s && WantsO(p, now).Some?
    ensures (exists x :: PatchO(s, p.key, WantsO(p, now).value)[p.key].outcomes == s[p.key].outcomes + [x])
            <==> s[p.key].outcomes == p.snap.outcomes
  {
    var after := PatchO(s, p.key, WantsO(p, now).value)[p.key].outcomes;
    var entry := OutcomeFor(p.d, Classify(p.d.conditions).value, now);
    assert after == p.snap.outcomes + [entry];
    if x :| after == s[p.key].outcomes + [x] {
      assert p.snap.outcomes == after[..|after| - 1] == s[p.key].outcomes;
    }
  }

  /** Two outcome reconciles that both read before either writes: the first outcome is lost. */
  lemma StaleOutcomeLoses(w: World, i: nat, d: Derived, j: nat, e: Derived, now: int, k: IndexKey)
    requires i != j && Target(d) == Some(k) && Target(e) == Some(k) && d.uid != e.uid && k in w.store
    requires !Recorded(w.store[k].outcomes, d.uid) && !Recorded(w.store[k].outcomes, e.uid)
    requires Classify(d.conditions).Some? && Classify(e.conditions).Some?
    ensures var s := Exec(w, [ReadO(i, d), ReadO(j, e), AppendO(i, now), AppendO(j, now)]).store;
            k in s && Recorded(s[k].outcomes, e.uid) && !Recorded(s[k].outcomes, d.uid)
  {
    ExecFour(w, ReadO(i, d), ReadO(j, e), AppendO(i, now), AppendO(j, now));
    BothReadO(w, i, d, j, e, k);
    var ix := w.store[k];
    StaleOutcomeLands(ReadOStep(ReadOStep(w, i, d), j, e), i, Watcher(k, d, ix), j, Watcher(k, e, ix), now);
    RecordedAfter(ix.outcomes, OutcomeFor(e, Classify(e.conditions).value, now), d.uid);
  }

  lemma BothReadO(w: World, i: nat, d: Derived, j: nat, e: Derived, k: IndexKey)
    requires i != j && Target(d) == Some(k) && Target(e) == Some(k) && k in w.store
    ensures ReadOStep(ReadOStep(w, i, d), j, e)
            == w.(out := w.out[i := Watcher(k, d, w.store[k])][j := Watcher(k, e, w.store[k])])
  {
  }

  lemma StaleOutcomeLands(w: World, i: nat, p: Watcher, j: nat, q: Watcher, now: int)
    requires i != j && i in w.out && w.out[i] == p && j in w.out && w.out[j] == q
    requires p.key == q.key && p.key in w.store && WantsO(p, now).Some? && WantsO(q, now).Some?
    ensures var s := AppendOStep(AppendOStep(w, i, now), j, now).store;
            q.key in s && Some(s[q.key].outcomes) == WantsO(q, now)
  {
    var v := AppendOStep(w, i, now);
    assert v.out == w.out - {i} && j in v.out && v.out[j] == q;
    assert q.key in v.store;
  }

  lemma RecordedAfter(es: seq<OutcomeEntry>, x: OutcomeEntry, uid: string)
    requires !Recorded(es, uid) && x.derivedObjectUID != uid
    ensures !Recorded(es + [x], uid) && Recorded(es + [x], x.derivedObjectUID)
  {
    assert (es + [x])[|es|].derivedObjectUID == x.derivedObjectUID;
  }

  // ---------------------------------------------------------------- bindings

  lemma BindingStays(w: World, a: Act, k: IndexKey)
    requires k in w.store && a != DeleteIndex(k)
    ensures k in Next(w, a).store && Next(w, a).store[k].binding == w.store[k].binding
  {
  }

  lemma NewIndexIsBuilt(w: World, a: Act, k: IndexKey)
    requires k !in w.store && k in Next(w, a).store
    ensures a.CreateIndex? && Next(w, a).store[k] == Built(a.root)
  {
  }
}
