/** Where entries come from, in every interleaving; and that each write of a reconcile is a merge patch the
    admission gates let through. */
module LineageTrace {
  import opened Text
  import opened Lineage
  import opened Retention
  import opened Outcome
  import opened LineageRuns
  import LineageSerial
  import MergePatch
  import Admission

  // ---------------------------------------------------------------- origins

  /** This step makes this entry for this index, out of a derived object that points at the index. */
  ghost predicate BuiltBy(w: World, a: Act, k: IndexKey, x: DescendantEntry) {
    a.AppendD? && a.pid in w.desc
    && var p := w.desc[a.pid]; p.key == k && Target(p.d) == Some(k) && x == EntryFor(p.snap, p.d, a.now)
  }

  /** This step makes this outcome, out of the first decisive condition of a derived object that points at the index. */
  ghost predicate JudgedBy(w: World, a: Act, k: IndexKey, x: OutcomeEntry) {
    a.AppendO? && a.pid in w.out
    && var p := w.out[a.pid];
       p.key == k && Target(p.d) == Some(k)
       && exists i :: FirstDecisive(p.d.conditions, i) && x == OutcomeFor(p.d, VerdictOf(p.d.conditions[i]), a.now)
  }

  type EntryTest = (IndexKey, DescendantEntry) -> bool
  type OutcomeTest = (IndexKey, OutcomeEntry) -> bool

  ghost predicate AllD(t: EntryTest, k: IndexKey, ds: seq<DescendantEntry>) {
    forall i :: 0 <= i < |ds| ==> t(k, ds[i])
  }

  ghost predicate AllO(u: OutcomeTest, k: IndexKey, es: seq<OutcomeEntry>) {
    forall i :: 0 <= i < |es| ==> u(k, es[i])
  }

  ghost predicate StorePasses(s: Store, t: EntryTest, u: OutcomeTest) {
    forall k :: k in s ==> AllD(t, k, s[k].descendants) && AllO(u, k, s[k].outcomes)
  }

  ghost predicate DescPasses(ps: map<nat, Watcher>, t: EntryTest) {
    forall i :: i in ps ==> Target(ps[i].d) == Some(ps[i].key) && AllD(t, ps[i].key, ps[i].snap.descendants)
  }

  ghost predicate OutPasses(ps: map<nat, Watcher>, u: OutcomeTest) {
    forall i :: i in ps ==> Target(ps[i].d) == Some(ps[i].key) && AllO(u, ps[i].key, ps[i].snap.outcomes)
  }

  ghost predicate LinPasses(ps: map<nat, Keeper>, t: EntryTest) {
    forall i :: i in ps ==> AllD(t, ps[i].key, ps[i].snap.descendants)
  }

  /** Whatever list there is, stored or in a reconcile's copy, holds only entries that pass. */
  ghost predicate Passes(w: World, t: EntryTest, u: OutcomeTest) {
    StorePasses(w.store, t, u) && DescPasses(w.desc, t) && OutPasses(w.out, u) && LinPasses(w.lin, t)
  }

  lemma AppendDPasses(w: World, pid: nat, now: int, t: EntryTest, u: OutcomeTest)
    requires Passes(w, t, u) && forall k, x :: BuiltBy(w, AppendD(pid, now), k, x) ==> t(k, x)
    ensures Passes(AppendDStep(w, pid, now), t, u)
  {
    if pid in w.desc {
      var p := w.desc[pid];
      assert BuiltBy(w, AppendD(pid, now), p.key, EntryFor(p.snap, p.d, now));
    }
  }

  lemma AppendOPasses(w: World, pid: nat, now: int, t: EntryTest, u: OutcomeTest)
    requires Passes(w, t, u) && forall k, x :: JudgedBy(w, AppendO(pid, now), k, x) ==> u(k, x)
    ensures Passes(AppendOStep(w, pid, now), t, u)
  {
    if pid in w.out && WantsO(w.out[pid], now).Some? {
      var p := w.out[pid];
      var i := FirstOf(p.d.conditions);
      assert JudgedBy(w, AppendO(pid, now), p.key, OutcomeFor(p.d, VerdictOf(p.d.conditions[i]), now));
    }
  }

  lemma {:induction false} FirstOf(cs: seq<RawCondition>) returns (i: int)
    requires Classify(cs).Some?
    ensures FirstDecisive(cs, i) && Classify(cs) == Some(VerdictOf(cs[i]))
  {
    if Decisive(cs[0]) {
      i := 0;
    } else {
      var j := FirstOf(cs[1..]);
      i := j + 1;
      assert forall x :: 1 <= x < i ==> cs[x] == cs[1..][x - 1];
    }
  }

  lemma PrunePasses(w: World, pid: nat, seen: seq<Existence>, now: int, t: EntryTest, u: OutcomeTest)
    requires Passes(w, t, u)
    ensures Passes(PruneStep(w, pid, seen, now), t, u)
  {
    if pid in w.lin && |seen| == |w.lin[pid].snap.descendants| {
      var p := w.lin[pid];
      var kept := KeptOf(p.snap, seen, now);
      var at := KeptIsFilter(p.snap.descendants, seen, now, Window(Days(p.snap.retention)));
      assert AllD(t, p.key, kept);
      assert StorePasses(PatchD(w.store, p.key, kept), t, u);
    }
  }

  lemma NextPasses(w: World, a: Act, t: EntryTest, u: OutcomeTest)
    requires Passes(w, t, u)
    requires forall k, x :: BuiltBy(w, a, k, x) ==> t(k, x)
    requires forall k, x :: JudgedBy(w, a, k, x) ==> u(k, x)
    ensures Passes(Next(w, a), t, u)
  {
    match a
    case AppendD(pid, now) => AppendDPasses(w, pid, now, t, u);
    case AppendO(pid, now) => AppendOPasses(w, pid, now, t, u);
    case PruneL(pid, seen, now) => PrunePasses(w, pid, seen, now, t, u);
    case _ => QuietPasses(w, a, t, u);
  }

  lemma ReadPasses(w: World, pid: nat, d: Derived, t: EntryTest, u: OutcomeTest)
    requires Passes(w, t, u)
    ensures Passes(ReadDStep(w, pid, d), t, u) && Passes(ReadOStep(w, pid, d), t, u)
  {
    var seen := Look(w.store, d);
    assert seen.Some? ==> AllD(t, seen.value.key, seen.value.snap.descendants);
    assert seen.Some? ==> AllO(u, seen.value.key, seen.value.snap.outcomes);
  }

  lemma QuietPasses(w: World, a: Act, t: EntryTest, u: OutcomeTest)
    requires Passes(w, t, u) && !a.AppendD? && !a.AppendO? && !a.PruneL?
    ensures Passes(Next(w, a), t, u)
  {
    match a
    case ReadD(pid, d) => ReadPasses(w, pid, d, t, u);
    case ReadO(pid, d) => ReadPasses(w, pid, d, t, u);
    case ReadL(pid, root) =>
    case OwnL(pid) => OwnPasses(w, pid, t, u);
    case CreateIndex(root) => CreatePasses(w, root, t, u);
    case DeleteIndex(k) =>
    case SetRetention(k, policy) => RetentionPasses(w, k, policy, t, u);
  }

  lemma OwnPasses(w: World, pid: nat, t: EntryTest, u: OutcomeTest)
    requires Passes(w, t, u)
    ensures Passes(OwnStep(w, pid), t, u)
  {
  }

  lemma CreatePasses(w: World, root: Root, t: EntryTest, u: OutcomeTest)
    requires Passes(w, t, u)
    ensures Passes(CreateStep(w, root), t, u)
  {
  }

  lemma RetentionPasses(w: World, k: IndexKey, policy: Option<Lineage.Retention>, t: EntryTest, u: OutcomeTest)
    requires Passes(w, t, u)
    ensures Passes(RetentionStep(w, k, policy), t, u)
  {
  }

  lemma PassesWeaken(w: World, t: EntryTest, u: OutcomeTest, t': EntryTest, u': OutcomeTest)
    requires Passes(w, t, u)
    requires forall k, x :: t(k, x) ==> t'(k, x)
    requires forall k, x :: u(k, x) ==> u'(k, x)
    ensures Passes(w, t', u')
  {
  }

  ghost predicate IsBuilt(acts: seq<Act>, k: IndexKey, x: DescendantEntry) {
    exists n: nat :: n < |acts| && BuiltBy(Exec(EMPTY, acts[..n]), acts[n], k, x)
  }

  ghost predicate IsJudged(acts: seq<Act>, k: IndexKey, x: OutcomeEntry) {
    exists n: nat :: n < |acts| && JudgedBy(Exec(EMPTY, acts[..n]), acts[n], k, x)
  }

  ghost function BuiltIn(acts: seq<Act>): EntryTest { (k, x) => IsBuilt(acts, k, x) }

  ghost function JudgedIn(acts: seq<Act>): OutcomeTest { (k, x) => IsJudged(acts, k, x) }

  lemma OriginsGrow(init: seq<Act>, a: Act)
    ensures forall k, x :: IsBuilt(init, k, x) ==> IsBuilt(init + [a], k, x)
    ensures forall k, x :: IsJudged(init, k, x) ==> IsJudged(init + [a], k, x)
    ensures forall k, x :: BuiltBy(Exec(EMPTY, init), a, k, x) ==> IsBuilt(init + [a], k, x)
    ensures forall k, x :: JudgedBy(Exec(EMPTY, init), a, k, x) ==> IsJudged(init + [a], k, x)
  {
    var acts := init + [a];
    assert forall n: nat :: n <= |init| ==> acts[..n] == init[..n];
    assert init[..|init|] == init && acts[|init|] == a;
    forall k, x | IsBuilt(init, k, x) ensures IsBuilt(acts, k, x) {
      var n: nat :| n < |init| && BuiltBy(Exec(EMPTY, init[..n]), init[n], k, x);
      assert acts[n] == init[n];
    }
    forall k, x | IsJudged(init, k, x) ensures IsJudged(acts, k, x) {
      var n: nat :| n < |init| && JudgedBy(Exec(EMPTY, init[..n]), init[n], k, x);
      assert acts[n] == init[n];
    }
  }

  lemma {:induction false} RunsAreTraced(acts: seq<Act>)
    ensures Passes(Exec(EMPTY, acts), BuiltIn(acts), JudgedIn(acts))
  {
    if acts != [] {
      var init, a := acts[..|acts| - 1], acts[|acts| - 1];
      assert acts == init + [a];
      RunsAreTraced(init);
      OriginsGrow(init, a);
      PassesWeaken(Exec(EMPTY, init), BuiltIn(init), JudgedIn(init), BuiltIn(acts), JudgedIn(acts));
      NextPasses(Exec(EMPTY, init), a, BuiltIn(acts), JudgedIn(acts));
    }
  }

  lemma StoredPasses(w: World, t: EntryTest, u: OutcomeTest, k: IndexKey)
    requires Passes(w, t, u) && k in w.store
    ensures forall x :: x in w.store[k].descendants ==> t(k, x)
    ensures forall x :: x in w.store[k].outcomes ==> u(k, x)
  {
    assert AllD(t, k, w.store[k].descendants) && AllO(u, k, w.store[k].outcomes);
  }

  /** In every interleaving from nothing, each entry of an index was made by some append from a derived object whose
      labels point at that index. */
  lemma EntriesComeFromTheirObjects(acts: seq<Act>, k: IndexKey, x: DescendantEntry)
    requires k in Exec(EMPTY, acts).store && x in Exec(EMPTY, acts).store[k].descendants
    ensures IsBuilt(acts, k, x)
  {
    RunsAreTraced(acts);
    StoredPasses(Exec(EMPTY, acts), BuiltIn(acts), JudgedIn(acts), k);
  }

  /** In every interleaving from nothing, each recorded outcome is that of the first decisive condition, in list
      order, of a derived object whose labels point at the index. */
  lemma OutcomesAreFirstDecisive(acts: seq<Act>, k: IndexKey, x: OutcomeEntry)
    requires k in Exec(EMPTY, acts).store && x in Exec(EMPTY, acts).store[k].outcomes
    ensures IsJudged(acts, k, x)
  {
    RunsAreTraced(acts);
    StoredPasses(Exec(EMPTY, acts), BuiltIn(acts), JudgedIn(acts), k);
  }

  // ---------------------------------------------------------------- writes are merge patches

  /** What an append or a prune stores is the merge patch between the copy and its modification, on whatever is
      stored by then. */
  lemma AppendIsMergePatch(w: World, pid: nat, now: int)
    requires pid in w.desc && w.desc[pid].key in w.store && WantsD(w.desc[pid], now).Some?
    ensures var p := w.desc[pid]; var after := AppendDStep(w, pid, now).store;
            p.key in after
            && MergePatch.Object(MergePatch.Encode(after[p.key]))
               == MergePatch.Patched(w.store[p.key], p.snap, p.snap.(descendants := WantsD(p, now).value))
  {
    var p := w.desc[pid];
    MergePatch.DescendantsPatch(w.store[p.key], p.snap, WantsD(p, now).value);
    assert |WantsD(p, now).value| == |p.snap.descendants| + 1;
  }

  lemma PruneIsMergePatch(w: World, pid: nat, seen: seq<Existence>, now: int)
    requires pid in w.lin && w.lin[pid].key in w.store && |seen| == |w.lin[pid].snap.descendants|
    ensures var p := w.lin[pid]; var after := PruneStep(w, pid, seen, now).store;
            p.key in after
            && MergePatch.Object(MergePatch.Encode(after[p.key]))
               == MergePatch.Patched(w.store[p.key], p.snap, p.snap.(descendants := KeptOf(p.snap, seen, now)))
  {
    var p := w.lin[pid];
    MergePatch.DescendantsPatch(w.store[p.key], p.snap, KeptOf(p.snap, seen, now));
  }

  lemma OutcomeIsMergePatch(w: World, pid: nat, now: int)
    requires pid in w.out && w.out[pid].key in w.store && WantsO(w.out[pid], now).Some?
    ensures var p := w.out[pid]; var after := AppendOStep(w, pid, now).store;
            p.key in after
            && MergePatch.Object(MergePatch.Encode(after[p.key]))
               == MergePatch.Patched(w.store[p.key], p.snap, p.snap.(outcomes := WantsO(p, now).value))
  {
    var p := w.out[pid];
    MergePatch.OutcomesPatch(w.store[p.key], p.snap, WantsO(p, now).value);
    assert |WantsO(p, now).value| == |p.snap.outcomes| + 1;
  }

  lemma OwnerIsMergePatch(w: World, pid: nat)
    requires pid in w.lin && w.lin[pid].key in w.store && WantsOwners(w.lin[pid]).Some?
    ensures var p := w.lin[pid]; var after := OwnStep(w, pid).store;
            p.key in after
            && MergePatch.Object(MergePatch.Encode(after[p.key]))
               == MergePatch.Patched(w.store[p.key], p.snap, p.snap.(owners := WantsOwners(p).value))
  {
    var p := w.lin[pid];
    MergePatch.OwnersPatch(w.store[p.key], p.snap, WantsOwners(p).value);
    assert |WantsOwners(p).value| == |p.snap.owners| + 1;
  }

  // ---------------------------------------------------------------- and admitted

  /** In every run, from any world, every update a reconcile makes to a stored index passes both gates, however
      stale the copy it was computed from: the binding it leaves behind is the one that was there. */
  lemma StepsAreAdmitted<J>(parse: Admission.Parser<J>, encode: RootBinding -> string, w: World, acts: seq<Act>,
                            a: Act, k: IndexKey)
    requires forall b :: parse(encode(b)).Some?
    requires k in Exec(w, acts).store && a != DeleteIndex(k)
    ensures k in Next(Exec(w, acts), a).store
    ensures Admission.Admits(parse, encode(Exec(w, acts).store[k].binding),
                             Admission.Request(Admission.INDEX_KIND, Admission.Update, Admission.CONTROLLER,
                                               encode(Next(Exec(w, acts), a).store[k].binding)))
  {
    var v := Exec(w, acts);
    LineageSerial.BindingStays(v, a, k);
    Admission.RawEqualLaws(parse, encode(v.store[k].binding), "", "");
  }

  /** Hence over any run an index that is not deleted keeps the binding it was created with. */
  lemma {:induction false} BindingNeverChanges(w: World, acts: seq<Act>, k: IndexKey)
    requires k in w.store && !LineageSerial.Deletes(acts, k)
    ensures k in Exec(w, acts).store && Exec(w, acts).store[k].binding == w.store[k].binding
  {
    if acts != [] {
      var init, a := acts[..|acts| - 1], acts[|acts| - 1];
      LineageSerial.NotDeleted(acts, k);
      BindingNeverChanges(w, init, k);
      LineageSerial.BindingStays(Exec(w, init), a, k);
    }
  }
}
