/** The writers of lineage indexes as a step system. Any number of descendant, outcome and lineage reconciles read
    an index, wait, and patch whatever is stored by then, with no version check; indexes come and go meanwhile.
    A reconcile whose call fails is one that takes no further step. */
module LineageRuns {
  import opened Text
  import opened Lineage
  import opened Retention
  import opened Outcome

  type Store = map<IndexKey, Index>

  /** A descendant or outcome reconcile: the derived object, and the copy of the index it has read. */
  datatype Watcher = Watcher(key: IndexKey, d: Derived, snap: Index)

  /** A lineage reconcile past the creation of the index. */
  datatype Keeper = Keeper(key: IndexKey, root: Root, snap: Index)

  datatype World = World(store: Store, desc: map<nat, Watcher>, out: map<nat, Watcher>, lin: map<nat, Keeper>)

  datatype Act =
    | CreateIndex(root: Root)
    | DeleteIndex(key: IndexKey)
    | SetRetention(key: IndexKey, policy: Option<Lineage.Retention>)
    | ReadD(pid: nat, d: Derived)
    | AppendD(pid: nat, now: int)
    | ReadO(pid: nat, d: Derived)
    | AppendO(pid: nat, now: int)
    | ReadL(pid: nat, root: Root)
    | PruneL(pid: nat, seen: seq<Existence>, now: int)
    | OwnL(pid: nat)

  // ---------------------------------------------------------------- patches

  /** Each patch replaces one list, in whatever index is stored under the name. */
  function PatchD(s: Store, k: IndexKey, ds: seq<DescendantEntry>): Store {
    if k in s then s[k := s[k].(descendants := ds)] else s
  }

  function PatchO(s: Store, k: IndexKey, es: seq<OutcomeEntry>): Store {
    if k in s then s[k := s[k].(outcomes := es)] else s
  }

  function PatchOwners(s: Store, k: IndexKey, os: seq<OwnerRef>): Store {
    if k in s then s[k := s[k].(owners := os)] else s
  }

  predicate Listed(ds: seq<DescendantEntry>, uid: string) {
    exists i :: 0 <= i < |ds| && ds[i].uid == uid
  }

  predicate Recorded(es: seq<OutcomeEntry>, uid: string) {
    exists i :: 0 <= i < |es| && es[i].derivedObjectUID == uid
  }

  predicate Owned(os: seq<OwnerRef>, uid: string) {
    exists i :: 0 <= i < |os| && os[i].uid == uid
  }

  function OutcomeFor(d: Derived, v: Verdict, now: int): OutcomeEntry {
    OutcomeEntry(d.uid, v.outcome, now, v.reason, v.message)
  }

  function OwnerOf(r: Root): OwnerRef {
    OwnerRef(r.apiVersion, r.kind, r.name, r.uid)
  }

  predicate DeletesWithRoot(policy: Option<Lineage.Retention>) {
    policy.Some? ==> policy.value.deleteWithRoot
  }

  // ---------------------------------------------------------------- steps

  function CreateStep(w: World, root: Root): World {
    if Registered(root.kind) && RootKey(root) !in w.store then w.(store := w.store[RootKey(root) := Built(root)]) else w
  }

  function RetentionStep(w: World, k: IndexKey, policy: Option<Lineage.Retention>): World {
    if k in w.store then w.(store := w.store[k := w.store[k].(retention := policy)]) else w
  }

  function Look(s: Store, d: Derived): Option<Watcher> {
    match Target(d)
    case None => None
    case Some(k) => if k in s then Some(Watcher(k, d, s[k])) else None
  }

  function ReadDStep(w: World, pid: nat, d: Derived): World {
    var seen := Look(w.store, d);
    if seen.Some? then w.(desc := w.desc[pid := seen.value]) else w
  }

  function ReadOStep(w: World, pid: nat, d: Derived): World {
    var seen := Look(w.store, d);
    if seen.Some? then w.(out := w.out[pid := seen.value]) else w
  }

  function ReadLStep(w: World, pid: nat, root: Root): World {
    var k := RootKey(root);
    if k in w.store then w.(lin := w.lin[pid := Keeper(k, root, w.store[k])]) else w
  }

  /** The registry a descendant reconcile asks for; none when its object is listed already. */
  function WantsD(p: Watcher, now: int): Option<seq<DescendantEntry>> {
    if Listed(p.snap.descendants, p.d.uid) then None
    else Some(p.snap.descendants + [EntryFor(p.snap, p.d, now)])
  }

  function AppendDStep(w: World, pid: nat, now: int): World {
    if pid !in w.desc then w
    else
      var p := w.desc[pid];
      var want := WantsD(p, now);
      w.(store := if want.Some? then PatchD(w.store, p.key, want.value) else w.store, desc := w.desc - {pid})
  }

  /** The outcomes an outcome reconcile asks for; none when recorded already or not yet terminal. */
  function WantsO(p: Watcher, now: int): Option<seq<OutcomeEntry>> {
    if Recorded(p.snap.outcomes, p.d.uid) then None
    else
      match Classify(p.d.conditions)
      case None => None
      case Some(v) => Some(p.snap.outcomes + [OutcomeFor(p.d, v, now)])
  }

  function AppendOStep(w: World, pid: nat, now: int): World {
    if pid !in w.out then w
    else
      var p := w.out[pid];
      var want := WantsO(p, now);
      w.(store := if want.Some? then PatchO(w.store, p.key, want.value) else w.store, out := w.out - {pid})
  }

  function KeptOf(ix: Index, seen: seq<Existence>, now: int): seq<DescendantEntry>
    requires |seen| == |ix.descendants|
  {
    Kept(ix.descendants, seen, now, Window(Days(ix.retention)))
  }

  /** A patch that goes through leaves the reconcile with what the server stored; one that does not ends it. */
  function PruneStep(w: World, pid: nat, seen: seq<Existence>, now: int): World {
    if pid !in w.lin || |seen| != |w.lin[pid].snap.descendants| then w
    else
      var p := w.lin[pid];
      var kept := KeptOf(p.snap, seen, now);
      if kept == p.snap.descendants then w
      else
        var s := PatchD(w.store, p.key, kept);
        w.(store := s, lin := if p.key in s then w.lin[pid := p.(snap := s[p.key])] else w.lin - {pid})
  }

  function WantsOwners(p: Keeper): Option<seq<OwnerRef>> {
    if !DeletesWithRoot(p.snap.retention) || Owned(p.snap.owners, p.root.uid) then None
    else Some(p.snap.owners + [OwnerOf(p.root)])
  }

  function OwnStep(w: World, pid: nat): World {
    if pid !in w.lin then w
    else
      var p := w.lin[pid];
      var want := WantsOwners(p);
      w.(store := if want.Some? then PatchOwners(w.store, p.key, want.value) else w.store, lin := w.lin - {pid})
  }

  function Next(w: World, a: Act): World {
    match a
    case CreateIndex(root) => CreateStep(w, root)
    case DeleteIndex(k) => w.(store := w.store - {k})
    case SetRetention(k, policy) => RetentionStep(w, k, policy)
    case ReadD(pid, d) => ReadDStep(w, pid, d)
    case AppendD(pid, now) => AppendDStep(w, pid, now)
    case ReadO(pid, d) => ReadOStep(w, pid, d)
    case AppendO(pid, now) => AppendOStep(w, pid, now)
    case ReadL(pid, root) => ReadLStep(w, pid, root)
    case PruneL(pid, seen, now) => PruneStep(w, pid, seen, now)
    case OwnL(pid) => OwnStep(w, pid)
  }

  function Exec(w: World, acts: seq<Act>): World {
    if acts == [] then w else Next(Exec(w, acts[..|acts| - 1]), acts[|acts| - 1])
  }

  const EMPTY := World(map[], map[], map[], map[])

  // ---------------------------------------------------------------- what every interleaving keeps

  ghost predicate UniqueD(ds: seq<DescendantEntry>) {
    forall i, j :: 0 <= i < j < |ds| ==> ds[i].uid != ds[j].uid
  }

  ghost predicate UniqueO(es: seq<OutcomeEntry>) {
    forall i, j :: 0 <= i < j < |es| ==> es[i].derivedObjectUID != es[j].derivedObjectUID
  }

  ghost predicate UniqueOwners(os: seq<OwnerRef>) {
    forall i, j :: 0 <= i < j < |os| ==> os[i].uid != os[j].uid
  }

  /** No list names a UID twice, and the index sits where its binding says. */
  ghost predicate Good(k: IndexKey, ix: Index) {
    UniqueD(ix.descendants) && UniqueO(ix.outcomes) && UniqueOwners(ix.owners) && BoundKey(ix.binding) == k
  }

  ghost predicate GoodStore(s: Store) {
    forall k :: k in s ==> Good(k, s[k])
  }

  ghost predicate GoodWatchers(ps: map<nat, Watcher>) {
    forall i :: i in ps ==> Good(ps[i].key, ps[i].snap)
  }

  ghost predicate GoodKeepers(ps: map<nat, Keeper>) {
    forall i :: i in ps ==> Good(ps[i].key, ps[i].snap)
  }

  ghost predicate GoodWorld(w: World) {
    GoodStore(w.store) && GoodWatchers(w.desc) && GoodWatchers(w.out) && GoodKeepers(w.lin)
  }

  lemma AppendDGood(w: World, pid: nat, now: int)
    requires GoodWorld(w)
    ensures GoodWorld(AppendDStep(w, pid, now))
  {
    if pid in w.desc {
      var p := w.desc[pid];
      var want := WantsD(p, now);
      assert want.Some? ==> UniqueD(want.value);
    }
  }

  lemma AppendOGood(w: World, pid: nat, now: int)
    requires GoodWorld(w)
    ensures GoodWorld(AppendOStep(w, pid, now))
  {
    if pid in w.out {
      var p := w.out[pid];
      var want := WantsO(p, now);
      assert want.Some? ==> UniqueO(want.value);
    }
  }

  lemma OwnGood(w: World, pid: nat)
    requires GoodWorld(w)
    ensures GoodWorld(OwnStep(w, pid))
  {
    if pid in w.lin {
      var p := w.lin[pid];
      var want := WantsOwners(p);
      assert want.Some? ==> UniqueOwners(want.value);
    }
  }

  lemma KeptUnique(ds: seq<DescendantEntry>, seen: seq<Existence>, now: int, window: int)
    requires |seen| == |ds| && UniqueD(ds)
    ensures UniqueD(Kept(ds, seen, now, window))
  {
    var at := KeptIsFilter(ds, seen, now, window);
    var kept := Kept(ds, seen, now, window);
    forall i, j | 0 <= i < j < |kept| ensures kept[i].uid != kept[j].uid {
      assert at[i] < at[j];
    }
  }

  lemma PruneGood(w: World, pid: nat, seen: seq<Existence>, now: int)
    requires GoodWorld(w)
    ensures GoodWorld(PruneStep(w, pid, seen, now))
  {
    if pid in w.lin && |seen| == |w.lin[pid].snap.descendants| {
      var p := w.lin[pid];
      KeptUnique(p.snap.descendants, seen, now, Window(Days(p.snap.retention)));
      assert GoodStore(PatchD(w.store, p.key, KeptOf(p.snap, seen, now)));
    }
  }

  lemma ReadsGood(w: World, a: Act)
    requires GoodWorld(w) && (a.ReadD? || a.ReadO? || a.ReadL?)
    ensures GoodWorld(Next(w, a))
  {
  }

  lemma CommonGood(w: World, a: Act)
    requires GoodWorld(w) && (a.CreateIndex? || a.DeleteIndex? || a.SetRetention?)
    ensures GoodWorld(Next(w, a))
  {
  }

  lemma NextGood(w: World, a: Act)
    requires GoodWorld(w)
    ensures GoodWorld(Next(w, a))
  {
    match a
    case AppendD(pid, now) => AppendDGood(w, pid, now);
    case AppendO(pid, now) => AppendOGood(w, pid, now);
    case PruneL(pid, seen, now) => PruneGood(w, pid, seen, now);
    case OwnL(pid) => OwnGood(w, pid);
    case ReadD(_, _) => ReadsGood(w, a);
    case ReadO(_, _) => ReadsGood(w, a);
    case ReadL(_, _) => ReadsGood(w, a);
    case _ => CommonGood(w, a);
  }

  /** In every interleaving, however stale the copies: no list ever names a UID twice, and every index sits at
      the key recomputed from its own binding. */
  lemma {:induction false} RunsAreGood(w: World, acts: seq<Act>)
    requires GoodWorld(w)
    ensures GoodWorld(Exec(w, acts))
  {
    if acts != [] {
      RunsAreGood(w, acts[..|acts| - 1]);
      NextGood(Exec(w, acts[..|acts| - 1]), acts[|acts| - 1]);
    }
  }

  lemma EveryStoredListIsUnique(acts: seq<Act>, n: nat, k: IndexKey)
    requires n <= |acts| && k in Exec(EMPTY, acts[..n]).store
    ensures var ix := Exec(EMPTY, acts[..n]).store[k];
            UniqueD(ix.descendants) && UniqueO(ix.outcomes) && UniqueOwners(ix.owners) && BoundKey(ix.binding) == k
  {
    RunsAreGood(EMPTY, acts[..n]);
  }

  // ---------------------------------------------------------------- outcome writers and the rest do not meet

  /** The steps of outcome reconciles, and those of the others. Creating, deleting and configuring an index belong
      to neither. */
  predicate OfOutcomes(a: Act) {
    a.ReadO? || a.AppendO?
  }

  predicate OfOthers(a: Act) {
    a.ReadD? || a.AppendD? || a.ReadL? || a.PruneL? || a.OwnL?
  }

  function WithoutOutcomes(acts: seq<Act>): seq<Act> {
    if acts == [] then []
    else
      var n := |acts| - 1;
      WithoutOutcomes(acts[..n]) + (if OfOutcomes(acts[n]) then [] else [acts[n]])
  }

  function OutcomesOnly(acts: seq<Act>): seq<Act> {
    if acts == [] then []
    else
      var n := |acts| - 1;
      OutcomesOnly(acts[..n]) + (if OfOthers(acts[n]) then [] else [acts[n]])
  }

  function BlankO(ix: Index): Index { ix.(outcomes := []) }

  function BlankD(ix: Index): Index { ix.(descendants := [], owners := []) }

  ghost predicate AlikeStores(s: Store, t: Store, blank: Index -> Index) {
    s.Keys == t.Keys && forall k :: k in s ==> blank(s[k]) == blank(t[k])
  }

  ghost predicate AlikeWatchers(ps: map<nat, Watcher>, qs: map<nat, Watcher>, blank: Index -> Index) {
    ps.Keys == qs.Keys
    && forall i :: i in ps ==> ps[i].key == qs[i].key && ps[i].d == qs[i].d && blank(ps[i].snap) == blank(qs[i].snap)
  }

  ghost predicate AlikeKeepers(ps: map<nat, Keeper>, qs: map<nat, Keeper>, blank: Index -> Index) {
    ps.Keys == qs.Keys
    && forall i :: i in ps ==>
         ps[i].key == qs[i].key && ps[i].root == qs[i].root && blank(ps[i].snap) == blank(qs[i].snap)
  }

  /** Alike up to outcomes and outcome reconciles. */
  ghost predicate AlikeButO(w: World, v: World) {
    AlikeStores(w.store, v.store, BlankO) && AlikeWatchers(w.desc, v.desc, BlankO) && AlikeKeepers(w.lin, v.lin, BlankO)
  }

  /** Alike up to descendants, owners and the reconciles that write them. */
  ghost predicate AlikeButD(w: World, v: World) {
    AlikeStores(w.store, v.store, BlankD) && AlikeWatchers(w.out, v.out, BlankD)
  }

  lemma PatchesAlike(s: Store, t: Store, k: IndexKey, ds: seq<DescendantEntry>, os: seq<OwnerRef>)
    requires AlikeStores(s, t, BlankO)
    ensures AlikeStores(PatchD(s, k, ds), PatchD(t, k, ds), BlankO)
    ensures AlikeStores(PatchOwners(s, k, os), PatchOwners(t, k, os), BlankO)
  {
    if k in s {
      var x, y := s[k], t[k];
      assert BlankO(x) == BlankO(y);
      assert BlankO(x.(descendants := ds)) == BlankO(x).(descendants := ds);
      assert BlankO(y.(descendants := ds)) == BlankO(y).(descendants := ds);
      assert BlankO(x.(owners := os)) == BlankO(x).(owners := os);
      assert BlankO(y.(owners := os)) == BlankO(y).(owners := os);
    }
  }

  lemma OutcomePatchAlike(s: Store, t: Store, k: IndexKey, es: seq<OutcomeEntry>)
    requires AlikeStores(s, t, BlankD)
    ensures AlikeStores(PatchO(s, k, es), PatchO(t, k, es), BlankD)
  {
    if k in s {
      var x, y := s[k], t[k];
      assert BlankD(x) == BlankD(y);
      assert BlankD(x.(outcomes := es)) == BlankD(x).(outcomes := es);
      assert BlankD(y.(outcomes := es)) == BlankD(y).(outcomes := es);
    }
  }

  /** What each group writes is blank to the other. */
  lemma PatchesUnseen(s: Store, t: Store, k: IndexKey, ds: seq<DescendantEntry>, os: seq<OwnerRef>)
    requires AlikeStores(s, t, BlankD)
    ensures AlikeStores(PatchD(s, k, ds), t, BlankD)
    ensures AlikeStores(PatchOwners(s, k, os), t, BlankD)
  {
    if k in s {
      assert BlankD(s[k].(descendants := ds)) == BlankD(s[k]);
      assert BlankD(s[k].(owners := os)) == BlankD(s[k]);
    }
  }

  lemma OutcomePatchUnseen(s: Store, t: Store, k: IndexKey, es: seq<OutcomeEntry>)
    requires AlikeStores(s, t, BlankO)
    ensures AlikeStores(PatchO(s, k, es), t, BlankO)
  {
    if k in s {
      assert BlankO(s[k].(outcomes := es)) == BlankO(s[k]);
    }
  }

  lemma PutAlike(s: Store, t: Store, k: IndexKey, x: Index, y: Index, blank: Index -> Index)
    requires AlikeStores(s, t, blank) && blank(x) == blank(y)
    ensures AlikeStores(s[k := x], t[k := y], blank)
  {
  }

  lemma RetentionAlike(w: World, v: World, k: IndexKey, policy: Option<Lineage.Retention>, blank: Index -> Index)
    requires AlikeStores(w.store, v.store, blank) && (blank == BlankO || blank == BlankD)
    ensures AlikeStores(RetentionStep(w, k, policy).store, RetentionStep(v, k, policy).store, blank)
  {
    if k in w.store {
      var x, y := w.store[k], v.store[k];
      assert blank(x.(retention := policy)) == blank(x).(retention := policy);
      assert blank(y.(retention := policy)) == blank(y).(retention := policy);
      PutAlike(w.store, v.store, k, x.(retention := policy), y.(retention := policy), blank);
    }
  }

  /** Creating, deleting and configuring keep stores alike in either sense. */
  lemma CommonStores(w: World, v: World, a: Act, blank: Index -> Index)
    requires AlikeStores(w.store, v.store, blank) && !OfOutcomes(a) && !OfOthers(a)
    requires blank == BlankO || blank == BlankD
    ensures AlikeStores(Next(w, a).store, Next(v, a).store, blank)
  {
    match a
    case CreateIndex(root) => PutAlike(w.store, v.store, RootKey(root), Built(root), Built(root), blank);
    case SetRetention(k, policy) => RetentionAlike(w, v, k, policy, blank);
    case DeleteIndex(k) =>
  }

  lemma CommonProcs(w: World, a: Act)
    requires !OfOutcomes(a) && !OfOthers(a)
    ensures Next(w, a).desc == w.desc && Next(w, a).out == w.out && Next(w, a).lin == w.lin
  {
  }

  lemma ReadsAlike(w: World, v: World, d: Derived, blank: Index -> Index)
    requires AlikeStores(w.store, v.store, blank)
    ensures var x, y := Look(w.store, d), Look(v.store, d);
            x.Some? == y.Some?
            && (x.Some? ==>
                  && x.value.key == y.value.key && x.value.d == y.value.d == d
                  && blank(x.value.snap) == blank(y.value.snap))
  {
  }

  lemma ButORead(w: World, v: World, pid: nat, d: Derived)
    requires AlikeButO(w, v)
    ensures AlikeButO(ReadDStep(w, pid, d), ReadDStep(v, pid, d))
  {
    ReadsAlike(w, v, d, BlankO);
  }

  lemma ButOReadRoot(w: World, v: World, pid: nat, root: Root)
    requires AlikeButO(w, v)
    ensures AlikeButO(ReadLStep(w, pid, root), ReadLStep(v, pid, root))
  {
    var k := RootKey(root);
    if k in w.store {
      KeeperPut(w.lin, v.lin, pid, Keeper(k, root, w.store[k]), Keeper(k, root, v.store[k]), BlankO);
    }
  }

  lemma KeeperPut(ps: map<nat, Keeper>, qs: map<nat, Keeper>, i: nat, p: Keeper, q: Keeper, blank: Index -> Index)
    requires AlikeKeepers(ps, qs, blank) && p.key == q.key && p.root == q.root && blank(p.snap) == blank(q.snap)
    ensures AlikeKeepers(ps[i := p], qs[i := q], blank)
  {
  }

  lemma ButOAppend(w: World, v: World, pid: nat, now: int)
    requires AlikeButO(w, v)
    ensures AlikeButO(AppendDStep(w, pid, now), AppendDStep(v, pid, now))
  {
    if pid in w.desc {
      var p, q := w.desc[pid], v.desc[pid];
      SameWish(p, q, now);
      var want := WantsD(p, now);
      PatchesAlike(w.store, v.store, p.key, if want.Some? then want.value else [], []);
    }
  }

  lemma SameWish(p: Watcher, q: Watcher, now: int)
    requires p.d == q.d && BlankO(p.snap) == BlankO(q.snap)
    ensures WantsD(p, now) == WantsD(q, now)
  {
    assert BlankO(p.snap).descendants == p.snap.descendants && BlankO(q.snap).descendants == q.snap.descendants;
    assert BlankO(p.snap).binding == p.snap.binding && BlankO(q.snap).binding == q.snap.binding;
  }

  lemma SameKept(p: Keeper, q: Keeper, seen: seq<Existence>, now: int)
    requires BlankO(p.snap) == BlankO(q.snap)
    ensures p.snap.descendants == q.snap.descendants && p.snap.retention == q.snap.retention
            && p.snap.owners == q.snap.owners
    ensures |seen| == |p.snap.descendants| ==> KeptOf(p.snap, seen, now) == KeptOf(q.snap, seen, now)
  {
    assert BlankO(p.snap).descendants == p.snap.descendants && BlankO(q.snap).descendants == q.snap.descendants;
    assert BlankO(p.snap).retention == p.snap.retention && BlankO(q.snap).retention == q.snap.retention;
    assert BlankO(p.snap).owners == p.snap.owners && BlankO(q.snap).owners == q.snap.owners;
  }

  lemma ButOPrune(w: World, v: World, pid: nat, seen: seq<Existence>, now: int)
    requires AlikeButO(w, v)
    ensures AlikeButO(PruneStep(w, pid, seen, now), PruneStep(v, pid, seen, now))
  {
    if pid in w.lin {
      var p, q := w.lin[pid], v.lin[pid];
      SameKept(p, q, seen, now);
      if |seen| == |p.snap.descendants| && KeptOf(p.snap, seen, now) != p.snap.descendants {
        var kept := KeptOf(p.snap, seen, now);
        var s, t := PatchD(w.store, p.key, kept), PatchD(v.store, p.key, kept);
        PatchesAlike(w.store, v.store, p.key, kept, []);
        if p.key in s {
          KeeperPut(w.lin, v.lin, pid, p.(snap := s[p.key]), q.(snap := t[p.key]), BlankO);
        }
      }
    }
  }

  lemma ButOOwn(w: World, v: World, pid: nat)
    requires AlikeButO(w, v)
    ensures AlikeButO(OwnStep(w, pid), OwnStep(v, pid))
  {
    if pid in w.lin {
      var p, q := w.lin[pid], v.lin[pid];
      SameKept(p, q, [], 0);
      var want := WantsOwners(p);
      assert want == WantsOwners(q);
      PatchesAlike(w.store, v.store, p.key, [], if want.Some? then want.value else []);
    }
  }

  lemma ButOCommon(w: World, v: World, a: Act)
    requires AlikeButO(w, v) && !OfOutcomes(a) && !OfOthers(a)
    ensures AlikeButO(Next(w, a), Next(v, a))
  {
    CommonStores(w, v, a, BlankO);
    CommonProcs(w, a);
    CommonProcs(v, a);
  }

  lemma ButOWrites(w: World, v: World, a: Act)
    requires AlikeButO(w, v) && (a.AppendD? || a.PruneL? || a.OwnL?)
    ensures AlikeButO(Next(w, a), Next(v, a))
  {
    match a
    case AppendD(pid, now) => ButOAppend(w, v, pid, now);
    case PruneL(pid, seen, now) => ButOPrune(w, v, pid, seen, now);
    case OwnL(pid) => ButOOwn(w, v, pid);
  }

  lemma ButOReads(w: World, v: World, a: Act)
    requires AlikeButO(w, v) && (a.ReadD? || a.ReadL?)
    ensures AlikeButO(Next(w, a), Next(v, a))
  {
    match a
    case ReadD(pid, d) => ButORead(w, v, pid, d);
    case ReadL(pid, root) => ButOReadRoot(w, v, pid, root);
  }

  lemma ButONext(w: World, v: World, a: Act)
    requires AlikeButO(w, v) && !OfOutcomes(a)
    ensures AlikeButO(Next(w, a), Next(v, a))
  {
    if a.AppendD? || a.PruneL? || a.OwnL? {
      ButOWrites(w, v, a);
    } else if a.ReadD? || a.ReadL? {
      ButOReads(w, v, a);
    } else {
      ButOCommon(w, v, a);
    }
  }

  lemma AppendOUnseen(w: World, v: World, pid: nat, now: int)
    requires AlikeButO(w, v)
    ensures AlikeButO(AppendOStep(w, pid, now), v)
  {
    if pid in w.out {
      var p := w.out[pid];
      var want := WantsO(p, now);
      OutcomePatchUnseen(w.store, v.store, p.key, if want.Some? then want.value else []);
    }
  }

  lemma OutcomeStepUnseen(w: World, v: World, a: Act)
    requires AlikeButO(w, v) && OfOutcomes(a)
    ensures AlikeButO(Next(w, a), v)
  {
    if a.AppendO? {
      AppendOUnseen(w, v, a.pid, a.now);
    }
  }

  /** Erasing every step of every outcome reconcile changes nothing in what the others read and write. */
  lemma {:induction false} OutcomesDoNotInterfere(w: World, v: World, acts: seq<Act>)
    requires AlikeButO(w, v)
    ensures AlikeButO(Exec(w, acts), Exec(v, WithoutOutcomes(acts)))
  {
    if acts != [] {
      var init, a := acts[..|acts| - 1], acts[|acts| - 1];
      OutcomesDoNotInterfere(w, v, init);
      if OfOutcomes(a) {
        OutcomeStepUnseen(Exec(w, init), Exec(v, WithoutOutcomes(init)), a);
        assert WithoutOutcomes(acts) == WithoutOutcomes(init);
      } else {
        ButONext(Exec(w, init), Exec(v, WithoutOutcomes(init)), a);
        assert WithoutOutcomes(acts)[..|WithoutOutcomes(init)|] == WithoutOutcomes(init);
      }
    }
  }

  lemma ButDAppend(w: World, v: World, pid: nat, now: int)
    requires AlikeButD(w, v)
    ensures AlikeButD(AppendOStep(w, pid, now), AppendOStep(v, pid, now))
  {
    if pid in w.out {
      var p, q := w.out[pid], v.out[pid];
      assert BlankD(p.snap).outcomes == p.snap.outcomes && BlankD(q.snap).outcomes == q.snap.outcomes;
      var want := WantsO(p, now);
      assert want == WantsO(q, now);
      OutcomePatchAlike(w.store, v.store, p.key, if want.Some? then want.value else []);
    }
  }

  lemma ButDRead(w: World, v: World, pid: nat, d: Derived)
    requires AlikeButD(w, v)
    ensures AlikeButD(ReadOStep(w, pid, d), ReadOStep(v, pid, d))
  {
    ReadsAlike(w, v, d, BlankD);
  }

  lemma ButDCommon(w: World, v: World, a: Act)
    requires AlikeButD(w, v) && !OfOutcomes(a) && !OfOthers(a)
    ensures AlikeButD(Next(w, a), Next(v, a))
  {
    CommonStores(w, v, a, BlankD);
    CommonProcs(w, a);
    CommonProcs(v, a);
  }

  lemma ButDNext(w: World, v: World, a: Act)
    requires AlikeButD(w, v) && !OfOthers(a)
    ensures AlikeButD(Next(w, a), Next(v, a))
  {
    match a
    case AppendO(pid, now) => ButDAppend(w, v, pid, now);
    case ReadO(pid, d) => ButDRead(w, v, pid, d);
    case _ => ButDCommon(w, v, a);
  }

  lemma AppendDUnseen(w: World, v: World, pid: nat, now: int)
    requires AlikeButD(w, v)
    ensures AlikeButD(AppendDStep(w, pid, now), v)
  {
    if pid in w.desc {
      var p := w.desc[pid];
      var want := WantsD(p, now);
      PatchesUnseen(w.store, v.store, p.key, if want.Some? then want.value else [], []);
    }
  }

  lemma PruneUnseen(w: World, v: World, pid: nat, seen: seq<Existence>, now: int)
    requires AlikeButD(w, v)
    ensures AlikeButD(PruneStep(w, pid, seen, now), v)
  {
    if pid in w.lin && |seen| == |w.lin[pid].snap.descendants| {
      var p := w.lin[pid];
      PatchesUnseen(w.store, v.store, p.key, KeptOf(p.snap, seen, now), []);
    }
  }

  lemma OwnUnseen(w: World, v: World, pid: nat)
    requires AlikeButD(w, v)
    ensures AlikeButD(OwnStep(w, pid), v)
  {
    if pid in w.lin {
      var p := w.lin[pid];
      var want := WantsOwners(p);
      PatchesUnseen(w.store, v.store, p.key, [], if want.Some? then want.value else []);
    }
  }

  lemma OtherStepUnseen(w: World, v: World, a: Act)
    requires AlikeButD(w, v) && OfOthers(a)
    ensures AlikeButD(Next(w, a), v)
  {
    match a
    case AppendD(pid, now) => AppendDUnseen(w, v, pid, now);
    case PruneL(pid, seen, now) => PruneUnseen(w, v, pid, seen, now);
    case OwnL(pid) => OwnUnseen(w, v, pid);
    case _ =>
  }

  /** Erasing every step of every descendant and lineage reconcile changes nothing in what outcome reconciles read
      and write. */
  lemma {:induction false} OthersDoNotInterfere(w: World, v: World, acts: seq<Act>)
    requires AlikeButD(w, v)
    ensures AlikeButD(Exec(w, acts), Exec(v, OutcomesOnly(acts)))
  {
    if acts != [] {
      var init, a := acts[..|acts| - 1], acts[|acts| - 1];
      OthersDoNotInterfere(w, v, init);
      if OfOthers(a) {
        OtherStepUnseen(Exec(w, init), Exec(v, OutcomesOnly(init)), a);
        assert OutcomesOnly(acts) == OutcomesOnly(init);
      } else {
        ButDNext(Exec(w, init), Exec(v, OutcomesOnly(init)), a);
        assert OutcomesOnly(acts)[..|OutcomesOnly(init)|] == OutcomesOnly(init);
      }
    }
  }

  lemma BlanksDetermine(x: Index, y: Index)
    requires BlankO(x) == BlankO(y) && BlankD(x) == BlankD(y)
    ensures x == y
  {
    assert BlankO(x).descendants == x.descendants && BlankO(y).descendants == y.descendants;
    assert BlankO(x).owners == x.owners && BlankO(y).owners == y.owners;
    assert BlankD(x).outcomes == x.outcomes && BlankD(y).outcomes == y.outcomes;
  }

  lemma AlikeBothWays(s: Store, t: Store)
    requires AlikeStores(s, t, BlankO) && AlikeStores(s, t, BlankD)
    ensures s == t
  {
    forall k | k in s ensures s[k] == t[k] {
      BlanksDetermine(s[k], t[k]);
    }
  }

  lemma AlikeTransitive(s: Store, t: Store, u: Store, blank: Index -> Index)
    requires AlikeStores(s, t, blank) && AlikeStores(u, t, blank)
    ensures AlikeStores(s, u, blank)
  {
  }

  /** Two interleavings of the same outcome steps with the same other steps end with the same indexes: how the two
      groups are woven together never shows. */
  lemma WeavingDoesNotMatter(w: World, one: seq<Act>, two: seq<Act>)
    requires WithoutOutcomes(one) == WithoutOutcomes(two) && OutcomesOnly(one) == OutcomesOnly(two)
    ensures Exec(w, one).store == Exec(w, two).store
  {
    OutcomesDoNotInterfere(w, w, one);
    OutcomesDoNotInterfere(w, w, two);
    OthersDoNotInterfere(w, w, one);
    OthersDoNotInterfere(w, w, two);
    var s, t := Exec(w, one).store, Exec(w, two).store;
    AlikeTransitive(s, Exec(w, WithoutOutcomes(one)).store, t, BlankO);
    AlikeTransitive(s, Exec(w, OutcomesOnly(one)).store, t, BlankD);
    AlikeBothWays(s, t);
  }
}
