/** The shared DSNS state: the zone, and which owner put which key there. The incremental index is
    compared with a batch reading of its own history. */
module DnsState {
  import opened Text
  import opened Zone

  /** records: the zone; owned: owner -> the keys of the records it last registered. */
  datatype Index = Index(records: Records, owned: map<string, seq<string>>)

  const EMPTY := Index(map[], map[])

  // ---------------------------------------------------------------- the operations as functions

  function Keys(rs: seq<Record>): seq<string> {
    seq(|rs|, i requires 0 <= i < |rs| => KeyOf(rs[i]))
  }

  function AddAll(m: Records, rs: seq<Record>): Records {
    if rs == [] then m else Added(AddAll(m, rs[..|rs| - 1]), rs[|rs| - 1])
  }

  /** Removes the slot a key names, taking the key apart at its first colon. */
  function Drop(m: Records, key: string): Records {
    var i := IndexOf(key, ':');
    if i < 0 then m else Removed(m, key[..i], key[i + 1..])
  }

  function DropAll(m: Records, keys: seq<string>): Records {
    if keys == [] then m
    else Drop(DropAll(m, keys[..|keys| - 1]), keys[|keys| - 1])
  }

  function HeldBy(s: Index, owner: string): seq<string> {
    if owner in s.owned then s.owned[owner] else []
  }

  function WithStatic(s: Index, r: Record): Index {
    s.(records := Added(s.records, r))
  }

  function WithoutOwner(s: Index, owner: string): Index {
    Index(DropAll(s.records, HeldBy(s, owner)), s.owned - {owner})
  }

  function WithOwner(s: Index, owner: string, rs: seq<Record>): Index {
    var cleared := WithoutOwner(s, owner);
    if rs == [] then cleared
    else Index(AddAll(cleared.records, rs), cleared.owned[owner := Keys(rs)])
  }

  // ---------------------------------------------------------------- the mutable state

  class DSNSState {
    const zone: ZoneFile
    var owned: map<string, seq<string>>

    ghost function View(): Index
      reads this, zone
    {
      Index(zone.records, owned)
    }

    constructor ()
      ensures View() == EMPTY && fresh(zone)
    {
      zone := new ZoneFile();
      owned := map[];
    }

    method SetStaticRecord(r: Record)
      modifies zone
      ensures View() == WithStatic(old(View()), r)
    {
      zone.AddRecord(r);
    }

    method UpdateRecords(owner: string, rs: seq<Record>)
      modifies this, zone
      ensures View() == WithOwner(old(View()), owner, rs)
    {
      RemoveOwnerLocked(owner);
      if |rs| == 0 {
        return;
      }
      ghost var cleared := zone.records;
      var keys: seq<string> := [];
      for i := 0 to |rs|
        invariant owned == old(View()).owned - {owner}
        invariant zone.records == AddAll(cleared, rs[..i])
        invariant keys == Keys(rs)[..i]
      {
        zone.AddRecord(rs[i]);
        keys := keys + [RecordKey(rs[i].rtype, rs[i].name)];
        assert rs[..i + 1][..i] == rs[..i];
      }
      assert rs[..|rs|] == rs && Keys(rs)[..|rs|] == Keys(rs);
      owned := owned[owner := keys];
    }

    method RemoveRecords(owner: string)
      modifies this, zone
      ensures View() == WithoutOwner(old(View()), owner)
    {
      RemoveOwnerLocked(owner);
    }

    method RemoveOwnerLocked(owner: string)
      modifies this, zone
      ensures View() == WithoutOwner(old(View()), owner)
    {
      var keys := if owner in owned then owned[owner] else [];
      for n := 0 to |keys|
        invariant owned == old(owned)
        invariant zone.records == DropAll(old(zone.records), keys[..n])
      {
        var key := keys[n];
        assert keys[..n + 1][..n] == keys[..n];
        var i := IndexOf(key, ':');
        if i >= 0 {
          zone.RemoveRecord(key[..i], key[i + 1..]);
        }
      }
      assert keys[..|keys|] == keys;
      owned := owned - {owner};
    }

    /** Rendered under the lock; the write that follows is not (see module Dsns). */
    method RenderZone(serial: nat) returns (text: string)
      ensures text == Rendered(View().records, serial)
    {
      text := zone.Render(serial);
    }
  }

  // ---------------------------------------------------------------- what a record list amounts to

  /** What a list contributes to the zone: per key its last record, with the lifetime defaulted. */
  function Contribution(rs: seq<Record>): Records {
    AddAll(map[], rs)
  }

  /** r, under this key, is not followed by another record of the list with the same key. */
  ghost predicate LastFor(rs: seq<Record>, key: string, r: Record) {
    exists i :: 0 <= i < |rs| && rs[i] == r && Keys(rs)[i] == key && forall j :: i < j < |rs| ==> Keys(rs)[j] != key
  }

  lemma {:induction false} ContributionIsLast(rs: seq<Record>, key: string)
    ensures key in Contribution(rs) <==> key in Keys(rs)
    ensures key in Contribution(rs) ==> exists r :: LastFor(rs, key, r) && Contribution(rs)[key] == Defaulted(r)
  {
    if rs != [] {
      var init, last := rs[..|rs| - 1], rs[|rs| - 1];
      ContributionIsLast(init, key);
      assert Keys(rs) == Keys(init) + [KeyOf(last)];
      if key == KeyOf(last) {
        assert rs[|rs| - 1] == last && Keys(rs)[|rs| - 1] == key;
        assert LastFor(rs, key, last);
      } else if key in Contribution(rs) {
        LastForGrows(rs, key);
      }
    }
  }

  lemma LastForGrows(rs: seq<Record>, key: string)
    requires rs != [] && Keys(rs) == Keys(rs[..|rs| - 1]) + [Keys(rs)[|rs| - 1]] && Keys(rs)[|rs| - 1] != key
    ensures forall r :: LastFor(rs[..|rs| - 1], key, r) ==> LastFor(rs, key, r)
  {
    var init := rs[..|rs| - 1];
    forall r | LastFor(init, key, r) ensures LastFor(rs, key, r) {
      var i :| 0 <= i < |init| && init[i] == r && Keys(init)[i] == key
          && forall j :: i < j < |init| ==> Keys(init)[j] != key;
      assert rs[i] == r && Keys(rs)[i] == key;
      assert forall j :: i < j < |init| ==> Keys(rs)[j] == Keys(init)[j];
    }
  }

  lemma {:induction false} AddAllContributes(m: Records, rs: seq<Record>)
    ensures AddAll(m, rs) == m + Contribution(rs)
  {
    if rs != [] {
      AddAllContributes(m, rs[..|rs| - 1]);
      var c, last := Contribution(rs[..|rs| - 1]), rs[|rs| - 1];
      Overriding(m, c, KeyOf(last), Defaulted(last));
    }
  }

  lemma Overriding(m: Records, c: Records, k: string, r: Record)
    ensures (m + c)[k := r] == m + c[k := r]
  {
  }

  ghost function Elements(keys: seq<string>): set<string> {
    set i | 0 <= i < |keys| :: keys[i]
  }

  lemma DropRemoves(m: Records, key: string)
    requires Splits(key)
    ensures Drop(m, key) == m - {key}
  {
  }

  lemma {:induction false} DropAllRemoves(m: Records, keys: seq<string>)
    requires forall i :: 0 <= i < |keys| ==> Splits(keys[i])
    ensures DropAll(m, keys) == m - Elements(keys)
  {
    if keys == [] {
      assert Elements(keys) == {};
    } else {
      var init, last := keys[..|keys| - 1], keys[|keys| - 1];
      DropAllRemoves(m, init);
      DropRemoves(DropAll(m, init), last);
      ElementsSnoc(keys);
      assert m - Elements(init) - {last} == m - (Elements(init) + {last});
    }
  }

  lemma ElementsSnoc(keys: seq<string>)
    requires keys != []
    ensures Elements(keys) == Elements(keys[..|keys| - 1]) + {keys[|keys| - 1]}
  {
    assert keys == keys[..|keys| - 1] + [keys[|keys| - 1]];
  }

  lemma KeysAsSet(rs: seq<Record>)
    ensures Elements(Keys(rs)) == Contribution(rs).Keys
  {
    forall key ensures key in Elements(Keys(rs)) <==> key in Contribution(rs) {
      ContributionIsLast(rs, key);
    }
  }

  /** The types the program declares contain no colon, so the keys made from them come apart again. */
  ghost predicate Typed(rs: seq<Record>) {
    forall i :: 0 <= i < |rs| ==> ':' !in rs[i].rtype
  }

  lemma TypedKeysSplit(rs: seq<Record>)
    requires Typed(rs)
    ensures forall i :: 0 <= i < |rs| ==> Splits(Keys(rs)[i])
  {
    forall i | 0 <= i < |rs| ensures Splits(Keys(rs)[i]) {
      KeySplitsIff(rs[i].rtype, rs[i].name);
    }
  }

  // ---------------------------------------------------------------- histories

  datatype Op = SetStatic(r: Record) | Update(owner: string, rs: seq<Record>) | Remove(owner: string)

  function Apply(s: Index, op: Op): Index {
    match op
    case SetStatic(r) => WithStatic(s, r)
    case Update(o, rs) => WithOwner(s, o, rs)
    case Remove(o) => WithoutOwner(s, o)
  }

  function Run(ops: seq<Op>): Index {
    if ops == [] then EMPTY else Apply(Run(ops[..|ops| - 1]), ops[|ops| - 1])
  }

  /** The batch view of a history: the last static record of each slot, and what each owner's latest list
      contributes. */
  datatype Batch = Batch(statics: Records, latest: map<string, Records>)

  const NOTHING := Batch(map[], map[])

  function Forget(b: Batch, owner: string): Batch {
    b.(latest := b.latest - {owner})
  }

  function Note(b: Batch, op: Op): Batch {
    match op
    case SetStatic(r) => b.(statics := b.statics[KeyOf(r) := Defaulted(r)])
    case Update(o, rs) => if rs == [] then Forget(b, o) else b.(latest := b.latest[o := Contribution(rs)])
    case Remove(o) => Forget(b, o)
  }

  function BatchOf(ops: seq<Op>): Batch {
    if ops == [] then NOTHING else Note(BatchOf(ops[..|ops| - 1]), ops[|ops| - 1])
  }

  ghost predicate TypedOp(op: Op) {
    op.Update? ==> Typed(op.rs)
  }

  ghost predicate TypedOps(ops: seq<Op>) {
    forall i :: 0 <= i < |ops| ==> TypedOp(ops[i])
  }

  /** These slots belong to nobody else: none is static, none on another owner's list. */
  ghost predicate FreshSlots(b: Batch, owner: string, c: Records) {
    && c.Keys !! b.statics.Keys
    && forall o :: o in b.latest && o != owner ==> c.Keys !! b.latest[o].Keys
  }

  ghost predicate Fresh(b: Batch, op: Op) {
    match op
    case SetStatic(r) => forall o :: o in b.latest ==> KeyOf(r) !in b.latest[o]
    case Update(owner, rs) => FreshSlots(b, owner, Contribution(rs))
    case Remove(_) => true
  }

  /** Every operation of the history is fresh when it happens. */
  ghost predicate Disjoint(ops: seq<Op>) {
    ops == [] || (Disjoint(ops[..|ops| - 1]) && Fresh(BatchOf(ops[..|ops| - 1]), ops[|ops| - 1]))
  }

  ghost predicate Gives(b: Batch, o: string, k: string) {
    o in b.latest && k in b.latest[o]
  }

  /** The batch projection: exactly the static records and what each owner's latest list contributes. */
  ghost predicate Projects(m: Records, b: Batch) {
    && (forall k :: k in b.statics ==> k in m && m[k] == b.statics[k])
    && (forall o, k :: Gives(b, o, k) ==> k in m && m[k] == b.latest[o][k])
    && (forall k :: k in m ==> k in b.statics || exists o :: Gives(b, o, k))
  }

  /** It pins the zone down completely. */
  lemma ProjectionUnique(m: Records, n: Records, b: Batch)
    requires Projects(m, b) && Projects(n, b)
    ensures m == n
  {
    ProjectionCovers(m, n, b);
    ProjectionCovers(n, m, b);
  }

  lemma ProjectionCovers(m: Records, n: Records, b: Batch)
    requires Projects(m, b) && Projects(n, b)
    ensures forall k :: k in m ==> k in n && n[k] == m[k]
  {
    forall k | k in m ensures k in n && n[k] == m[k] {
      if k !in b.statics {
        var o :| Gives(b, o, k);
      }
    }
  }

  /** Owners hold pairwise different keys, none of them static. */
  ghost predicate Separate(b: Batch) {
    && (forall o, k :: Gives(b, o, k) ==> k !in b.statics)
    && (forall o, p, k :: Gives(b, o, k) && Gives(b, p, k) ==> o == p)
  }

  /** The ownership map is the batch view's, key for key. */
  ghost predicate Tracks(s: Index, b: Batch) {
    && s.owned.Keys == b.latest.Keys
    && forall o :: o in s.owned ==>
         && Elements(s.owned[o]) == b.latest[o].Keys
         && forall i :: 0 <= i < |s.owned[o]| ==> Splits(s.owned[o][i])
  }

  lemma {:induction false} RunTracks(ops: seq<Op>)
    requires TypedOps(ops)
    ensures Tracks(Run(ops), BatchOf(ops))
  {
    if ops != [] {
      var op := ops[|ops| - 1];
      RunTracks(ops[..|ops| - 1]);
      assert TypedOp(op);
      if op.Update? {
        TypedKeysSplit(op.rs);
        KeysAsSet(op.rs);
      }
    }
  }

  /** Removing an owner clears all its keys and touches no other slot. */
  lemma RemovalIsExact(ops: seq<Op>, owner: string)
    requires TypedOps(ops)
    ensures Run(ops + [Remove(owner)]).records == Run(ops).records - Elements(HeldBy(Run(ops), owner))
    ensures Run(ops + [Remove(owner)]).owned == Run(ops).owned - {owner}
  {
    assert (ops + [Remove(owner)])[..|ops|] == ops;
    RunTracks(ops);
    CleaningIsExact(Run(ops), BatchOf(ops), owner);
  }

  lemma CleaningIsExact(s: Index, b: Batch, owner: string)
    requires Tracks(s, b)
    ensures WithoutOwner(s, owner).records == s.records - Elements(HeldBy(s, owner))
  {
    DropAllRemoves(s.records, HeldBy(s, owner));
  }

  ghost function SlotsOf(b: Batch, owner: string): set<string> {
    if owner in b.latest then b.latest[owner].Keys else {}
  }

  lemma ClearedStillProjects(s: Index, b: Batch, owner: string)
    requires Tracks(s, b) && Projects(s.records, b) && Separate(b)
    ensures Projects(WithoutOwner(s, owner).records, Forget(b, owner))
    ensures Separate(Forget(b, owner))
  {
    CleaningIsExact(s, b, owner);
    assert Elements(HeldBy(s, owner)) == SlotsOf(b, owner);
    ForgottenStillProjects(s.records, b, owner);
  }

  lemma ForgottenStillProjects(m: Records, b: Batch, owner: string)
    requires Projects(m, b) && Separate(b)
    ensures Projects(m - SlotsOf(b, owner), Forget(b, owner))
    ensures Separate(Forget(b, owner))
  {
    var c := Forget(b, owner);
    var n := m - SlotsOf(b, owner);
    assert forall o, k :: Gives(c, o, k) <==> Gives(b, o, k) && o != owner;
    assert forall k :: k in SlotsOf(b, owner) <==> Gives(b, owner, k);
    forall k | k in n ensures k in c.statics || exists o :: Gives(c, o, k) {
      if k !in b.statics {
        var o :| Gives(b, o, k);
        assert Gives(c, o, k);
      }
    }
  }

  lemma AddedGives(b: Batch, owner: string, c: Records)
    requires owner !in b.latest && FreshSlots(b, owner, c)
    ensures forall o, k :: Gives(b.(latest := b.latest[owner := c]), o, k) <==> Gives(b, o, k) || (o == owner && k in c)
    ensures forall o, k :: Gives(b, o, k) ==> k !in c
  {
    forall o, k | Gives(b, o, k) ensures k !in c {
      assert c.Keys !! b.latest[o].Keys;
    }
  }

  lemma AddedStillSeparate(b: Batch, owner: string, c: Records)
    requires Separate(b) && owner !in b.latest && FreshSlots(b, owner, c)
    ensures Separate(b.(latest := b.latest[owner := c]))
  {
    var d := b.(latest := b.latest[owner := c]);
    AddedGives(b, owner, c);
    forall o, k | Gives(d, o, k) ensures k !in d.statics {
      assert Gives(b, o, k) || k in c;
    }
    forall o, p, k | Gives(d, o, k) && Gives(d, p, k) ensures o == p {
      assert Gives(b, o, k) || (o == owner && k in c);
      assert Gives(b, p, k) || (p == owner && k in c);
    }
  }

  lemma AddedStillProjects(m: Records, b: Batch, owner: string, c: Records)
    requires Projects(m, b) && owner !in b.latest && FreshSlots(b, owner, c)
    ensures Projects(m + c, b.(latest := b.latest[owner := c]))
  {
    var d := b.(latest := b.latest[owner := c]);
    AddedGives(b, owner, c);
    forall o, k | Gives(d, o, k) ensures k in m + c && (m + c)[k] == d.latest[o][k] {
      if o != owner {
        assert Gives(b, o, k);
      }
    }
    forall k | k in m + c ensures k in d.statics || exists o :: Gives(d, o, k) {
      if k in c {
        assert Gives(d, owner, k);
      } else if k !in b.statics {
        var o :| Gives(b, o, k);
        assert Gives(d, o, k);
      }
    }
  }

  lemma StaticStillProjects(m: Records, b: Batch, key: string, r: Record)
    requires Projects(m, b) && Separate(b) && forall o :: o in b.latest ==> key !in b.latest[o]
    ensures Projects(m[key := r], b.(statics := b.statics[key := r]))
    ensures Separate(b.(statics := b.statics[key := r]))
  {
    var c := b.(statics := b.statics[key := r]);
    assert forall o, k :: Gives(c, o, k) <==> Gives(b, o, k);
    forall k | k in m[key := r] ensures k in c.statics || exists o :: Gives(c, o, k) {
      if k !in c.statics {
        var o :| Gives(b, o, k);
        assert Gives(c, o, k);
      }
    }
  }

  /** One fresh operation takes agreement to agreement. */
  lemma ApplyProjects(s: Index, b: Batch, op: Op)
    requires Tracks(s, b) && Projects(s.records, b) && Separate(b) && Fresh(b, op)
    ensures Projects(Apply(s, op).records, Note(b, op)) && Separate(Note(b, op))
  {
    match op {
      case SetStatic(r) =>
        StaticStillProjects(s.records, b, KeyOf(r), Defaulted(r));
      case Remove(o) =>
        ClearedStillProjects(s, b, o);
      case Update(o, rs) =>
        ClearedStillProjects(s, b, o);
        if rs != [] {
          UpdateProjects(s, b, o, rs);
        }
    }
  }

  lemma UpdateProjects(s: Index, b: Batch, o: string, rs: seq<Record>)
    requires rs != [] && FreshSlots(b, o, Contribution(rs))
    requires Projects(WithoutOwner(s, o).records, Forget(b, o)) && Separate(Forget(b, o))
    ensures Projects(WithOwner(s, o, rs).records, b.(latest := b.latest[o := Contribution(rs)]))
    ensures Separate(b.(latest := b.latest[o := Contribution(rs)]))
  {
    AddAllContributes(WithoutOwner(s, o).records, rs);
    var c := Forget(b, o);
    AddedStillProjects(WithoutOwner(s, o).records, c, o, Contribution(rs));
    AddedStillSeparate(c, o, Contribution(rs));
    assert c.latest[o := Contribution(rs)] == b.latest[o := Contribution(rs)];
  }

  /** Over every history of fresh operations the zone is exactly the batch projection. */
  lemma {:induction false} ZoneIsProjection(ops: seq<Op>)
    requires TypedOps(ops) && Disjoint(ops)
    ensures Projects(Run(ops).records, BatchOf(ops)) && Separate(BatchOf(ops))
  {
    if ops != [] {
      var init := ops[..|ops| - 1];
      ZoneIsProjection(init);
      RunTracks(init);
      ApplyProjects(Run(init), BatchOf(init), ops[|ops| - 1]);
    }
  }

  // ---------------------------------------------------------------- without disjointness

  ghost predicate Held(s: Index, o: string, k: string) {
    o in s.owned && k in s.owned[o]
  }

  /** Every slot of the zone is static or on some owner's list. */
  ghost predicate Accounted(s: Index, b: Batch) {
    forall k :: k in s.records ==> k in b.statics || exists o :: Held(s, o, k)
  }

  /** In every history whatsoever, no slot is left behind. */
  lemma {:induction false} NoOrphans(ops: seq<Op>)
    requires TypedOps(ops)
    ensures Accounted(Run(ops), BatchOf(ops))
  {
    if ops != [] {
      var init, op := ops[..|ops| - 1], ops[|ops| - 1];
      NoOrphans(init);
      RunTracks(init);
      var s, b := Run(init), BatchOf(init);
      match op {
        case SetStatic(r) =>
          StaticAccounted(s, b, KeyOf(r), Defaulted(r));
        case Remove(o) =>
          ClearedAccounted(s, b, o);
        case Update(o, rs) =>
          ClearedAccounted(s, b, o);
          if rs != [] {
            UpdateAccounted(s, b, o, rs);
          }
      }
    }
  }

  lemma StaticAccounted(s: Index, b: Batch, key: string, r: Record)
    requires Accounted(s, b)
    ensures Accounted(s.(records := s.records[key := r]), b.(statics := b.statics[key := r]))
  {
    var t := s.(records := s.records[key := r]);
    assert forall o, k :: Held(t, o, k) <==> Held(s, o, k);
  }

  lemma ClearedAccounted(s: Index, b: Batch, owner: string)
    requires Tracks(s, b) && Accounted(s, b)
    ensures Accounted(WithoutOwner(s, owner), Forget(b, owner))
  {
    CleaningIsExact(s, b, owner);
    ForgottenAccounted(s, b, owner);
  }

  lemma ForgottenAccounted(s: Index, b: Batch, owner: string)
    requires Accounted(s, b)
    ensures Accounted(Index(s.records - Elements(HeldBy(s, owner)), s.owned - {owner}), Forget(b, owner))
  {
    var c := Index(s.records - Elements(HeldBy(s, owner)), s.owned - {owner});
    forall k | k in c.records && k !in b.statics ensures exists p :: Held(c, p, k) {
      var p :| Held(s, p, k);
      assert Held(c, p, k);
    }
  }

  lemma UpdateAccounted(s: Index, b: Batch, owner: string, rs: seq<Record>)
    requires rs != [] && Accounted(WithoutOwner(s, owner), Forget(b, owner))
    ensures Accounted(WithOwner(s, owner, rs), Note(b, Update(owner, rs)))
  {
    var c, t := WithoutOwner(s, owner), WithOwner(s, owner, rs);
    AddAllContributes(c.records, rs);
    KeysAsSet(rs);
    forall k | k in t.records && k !in b.statics ensures exists p :: Held(t, p, k) {
      if k in Contribution(rs) {
        assert k in Elements(Keys(rs));
        assert Held(t, owner, k);
      } else {
        var p :| Held(c, p, k);
        assert Held(t, p, k);
      }
    }
  }

  // ---------------------------------------------------------------- exactly when sharing does harm

  /** Agreement is lost exactly through shared slots: after an agreeing history, an owner can come and go
      and leave agreement intact if and only if none of its slots is static or on another owner's list. */
  lemma ComingAndGoingIsHarmlessIffFresh(ops: seq<Op>, owner: string, rs: seq<Record>)
    requires TypedOps(ops) && Disjoint(ops) && Typed(rs)
    ensures var longer := ops + [Update(owner, rs)] + [Remove(owner)];
            Projects(Run(longer).records, BatchOf(longer)) <==> FreshSlots(BatchOf(ops), owner, Contribution(rs))
  {
    var mid := ops + [Update(owner, rs)];
    var longer := mid + [Remove(owner)];
    assert mid[..|mid| - 1] == ops && longer[..|longer| - 1] == mid;
    assert TypedOps(mid) && TypedOps(longer);
    if FreshSlots(BatchOf(ops), owner, Contribution(rs)) {
      assert Disjoint(mid) && Disjoint(longer);
      ZoneIsProjection(longer);
    } else {
      VisitorTakesItsSlots(mid, owner, rs);
      SharedSlotIsLost(Run(longer).records, BatchOf(ops), owner, Contribution(rs));
      assert Forget(BatchOf(mid), owner).latest == Forget(BatchOf(ops), owner).latest;
    }
  }

  lemma VisitorTakesItsSlots(mid: seq<Op>, owner: string, rs: seq<Record>)
    requires TypedOps(mid) && mid != [] && mid[|mid| - 1] == Update(owner, rs)
    ensures Contribution(rs).Keys !! Run(mid + [Remove(owner)]).records.Keys
  {
    RemovalIsExact(mid, owner);
    KeysAsSet(rs);
  }

  lemma SharedSlotIsLost(m: Records, b: Batch, owner: string, c: Records)
    requires !FreshSlots(b, owner, c) && c.Keys !! m.Keys
    ensures !Projects(m, Forget(b, owner))
  {
    var fin := Forget(b, owner);
    if k :| k in c && k in b.statics {
      assert k in fin.statics && k !in m;
    } else {
      var o :| o in b.latest && o != owner && !(c.Keys !! b.latest[o].Keys);
      var k :| k in c && k in b.latest[o];
      assert Gives(fin, o, k) && k !in m;
    }
  }
}
