/** The zone read off its history of calls directly: which call each slot of it comes from. */
module DnsLaws {
  import opened Text
  import opened Zone
  import opened DnsState

  // ---------------------------------------------------------------- slots

  /** Records share a slot exactly when their types are equal and their names differ in case at most. */
  lemma SharedSlotIff(r: Record, q: Record)
    requires ':' !in r.rtype && ':' !in q.rtype
    ensures KeyOf(r) == KeyOf(q) <==> r.rtype == q.rtype && ToLower(r.name) == ToLower(q.name)
  {
    if KeyOf(r) == KeyOf(q) {
      SplitFirst(r.rtype, q.rtype, ToLower(r.name), ToLower(q.name), ':');
    }
  }

  /** A record as it is stored: five minutes where no lifetime was given. */
  function Lived(r: Record): Record {
    Record(r.name, r.rtype, if r.ttl == 0 then 300 else r.ttl, r.value)
  }

  // ---------------------------------------------------------------- the last call that counts

  predicate Touches(op: Op, owner: string) {
    !op.SetStatic? && op.owner == owner
  }

  ghost predicate LastTouch(ops: seq<Op>, n: int, owner: string) {
    0 <= n < |ops| && Touches(ops[n], owner) && forall m :: n < m < |ops| ==> !Touches(ops[m], owner)
  }

  predicate Seeds(op: Op, k: string) {
    op.SetStatic? && op.r.rtype + ":" + ToLower(op.r.name) == k
  }

  ghost predicate LastSeed(ops: seq<Op>, n: int, k: string) {
    0 <= n < |ops| && Seeds(ops[n], k) && forall m :: n < m < |ops| ==> !Seeds(ops[m], k)
  }

  lemma LastSnoc(ops: seq<Op>, op: Op, n: int)
    ensures forall o :: LastTouch(ops + [op], n, o) <==> if Touches(op, o) then n == |ops| else LastTouch(ops, n, o)
    ensures forall k :: LastSeed(ops + [op], n, k) <==> if Seeds(op, k) then n == |ops| else LastSeed(ops, n, k)
  {
    var all := ops + [op];
    assert all[|ops|] == op && forall m :: 0 <= m < |ops| ==> all[m] == ops[m];
  }

  lemma {:induction false} LatestSays(ops: seq<Op>, o: string)
    ensures forall n :: LastTouch(ops, n, o) && ops[n].Update? && ops[n].rs != [] ==>
              o in BatchOf(ops).latest && BatchOf(ops).latest[o] == Contribution(ops[n].rs)
    ensures o in BatchOf(ops).latest ==> exists n :: LastTouch(ops, n, o) && ops[n].Update? && ops[n].rs != []
  {
    if ops != [] {
      var init, op := ops[..|ops| - 1], ops[|ops| - 1];
      assert ops == init + [op];
      LatestSays(init, o);
      forall n ensures LastTouch(ops, n, o) <==> if Touches(op, o) then n == |init| else LastTouch(init, n, o) {
        LastSnoc(init, op, n);
      }
      if !Touches(op, o) && o in BatchOf(init).latest {
        var n :| LastTouch(init, n, o) && init[n].Update? && init[n].rs != [];
        assert LastTouch(ops, n, o) && ops[n] == init[n];
      } else if Touches(op, o) && op.Update? && op.rs != [] {
        assert LastTouch(ops, |init|, o);
      }
    }
  }

  lemma {:induction false} StaticsSay(ops: seq<Op>, k: string)
    ensures forall n :: LastSeed(ops, n, k) ==> k in BatchOf(ops).statics && BatchOf(ops).statics[k] == Lived(ops[n].r)
    ensures k in BatchOf(ops).statics ==> exists n :: LastSeed(ops, n, k)
  {
    if ops != [] {
      var init, op := ops[..|ops| - 1], ops[|ops| - 1];
      assert ops == init + [op];
      StaticsSay(init, k);
      forall n ensures LastSeed(ops, n, k) <==> if Seeds(op, k) then n == |init| else LastSeed(init, n, k) {
        LastSnoc(init, op, n);
      }
      if Seeds(op, k) {
        assert LastSeed(ops, |init|, k);
      } else if k in BatchOf(init).statics {
        var n :| LastSeed(init, n, k);
        assert LastSeed(ops, n, k);
      }
    }
  }

  // ---------------------------------------------------------------- the zone

  /** Record i of this list goes to the slot, and none after it does. */
  ghost predicate LastIn(rs: seq<Record>, i: int, k: string) {
    && 0 <= i < |rs| && rs[i].rtype + ":" + ToLower(rs[i].name) == k
    && forall j :: i < j < |rs| ==> rs[j].rtype + ":" + ToLower(rs[j].name) != k
  }

  lemma ContributionSays(rs: seq<Record>, k: string)
    ensures forall i :: LastIn(rs, i, k) ==> k in Contribution(rs) && Contribution(rs)[k] == Lived(rs[i])
    ensures k in Contribution(rs) ==> exists i :: LastIn(rs, i, k)
  {
    ContributionIsLast(rs, k);
    forall i ensures LastIn(rs, i, k) ==> k in Keys(rs) {
      if LastIn(rs, i, k) {
        assert Keys(rs)[i] == k;
      }
    }
    if k in Contribution(rs) {
      var r :| LastFor(rs, k, r) && Contribution(rs)[k] == Defaulted(r);
      var i :| 0 <= i < |rs| && rs[i] == r && Keys(rs)[i] == k && forall j :: i < j < |rs| ==> Keys(rs)[j] != k;
      assert forall j :: i < j < |rs| ==> KeyOf(rs[j]) == Keys(rs)[j];
      assert LastIn(rs, i, k);
      forall m | LastIn(rs, m, k) ensures m == i {
        assert Keys(rs)[m] == k && Keys(rs)[i] == k;
      }
    }
  }

  /** The slot is seeded by the last static record set there, or held by the last record for it in the list an owner
      registered with its latest call. */
  ghost predicate Stands(ops: seq<Op>, k: string, r: Record) {
    || (exists n :: LastSeed(ops, n, k) && r == Lived(ops[n].r))
    || (exists o, n, i :: OwnedStand(ops, o, n, i, k) && r == Lived(ops[n].rs[i]))
  }

  ghost predicate OwnedStand(ops: seq<Op>, o: string, n: int, i: int, k: string) {
    LastTouch(ops, n, o) && ops[n].Update? && LastIn(ops[n].rs, i, k)
  }

  lemma StandsIsHeld(ops: seq<Op>, k: string, r: Record)
    requires Projects(Run(ops).records, BatchOf(ops)) && Stands(ops, k, r)
    ensures k in Run(ops).records && Run(ops).records[k] == r
  {
    if n :| LastSeed(ops, n, k) && r == Lived(ops[n].r) {
      StaticsSay(ops, k);
    } else {
      var o, n, i :| OwnedStand(ops, o, n, i, k) && r == Lived(ops[n].rs[i]);
      LatestSays(ops, o);
      ContributionSays(ops[n].rs, k);
      assert Gives(BatchOf(ops), o, k);
    }
  }

  lemma HeldStands(ops: seq<Op>, k: string)
    requires Projects(Run(ops).records, BatchOf(ops)) && k in Run(ops).records
    ensures Stands(ops, k, Run(ops).records[k])
  {
    if k in BatchOf(ops).statics {
      StaticsSay(ops, k);
      var n :| LastSeed(ops, n, k);
    } else {
      var o :| Gives(BatchOf(ops), o, k);
      LatestSays(ops, o);
      var n :| LastTouch(ops, n, o) && ops[n].Update? && ops[n].rs != [];
      ContributionSays(ops[n].rs, k);
      var i :| LastIn(ops[n].rs, i, k);
      assert OwnedStand(ops, o, n, i, k);
    }
  }

  /** Over every history of fresh operations: a slot holds a record exactly if the history says so. */
  lemma ZoneSays(ops: seq<Op>, k: string, r: Record)
    requires TypedOps(ops) && Disjoint(ops)
    ensures k in Run(ops).records && Run(ops).records[k] == r <==> Stands(ops, k, r)
  {
    ZoneIsProjection(ops);
    if Stands(ops, k, r) {
      StandsIsHeld(ops, k, r);
    }
    if k in Run(ops).records {
      HeldStands(ops, k);
    }
  }
}
