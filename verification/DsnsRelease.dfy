/** Releasing a finalizer: the reconcile that does it has itself published a zone without its owner, and the owner
    has held nothing since that zone was rendered. */
module DsnsRelease {
  import opened Text
  import opened Zone
  import opened DnsState
  import opened Dsns
  import opened DsnsRuns
  import opened DsnsPublish

  // ---------------------------------------------------------------- trails

  /** The zone a reconcile has rendered, and what it means to do after publishing it. */
  datatype Trail = Trail(zone: Records, after: After)

  function TrailOf(pc: Pc): Option<Trail> {
    match pc
    case Writing(z, after) => Some(Trail(z, after))
    case Mirroring(z, after) => Some(Trail(z, after))
    case Releasing(o, z) => Some(Trail(z, Release(o)))
    case _ => None
  }

  ghost predicate Bears(w: World, k: Key, t: Trail) {
    k in w.procs && TrailOf(w.procs[k]) == Some(t)
  }

  /** Its Apply has been acknowledged by the primary. */
  ghost predicate Acknowledged(w: World, k: Key) {
    k in w.procs && Published(w.procs[k])
  }

  ghost predicate Renders(w: World, a: Act, k: Key, t: Trail) {
    a == Render(k) && k in w.procs && w.procs[k] == Rendering(t.after) && CurrentZone(w) == t.zone
  }

  ghost predicate Writes(w: World, a: Act, k: Key, t: Trail) {
    a == WritePrimary(k, true) && k in w.procs && w.procs[k] == Writing(t.zone, t.after)
  }

  ghost predicate SamePc(w: World, v: World, k: Key) {
    k in v.procs ==> k in w.procs && v.procs[k] == w.procs[k]
  }

  lemma UserKeepsProcs(w: World, a: Act)
    requires a.Create? || a.Modify? || a.Delete?
    ensures UserStep(w, a).procs == w.procs
  {
  }

  /** Steps of other objects leave a reconcile where it is. */
  lemma OthersKeepPc(w: World, a: Act, k: Key)
    requires a.Glue? || a.Restart? || a.Create? || a.Modify? || a.Delete? || a.k != k
    ensures SamePc(w, Next(w, a), k)
  {
    if a.Create? || a.Modify? || a.Delete? {
      UserKeepsProcs(w, a);
    }
  }

  lemma EarlyStepsLayNoTrail(w: World, k: Key, ok: bool)
    ensures var v := FetchStep(w, k); SamePc(w, v, k) || TrailOf(v.procs[k]).None?
    ensures var v := PutFinalizerStep(w, k, ok); SamePc(w, v, k) || TrailOf(v.procs[k]).None?
    ensures var v := RefetchStep(w, k, ok); SamePc(w, v, k) || TrailOf(v.procs[k]).None?
    ensures var v := MutateStep(w, k); SamePc(w, v, k) || TrailOf(v.procs[k]).None?
    ensures SamePc(w, DropFinalizerStep(w, k, ok), k)
  {
  }

  /** A trail is there already, or is laid by rendering; the acknowledgement likewise, by writing. */
  lemma TrailStep(w: World, a: Act, k: Key, t: Trail)
    requires Bears(Next(w, a), k, t)
    ensures Bears(w, k, t) || (Renders(w, a, k, t) && !Acknowledged(Next(w, a), k))
    ensures Acknowledged(Next(w, a), k) ==> Acknowledged(w, k) || Writes(w, a, k, t)
  {
    if a.Glue? || a.Restart? || a.Create? || a.Modify? || a.Delete? || a.k != k {
      OthersKeepPc(w, a, k);
    } else if a.WritePrimary? || a.WriteMirror? || a.Render? {
      PublishingKeepsTrail(w, a, k, t);
    } else {
      EarlyStepsLayNoTrail(w, k, if a.PutFinalizer? || a.Refetch? || a.DropFinalizer? then a.ok else true);
    }
  }

  lemma PublishingKeepsTrail(w: World, a: Act, k: Key, t: Trail)
    requires (a.Render? || a.WritePrimary? || a.WriteMirror?) && a.k == k && Bears(Next(w, a), k, t)
    ensures Bears(w, k, t) || (Renders(w, a, k, t) && !Acknowledged(Next(w, a), k))
    ensures Acknowledged(Next(w, a), k) ==> Acknowledged(w, k) || Writes(w, a, k, t)
  {
  }

  // ---------------------------------------------------------------- the history of a trail

  ghost predicate RenderedAt(w: World, acts: seq<Act>, i: nat, k: Key, t: Trail) {
    i < |acts| && Renders(Exec(w, acts[..i]), acts[i], k, t)
  }

  ghost predicate WrittenAt(w: World, acts: seq<Act>, j: nat, k: Key, t: Trail) {
    j < |acts| && Writes(Exec(w, acts[..j]), acts[j], k, t)
  }

  /** The trail has not been interrupted since step i: one and the same reconcile has borne it. */
  ghost predicate Unbroken(w: World, acts: seq<Act>, i: nat, k: Key, t: Trail) {
    forall m :: i < m <= |acts| ==> Bears(Exec(w, acts[..m]), k, t)
  }

  /** The reconcile rendered the zone it carries. */
  ghost predicate HasRendered(w: World, acts: seq<Act>, i: nat, k: Key, t: Trail) {
    RenderedAt(w, acts, i, k, t) && Unbroken(w, acts, i, k, t)
  }

  /** And wrote it to the primary later. */
  ghost predicate HasWritten(w: World, acts: seq<Act>, i: nat, j: nat, k: Key, t: Trail) {
    i < j && HasRendered(w, acts, i, k, t) && WrittenAt(w, acts, j, k, t)
  }

  lemma UnbrokenSnoc(w: World, init: seq<Act>, a: Act, i: nat, k: Key, t: Trail)
    requires Unbroken(w, init, i, k, t) && Bears(Exec(w, init + [a]), k, t) && i <= |init|
    ensures Unbroken(w, init + [a], i, k, t)
  {
    var acts := init + [a];
    forall m | i < m <= |acts| ensures Bears(Exec(w, acts[..m]), k, t) {
      if m <= |init| {
        assert acts[..m] == init[..m];
      } else {
        assert acts[..m] == acts;
      }
    }
  }

  lemma RenderedSnoc(w: World, init: seq<Act>, a: Act, i: nat, k: Key, t: Trail)
    requires HasRendered(w, init, i, k, t) && Bears(Exec(w, init + [a]), k, t)
    ensures HasRendered(w, init + [a], i, k, t)
  {
    UnbrokenSnoc(w, init, a, i, k, t);
    assert (init + [a])[..i] == init[..i] && (init + [a])[i] == init[i];
  }

  lemma WrittenSnoc(w: World, init: seq<Act>, a: Act, j: nat, k: Key, t: Trail)
    requires WrittenAt(w, init, j, k, t)
    ensures WrittenAt(w, init + [a], j, k, t)
  {
    assert (init + [a])[..j] == init[..j] && (init + [a])[j] == init[j];
  }

  /** A reconcile past rendering has itself rendered the zone it carries; one past its Apply has written it since. */
  lemma {:induction false} TrailHistory(w: World, acts: seq<Act>, k: Key, t: Trail)
    requires Start(w) && Bears(Exec(w, acts), k, t)
    ensures exists i: nat :: HasRendered(w, acts, i, k, t)
    ensures Acknowledged(Exec(w, acts), k) ==> exists i: nat, j: nat :: HasWritten(w, acts, i, j, k, t)
  {
    if acts != [] {
      var init, a := acts[..|acts| - 1], acts[|acts| - 1];
      assert acts == init + [a];
      TrailStep(Exec(w, init), a, k, t);
      if Bears(Exec(w, init), k, t) {
        TrailHistory(w, init, k, t);
        TrailGoesOn(w, init, a, k, t);
      } else {
        TrailBegins(w, init, a, k, t);
      }
    }
  }

  lemma TrailBegins(w: World, init: seq<Act>, a: Act, k: Key, t: Trail)
    requires Renders(Exec(w, init), a, k, t) && Bears(Exec(w, init + [a]), k, t)
    ensures HasRendered(w, init + [a], |init|, k, t)
  {
    var acts := init + [a];
    assert acts[..|init|] == init && acts[..|acts|] == acts;
  }

  lemma TrailGoesOn(w: World, init: seq<Act>, a: Act, k: Key, t: Trail)
    requires Bears(Exec(w, init), k, t) && Bears(Exec(w, init + [a]), k, t)
    requires exists i: nat :: HasRendered(w, init, i, k, t)
    requires Acknowledged(Exec(w, init), k) ==> exists i: nat, j: nat :: HasWritten(w, init, i, j, k, t)
    requires Acknowledged(Exec(w, init + [a]), k) ==> Acknowledged(Exec(w, init), k) || Writes(Exec(w, init), a, k, t)
    ensures exists i: nat :: HasRendered(w, init + [a], i, k, t)
    ensures Acknowledged(Exec(w, init + [a]), k) ==> exists i: nat, j: nat :: HasWritten(w, init + [a], i, j, k, t)
  {
    var acts := init + [a];
    var i: nat :| HasRendered(w, init, i, k, t);
    RenderedSnoc(w, init, a, i, k, t);
    if Acknowledged(Exec(w, acts), k) {
      if Acknowledged(Exec(w, init), k) {
        var x: nat, j: nat :| HasWritten(w, init, x, j, k, t);
        RenderedSnoc(w, init, a, x, k, t);
        WrittenSnoc(w, init, a, j, k, t);
        assert HasWritten(w, acts, x, j, k, t);
      } else {
        assert acts[..|init|] == init;
        assert HasWritten(w, acts, i, |init|, k, t);
      }
    }
  }

  // ---------------------------------------------------------------- releases

  ghost predicate HoldsNothing(w: World, k: Key) {
    OwnerId(k) !in Run(w.ops).owned
  }

  /** While a reconcile that means to release is past removing its records, its owner holds nothing. */
  lemma ClearedHoldsNothing(w: World, k: Key)
    requires Safe(w) && k in w.procs && Cleared(w.procs[k])
    ensures HoldsNothing(w, k)
  {
    assert PcOk(w, k);
    RunTracks(w.ops);
  }

  lemma HoldsNothingThroughout(w: World, acts: seq<Act>, i: nat, k: Key, t: Trail)
    requires Start(w) && HasRendered(w, acts, i, k, t) && t.after.Release?
    ensures forall m :: i <= m <= |acts| ==> HoldsNothing(Exec(w, acts[..m]), k)
  {
    forall m | i <= m <= |acts| ensures HoldsNothing(Exec(w, acts[..m]), k) {
      RunsAreSafe(w, acts[..m]);
      assert i < m ==> Bears(Exec(w, acts[..m]), k, t);
      ClearedHoldsNothing(Exec(w, acts[..m]), k);
    }
  }

  /** The publication a release rests on. One reconcile rendered the zone at step i, wrote it to the primary at step
      j and has borne it ever since, meaning to release; the zone has none of the owner's slots, and from the
      rendering on the owner has held nothing. */
  ghost predicate CleanPublication(w: World, c: Claim, acts: seq<Act>, i: nat, j: nat, k: Key, t: Trail) {
    && HasWritten(w, acts, i, j, k, t)
    && t.after.Release?
    && Avoids(c, k, t.zone)
    && forall m :: i <= m <= |acts| ==> HoldsNothing(Exec(w, acts[..m]), k)
  }

  lemma ReleasingFacts(w: World, c: Claim, k: Key) returns (t: Trail)
    requires Safe(w) && Clean(w, c) && k in w.procs && w.procs[k].Releasing?
    ensures Bears(w, k, t) && Acknowledged(w, k) && t.after.Release? && Avoids(c, k, t.zone)
  {
    assert PcOk(w, k) && PcClean(w, c, k);
    t := TrailOf(w.procs[k]).value;
  }

  /** The finalizer of an object is lost by one step only: its release by a reconcile that has itself published a
      zone free of the object's slots, while the owner held nothing from the rendering of that zone on. */
  lemma ReleaseFollowsCleanPublication(w: World, c: Claim, acts: seq<Act>, a: Act, k: Key)
    requires StartOk(w, c) && ActsOk(w.derive, c, acts)
    requires Guards(Exec(w, acts), k) && !Guards(Next(Exec(w, acts), a), k)
    ensures a == DropFinalizer(k, true)
    ensures exists i: nat, j: nat, t :: CleanPublication(w, c, acts, i, j, k, t)
  {
    var v := Exec(w, acts);
    RunsAreClean(w, c, acts);
    GuardLostOnlyByDrop(v, a, k);
    var t := ReleasingFacts(v, c, k);
    TrailHistory(w, acts, k, t);
    var i: nat, j: nat :| HasWritten(w, acts, i, j, k, t);
    HoldsNothingThroughout(w, acts, i, k, t);
    assert CleanPublication(w, c, acts, i, j, k, t);
  }

  // ---------------------------------------------------------------- what the primary carries at a release

  /** Past its acknowledged Apply, and meaning to release. */
  ghost predicate Leaving(w: World, k: Key) {
    k in w.procs && Published(w.procs[k]) && Cleared(w.procs[k])
  }

  ghost predicate PrimaryAvoids(w: World, c: Claim, k: Key) {
    w.primary.Some? && Avoids(c, k, w.primary.value)
  }

  /** The primary has no slot of an owner that is leaving, and nothing on its way there has. */
  ghost predicate GoneFromPrimary(w: World, c: Claim) {
    forall k :: Leaving(w, k) ==>
      PrimaryAvoids(w, c, k) && forall l :: IsWriting(w, l) ==> Avoids(c, k, w.procs[l].zone)
  }

  /** A step that publishes nothing, renders nothing and acknowledges nothing. */
  lemma QuietGone(w: World, v: World, c: Claim)
    requires GoneFromPrimary(w, c) && v.primary == w.primary
    requires forall k :: Leaving(v, k) ==> Leaving(w, k)
    requires forall l :: IsWriting(v, l) ==> IsWriting(w, l) && v.procs[l] == w.procs[l]
    ensures GoneFromPrimary(v, c)
  {
  }

  lemma RenderGone(w: World, c: Claim, k: Key)
    requires Safe(w) && Clean(w, c) && Exclusive(c) && GoneFromPrimary(w, c)
    ensures GoneFromPrimary(RenderStep(w, k), c)
  {
    if IsRendering(w, k) {
      var v := RenderStep(w, k);
      forall l | Leaving(v, l) ensures Leaving(w, l) && Avoids(c, l, CurrentZone(w)) {
        assert PcOk(w, l);
        ZoneAvoids(w, c, l);
      }
      assert forall l :: IsWriting(v, l) ==> (l == k && v.procs[l].zone == CurrentZone(w))
                                             || (IsWriting(w, l) && v.procs[l] == w.procs[l]);
    }
  }

  lemma PrimaryGone(w: World, c: Claim, k: Key, ok: bool)
    requires Clean(w, c) && Tracked(w) && GoneFromPrimary(w, c)
    ensures GoneFromPrimary(PrimaryStep(w, k, ok), c)
  {
    if IsWriting(w, k) {
      var v := PrimaryStep(w, k, ok);
      assert forall l :: !IsWriting(v, l) by {
        forall l ensures !IsWriting(v, l) { assert l != k ==> !IsWriting(w, l); }
      }
      assert PcClean(w, c, k);
      assert forall l :: Leaving(v, l) && l != k ==> Leaving(w, l);
    }
  }

  lemma MirrorGone(w: World, c: Claim, k: Key, ok: bool)
    requires GoneFromPrimary(w, c)
    ensures GoneFromPrimary(MirrorStep(w, k, ok), c)
  {
    if k in w.procs && w.procs[k].Mirroring? {
      QuietGone(w, MirrorStep(w, k, ok), c);
    }
  }

  lemma EarlyStepsGone(w: World, c: Claim, k: Key, ok: bool)
    requires GoneFromPrimary(w, c)
    ensures GoneFromPrimary(FetchStep(w, k), c) && GoneFromPrimary(RefetchStep(w, k, ok), c)
    ensures GoneFromPrimary(MutateStep(w, k), c)
  {
    QuietGone(w, FetchStep(w, k), c);
    QuietGone(w, RefetchStep(w, k, ok), c);
    QuietGone(w, MutateStep(w, k), c);
  }

  lemma FinalizersGone(w: World, c: Claim, k: Key, ok: bool)
    requires GoneFromPrimary(w, c)
    ensures GoneFromPrimary(PutFinalizerStep(w, k, ok), c) && GoneFromPrimary(DropFinalizerStep(w, k, ok), c)
  {
    QuietGone(w, PutFinalizerStep(w, k, ok), c);
    QuietGone(w, DropFinalizerStep(w, k, ok), c);
  }

  lemma UserGone(w: World, c: Claim, a: Act)
    requires GoneFromPrimary(w, c) && (a.Create? || a.Modify? || a.Delete?)
    ensures GoneFromPrimary(UserStep(w, a), c)
  {
    UserKeepsProcs(w, a);
    QuietGone(w, UserStep(w, a), c);
  }

  lemma NextGone(w: World, c: Claim, a: Act)
    requires Safe(w) && Clean(w, c) && Exclusive(c) && Tracked(w) && GoneFromPrimary(w, c)
    ensures GoneFromPrimary(Next(w, a), c)
  {
    match a {
      case Render(k) => RenderGone(w, c, k);
      case WritePrimary(k, ok) => PrimaryGone(w, c, k, ok);
      case WriteMirror(k, ok) => MirrorGone(w, c, k, ok);
      case Fetch(k) => EarlyStepsGone(w, c, k, true);
      case Refetch(k, ok) => EarlyStepsGone(w, c, k, ok);
      case Mutate(k) => EarlyStepsGone(w, c, k, true);
      case PutFinalizer(k, ok) => FinalizersGone(w, c, k, ok);
      case DropFinalizer(k, ok) => FinalizersGone(w, c, k, ok);
      case Glue(r) => QuietGone(w, GlueStep(w, r), c);
      case Restart(seeds) => QuietGone(w, RestartStep(w, seeds), c);
      case Create(_, _) => UserGone(w, c, a);
      case Modify(_, _) => UserGone(w, c, a);
      case Delete(_) => UserGone(w, c, a);
    }
  }

  lemma {:induction false} RunsAreGone(w: World, c: Claim, acts: seq<Act>)
    requires StartOk(w, c) && ActsOk(w.derive, c, acts) && SerialApplies(w, acts)
    ensures GoneFromPrimary(Exec(w, acts), c)
  {
    if acts != [] {
      var init := acts[..|acts| - 1];
      assert forall i :: 0 <= i < |init| ==> init[i] == acts[i];
      RunsAreGone(w, c, init);
      RunsAreClean(w, c, init);
      SerialRunsAreTracked(w, init);
      NextGone(Exec(w, init), c, acts[|acts| - 1]);
    }
  }

  /** Without overlapping Applies more is true: when a finalizer goes, the primary itself carries none of the object's
      slots any more. */
  lemma ReleaseFindsPrimaryClean(w: World, c: Claim, acts: seq<Act>, a: Act, k: Key)
    requires StartOk(w, c) && ActsOk(w.derive, c, acts) && SerialApplies(w, acts)
    requires Guards(Exec(w, acts), k) && !Guards(Next(Exec(w, acts), a), k)
    ensures PrimaryAvoids(Exec(w, acts), c, k)
  {
    RunsAreSafe(w, acts);
    GuardLostOnlyByDrop(Exec(w, acts), a, k);
    RunsAreGone(w, c, acts);
    assert Leaving(Exec(w, acts), k);
  }
}
