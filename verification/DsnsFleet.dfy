/** Naming rules that make the claims of module DsnsRuns exclusive, and the guarantees of every run for fleets of
    objects named so. */
module DsnsFleet {
  import opened Text
  import opened Zone
  import opened DnsState
  import opened Derive
  import opened Dsns
  import opened DsnsRuns
  import opened DsnsPublish
  import opened DsnsRebuild
  import opened DsnsRelease

  /** TalosClusters with dot-free names other than "ns" and IdentityProviders, each kind in one namespace;
      RunnerConfigs in tenant namespaces of clusters not called "management". Kubernetes names are lower-case
      and namespaces are single labels. */
  ghost predicate Eligible(home: string, k: Key) {
    && ToLower(k.name) == k.name && ToLower(k.namespace) == k.namespace && '.' !in k.namespace
    && (|| (k.kind == TALOS_CLUSTER && k.namespace == home && '.' !in k.name && k.name != "ns")
        || (k.kind == IDENTITY_PROVIDER && k.namespace == home)
        || (k.kind == RUNNER_CONFIG && ClusterFromNamespace(k.namespace) !in {"", "management"}))
  }

  ghost predicate Is(o: Resource, k: Key) {
    o.kind == k.kind && o.namespace == k.namespace && o.name == k.name
  }

  /** An eligible object claims every slot it could ever emit, whatever its fields and conditions. */
  ghost predicate MayEmit(hash: Hash, home: string, k: Key, x: string) {
    Eligible(home, k) && exists o :: Is(o, k) && x in Keys(DeriveRecords(hash, o))
  }

  ghost function FleetClaim(hash: Hash, home: string): Claim {
    (k, x) => MayEmit(hash, home, k, x)
  }

  lemma SharedKeyCollides(a: seq<Record>, b: seq<Record>, x: string)
    requires x in Keys(a) && x in Keys(b)
    ensures Collide(a, b)
  {
    var i :| 0 <= i < |a| && Keys(a)[i] == x;
    var j :| 0 <= j < |b| && Keys(b)[j] == x;
    assert KeyOf(a[i]) == KeyOf(b[j]);
  }

  lemma EligibleCollisionsAreSelf(hash: Hash, home: string, k: Key, l: Key, o: Resource, p: Resource)
    requires Eligible(home, k) && Eligible(home, l) && Is(o, k) && Is(p, l)
    requires Collide(DeriveRecords(hash, o), DeriveRecords(hash, p))
    ensures k == l
  {
    if k.kind != l.kind {
      KindsNeverCollide(hash, o, p);
    } else if k.kind == TALOS_CLUSTER {
      if ToLower(o.name) != ToLower(p.name) {
        DistinctTalosClustersAreApart(hash, o, p);
      }
    } else if k.kind == IDENTITY_PROVIDER {
      IdentityProvidersCollideIff(hash, o, p);
    } else {
      TenantRunnerConfigsCollideIff(hash, o, p);
    }
  }

  lemma FleetClaimsAreExclusive(hash: Hash, home: string)
    ensures Exclusive(FleetClaim(hash, home))
  {
    var c := FleetClaim(hash, home);
    forall k, l, x | c(k, x) && c(l, x) ensures k == l {
      var o :| Is(o, k) && x in Keys(DeriveRecords(hash, o));
      var p :| Is(p, l) && x in Keys(DeriveRecords(hash, p));
      SharedKeyCollides(DeriveRecords(hash, o), DeriveRecords(hash, p), x);
      EligibleCollisionsAreSelf(hash, home, k, l, o, p);
    }
  }

  /** The two static records of the program keep out of every such claim. */
  lemma ProgramStaticsAreOk(hash: Hash, home: string, r: Record)
    requires StaticKey(KeyOf(r)) && r.rtype != TYPE_NS
    ensures StaticOk(FleetClaim(hash, home), r)
  {
    forall k ensures !MayEmit(hash, home, k, KeyOf(r)) {
      if MayEmit(hash, home, k, KeyOf(r)) {
        var o :| Is(o, k) && KeyOf(r) in Keys(DeriveRecords(hash, o));
        var i :| 0 <= i < |DeriveRecords(hash, o)| && Keys(DeriveRecords(hash, o))[i] == KeyOf(r);
        assert StaticKey(KeyOf(DeriveRecords(hash, o)[i]));
        StaticSlotTakenIff(hash, o);
      }
    }
  }

  /** Creating or changing an eligible object is always within its claim. */
  lemma EligibleActsAreOk(hash: Hash, home: string, a: Act)
    requires (a.Create? || a.Modify?) && Eligible(home, a.k)
    ensures ActOk(Deriver(hash), FleetClaim(hash, home), a)
  {
    var o := Named(a.k, a.o);
    assert Is(o, a.k);
    forall x | x in Keys(Deriver(hash)(o)) ensures MayEmit(hash, home, a.k, x) { }
  }

  // ---------------------------------------------------------------- fleets

  ghost predicate ProgramStatic(r: Record) {
    StaticKey(KeyOf(r)) && r.rtype != TYPE_NS
  }

  ghost predicate ProgramStatics(seeds: seq<Record>) {
    forall i :: 0 <= i < |seeds| ==> ProgramStatic(seeds[i])
  }

  /** A fresh process over eligible objects only, seeded with the program's own static records. */
  ghost predicate FleetStart(hash: Hash, home: string, w: World) {
    && Start(w) && w.derive == Deriver(hash)
    && (forall k :: k in w.store ==> Eligible(home, k) && Is(w.store[k], k))
    && exists seeds :: w.ops == Statics(seeds) && ProgramStatics(seeds)
  }

  ghost predicate FleetAct(home: string, a: Act) {
    match a
    case Create(k, _) => Eligible(home, k)
    case Modify(k, _) => Eligible(home, k)
    case Glue(r) => ProgramStatic(r)
    case Restart(seeds) => ProgramStatics(seeds)
    case _ => true
  }

  ghost predicate FleetRun(home: string, acts: seq<Act>) {
    forall i :: 0 <= i < |acts| ==> FleetAct(home, acts[i])
  }

  lemma SeedsAreOk(hash: Hash, home: string, seeds: seq<Record>)
    requires ProgramStatics(seeds)
    ensures forall i :: 0 <= i < |seeds| ==> StaticOk(FleetClaim(hash, home), seeds[i])
  {
    forall i | 0 <= i < |seeds| ensures StaticOk(FleetClaim(hash, home), seeds[i]) {
      ProgramStaticsAreOk(hash, home, seeds[i]);
    }
  }

  lemma FleetStartIsOk(hash: Hash, home: string, w: World)
    requires FleetStart(hash, home, w)
    ensures StartOk(w, FleetClaim(hash, home))
  {
    var c := FleetClaim(hash, home);
    FleetClaimsAreExclusive(hash, home);
    var seeds :| w.ops == Statics(seeds) && ProgramStatics(seeds);
    SeedsAreOk(hash, home, seeds);
    forall k | k in w.store ensures Within(c, k, RecordsOf(w, w.store[k])) {
      forall x | x in Keys(RecordsOf(w, w.store[k])) ensures MayEmit(hash, home, k, x) {
        assert Is(w.store[k], k);
      }
    }
  }

  lemma FleetActsAreOk(hash: Hash, home: string, acts: seq<Act>)
    requires FleetRun(home, acts)
    ensures ActsOk(Deriver(hash), FleetClaim(hash, home), acts)
  {
    forall i | 0 <= i < |acts| ensures ActOk(Deriver(hash), FleetClaim(hash, home), acts[i]) {
      assert FleetAct(home, acts[i]);
      match acts[i]
      case Create(_, _) => EligibleActsAreOk(hash, home, acts[i]);
      case Modify(_, _) => EligibleActsAreOk(hash, home, acts[i]);
      case Glue(r) => ProgramStaticsAreOk(hash, home, r);
      case Restart(seeds) => SeedsAreOk(hash, home, seeds);
      case _ =>
    }
  }

  /** In every run of a fleet, with no assumption on keys left: the zone is the batch projection of its history, and
      every zone the primary acknowledged has an address for each name server it delegates to. */
  lemma FleetsProject(hash: Hash, home: string, w: World, acts: seq<Act>)
    requires FleetStart(hash, home, w) && FleetRun(home, acts)
    ensures Projects(CurrentZone(Exec(w, acts)), BatchOf(Exec(w, acts).ops))
    ensures forall z :: z in Exec(w, acts).acked ==> GlueClosed(z)
  {
    FleetStartIsOk(hash, home, w);
    FleetActsAreOk(hash, home, acts);
    RunsProject(w, FleetClaim(hash, home), acts);
    forall z | z in Exec(w, acts).acked ensures GlueClosed(z) {
      PublishedDelegationsHaveGlue(w, FleetClaim(hash, home), acts, z);
    }
  }

  /** In every run of a fleet a finalizer is released only after a clean publication: of a zone with no slot the
      object could ever emit. */
  lemma FleetsReleaseCleanly(hash: Hash, home: string, w: World, acts: seq<Act>, a: Act, k: Key)
    requires FleetStart(hash, home, w) && FleetRun(home, acts)
    requires Guards(Exec(w, acts), k) && !Guards(Next(Exec(w, acts), a), k)
    ensures a == DropFinalizer(k, true)
    ensures exists i: nat, j: nat, t :: CleanPublication(w, FleetClaim(hash, home), acts, i, j, k, t)
  {
    FleetStartIsOk(hash, home, w);
    FleetActsAreOk(hash, home, acts);
    ReleaseFollowsCleanPublication(w, FleetClaim(hash, home), acts, a, k);
  }

  /** And when its Applies do not overlap, the primary then carries no such slot. */
  lemma FleetsLeavePrimary(hash: Hash, home: string, w: World, acts: seq<Act>, a: Act, k: Key)
    requires FleetStart(hash, home, w) && FleetRun(home, acts) && SerialApplies(w, acts)
    requires Guards(Exec(w, acts), k) && !Guards(Next(Exec(w, acts), a), k)
    ensures PrimaryAvoids(Exec(w, acts), FleetClaim(hash, home), k)
  {
    FleetStartIsOk(hash, home, w);
    FleetActsAreOk(hash, home, acts);
    ReleaseFindsPrimaryClean(w, FleetClaim(hash, home), acts, a, k);
  }

  lemma OfferedIsClaimed(hash: Hash, home: string, store: Objects, k: Key, x: string)
    requires (forall l :: l in store ==> Eligible(home, l) && Is(store[l], l)) && Offers(Deriver(hash), store, k, x)
    ensures FleetClaim(hash, home)(k, x)
  {
    ContributionIsLast(DeriveRecords(hash, store[k]), x);
    assert Is(store[k], k);
  }

  /** A fleet meets the conditions of a rebuild. */
  lemma FleetsRebuild(hash: Hash, home: string, w: World, acts: seq<Act>)
    requires FleetStart(hash, home, w) && FleetRun(home, acts) && forall i :: 0 <= i < |acts| ==> !ByUser(acts[i])
    ensures FreshStart(w) && CalmRun(w, acts)
  {
    var c := FleetClaim(hash, home);
    FleetClaimsAreExclusive(hash, home);
    forall k, x | Offers(w.derive, w.store, k, x) ensures c(k, x) {
      OfferedIsClaimed(hash, home, w.store, k, x);
    }
    var seeds :| w.ops == Statics(seeds) && ProgramStatics(seeds);
    SeedsAreOk(hash, home, seeds);
    assert AllFree(w.derive, w.store, seeds);
    FleetActsAreOk(hash, home, acts);
    forall i | 0 <= i < |acts| ensures Calm(w, acts[i]) {
      assert ActOk(Deriver(hash), c, acts[i]);
    }
  }
}
