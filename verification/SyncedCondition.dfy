/** The LineageSynced condition of a root declaration: the two loops that check and rewrite a conditions list. */
module SyncedCondition {
  import opened Lineage

  const LINEAGE_SYNCED := "LineageSynced"

  predicate IsSynced(c: RawCondition) {
    c.RawCondition? && c.kind == LINEAGE_SYNCED
  }

  predicate IsTrue(c: RawCondition) {
    IsSynced(c) && c.status == "True"
  }

  predicate SyncedTrue(cs: seq<RawCondition>) {
    exists i :: 0 <= i < |cs| && IsTrue(cs[i])
  }

  predicate Mentioned(cs: seq<RawCondition>) {
    exists i :: 0 <= i < |cs| && IsSynced(cs[i])
  }

  function Written(index: string, now: int, generation: int): (c: RawCondition)
    ensures IsTrue(c)
  {
    RawCondition(LINEAGE_SYNCED, "True", "LineageIndexCreated",
                 "InfrastructureLineageIndex \"" + index + "\" created by InfrastructureLineageController.", now,
                     generation)
  }

  /** Entries of the type give way to the new condition where they stand; everything else stays. */
  function Replaced(cs: seq<RawCondition>, c: RawCondition): (r: seq<RawCondition>)
    ensures |r| == |cs|
    ensures forall i :: 0 <= i < |cs| ==> r[i] == (if IsSynced(cs[i]) then c else cs[i])
  {
    seq(|cs|, i requires 0 <= i < |cs| => if IsSynced(cs[i]) then c else cs[i])
  }

  /** What ensureLineageSyncedTrue leaves of a conditions list. */
  function Ensured(cs: seq<RawCondition>, c: RawCondition): seq<RawCondition> {
    if SyncedTrue(cs) then cs
    else if Mentioned(cs) then Replaced(cs, c)
    else Replaced(cs, c) + [c]
  }

  method Check(cs: seq<RawCondition>) returns (already: bool)
    ensures already <==> SyncedTrue(cs)
  {
    var i := 0;
    while i < |cs|
      invariant 0 <= i <= |cs| && forall j :: 0 <= j < i ==> !IsTrue(cs[j])
    {
      if cs[i].RawCondition? && cs[i].kind == LINEAGE_SYNCED && cs[i].status == "True" {
        return true;
      }
      i := i + 1;
    }
    return false;
  }

  method Rewrite(cs: seq<RawCondition>, c: RawCondition) returns (updated: seq<RawCondition>)
    ensures updated == if Mentioned(cs) then Replaced(cs, c) else Replaced(cs, c) + [c]
  {
    updated := [];
    var replaced := false;
    var i := 0;
    while i < |cs|
      invariant 0 <= i <= |cs| == |Replaced(cs, c)|
      invariant updated == Replaced(cs, c)[..i]
      invariant replaced <==> exists j :: 0 <= j < i && IsSynced(cs[j])
    {
      if cs[i].RawCondition? && cs[i].kind == LINEAGE_SYNCED {
        updated := updated + [c];
        replaced := true;
      } else {
        updated := updated + [cs[i]];
      }
      i := i + 1;
    }
    if !replaced {
      updated := updated + [c];
    }
  }

  /** The conditions of other types. */
  function Others(cs: seq<RawCondition>): seq<RawCondition> {
    if cs == [] then []
    else
      var n := |cs| - 1;
      Others(cs[..n]) + (if IsSynced(cs[n]) then [] else [cs[n]])
  }

  lemma {:induction false} ReplacedKeepsOthers(cs: seq<RawCondition>, c: RawCondition)
    requires IsSynced(c)
    ensures Others(Replaced(cs, c)) == Others(cs)
  {
    if cs != [] {
      var n := |cs| - 1;
      ReplacedKeepsOthers(cs[..n], c);
      assert Replaced(cs, c)[..n] == Replaced(cs[..n], c);
    }
  }

  /** Whatever the list was: afterwards LineageSynced is true, the conditions of other types are the same ones in the
      same order and at the same places, and doing it again changes nothing. */
  lemma EnsuredSettles(cs: seq<RawCondition>, c: RawCondition, d: RawCondition)
    requires IsTrue(c)
    ensures SyncedTrue(Ensured(cs, c))
    ensures Others(Ensured(cs, c)) == Others(cs)
    ensures |cs| <= |Ensured(cs, c)| && forall i :: 0 <= i < |cs| && !IsSynced(cs[i]) ==> Ensured(cs, c)[i] == cs[i]
    ensures Ensured(Ensured(cs, c), d) == Ensured(cs, c)
  {
    if !SyncedTrue(cs) {
      ReplacedKeepsOthers(cs, c);
      var r := Ensured(cs, c);
      if Mentioned(cs) {
        var i :| 0 <= i < |cs| && IsSynced(cs[i]);
        assert r[i] == c;
      } else {
        assert r[|cs|] == c;
        assert r[..|cs|] == Replaced(cs, c);
      }
    }
  }
}
