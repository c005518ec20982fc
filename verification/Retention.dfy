/** Pruning a descendant registry: the retention window in 64-bit nanoseconds, the three keep rules, and the
    loop that filters the registry by them. */
module Retention {
  import opened Text
  import opened Lineage

  // ---------------------------------------------------------------- the window

  const MAX_INT64: int := 0x7FFF_FFFF_FFFF_FFFF
  const TWO_TO_64: int := 0x1_0000_0000_0000_0000
  const MAX_INT32: int := 0x7FFF_FFFF
  const DAY: int := 86_400_000_000_000   // nanoseconds
  const HOUR: int := 3_600_000_000_000
  const DEFAULT_DAYS: int := 30

  /** The value an int64 holds after an operation whose exact result is x. */
  function Wrap64(x: int): (r: int)
    ensures -MAX_INT64 - 1 <= r <= MAX_INT64
    ensures (r - x) % TWO_TO_64 == 0
  {
    (x + MAX_INT64 + 1) % TWO_TO_64 - MAX_INT64 - 1
  }

  /** time.Time.Sub: exact, or the nearest duration there is. */
  function Since(now: int, past: int): int {
    var d := now - past;
    if d > MAX_INT64 then MAX_INT64 else if d < -MAX_INT64 - 1 then -MAX_INT64 - 1 else d
  }

  function Days(policy: Option<Lineage.Retention>): int {
    if policy.Some? && policy.value.days > 0 then policy.value.days else DEFAULT_DAYS
  }

  /** time.Duration(days) * 24 * time.Hour, each product wrapping. */
  function Window(days: int): int {
    Wrap64(Wrap64(days * 24) * HOUR)
  }

  lemma WrapExactIff(x: int)
    ensures Wrap64(x) == x <==> -MAX_INT64 - 1 <= x <= MAX_INT64
  {
  }

  /** For every retention an int32 can hold, the window is the stated number of days up to 106751 and not beyond. */
  lemma WindowExactIff(days: int)
    requires 0 < days <= MAX_INT32
    ensures Window(days) == days * DAY <==> days <= 106751
  {
    WrapExactIff(days * 24);
    WrapExactIff(days * DAY);
    assert days * 24 * HOUR == days * DAY;
  }

  /** Beyond that the window can come out negative, so that every timestamped entry counts as old. */
  lemma WindowCanTurnNegative()
    ensures Window(106752) < 0
  {
  }

  // ---------------------------------------------------------------- the keep rules

  /** What looking up the recorded object gave. */
  datatype Existence = Found | NotFound | Unavailable

  /** The three rules: no timestamp, still inside the window, or not confirmed gone. */
  predicate Keeps(e: DescendantEntry, seen: Existence, now: int, window: int) {
    || e.createdAt.None?
    || Since(now, e.createdAt.value) < window
    || seen != NotFound
  }

  function Kept(entries: seq<DescendantEntry>, seen: seq<Existence>, now: int, window: int): seq<DescendantEntry>
    requires |seen| == |entries|
  {
    if entries == [] then []
    else
      var n := |entries| - 1;
      Kept(entries[..n], seen[..n], now, window)
      + (if Keeps(entries[n], seen[n], now, window) then [entries[n]] else [])
  }

  /** The loop of pruneStaleDescendants; seen[i] is what looking up entry i gives, if the loop gets to ask. */
  method Prune(entries: seq<DescendantEntry>, seen: seq<Existence>, now: int, window: int)
    returns (kept: seq<DescendantEntry>, pruned: bool)
    requires |seen| == |entries|
    ensures kept == Kept(entries, seen, now, window)
    ensures pruned <==> kept != entries
  {
    kept, pruned := [], false;
    var i := 0;
    while i < |entries|
      invariant 0 <= i <= |entries|
      invariant kept == Kept(entries[..i], seen[..i], now, window)
      invariant |kept| <= i && (pruned <==> |kept| < i) && (!pruned ==> kept == entries[..i])
    {
      assert entries[..i + 1][..i] == entries[..i] && seen[..i + 1][..i] == seen[..i];
      var e := entries[i];
      if e.createdAt.None? {
        kept := kept + [e];
      } else if Since(now, e.createdAt.value) < window {
        kept := kept + [e];
      } else if seen[i] == Found {
        kept := kept + [e];
      } else if seen[i] != NotFound {
        kept := kept + [e];
      } else {
        pruned := true;
      }
      i := i + 1;
    }
    assert entries[..i] == entries && seen[..i] == seen;
  }

  // ---------------------------------------------------------------- an order-preserving filter

  ghost predicate ExactlyKept(at: seq<nat>, entries: seq<DescendantEntry>, seen: seq<Existence>, now: int, window: int)
    requires |seen| == |entries|
  {
    forall i :: 0 <= i < |entries| ==> (i in at <==> Keeps(entries[i], seen[i], now, window))
  }

  lemma ExactlySnoc(at: seq<nat>, at': seq<nat>, entries: seq<DescendantEntry>, seen: seq<Existence>, now: int,
                    window: int)
    requires |seen| == |entries| > 0 && Increasing(at, |entries| - 1)
    requires ExactlyKept(at, entries[..|entries| - 1], seen[..|entries| - 1], now, window)
    requires at' == if Keeps(entries[|entries| - 1], seen[|entries| - 1], now, window) then at + [|entries| - 1] else at
    ensures ExactlyKept(at', entries, seen, now, window)
  {
    var n := |entries| - 1;
    forall i | 0 <= i < |entries| ensures i in at' <==> Keeps(entries[i], seen[i], now, window) {
      if i < n {
        assert entries[..n][i] == entries[i] && seen[..n][i] == seen[i];
        assert i in at' <==> i in at;
      }
    }
  }

  /** What is kept is the registry at exactly the positions a rule keeps, in their order. */
  lemma {:induction false} KeptIsFilter(entries: seq<DescendantEntry>, seen: seq<Existence>, now: int, window: int)
    returns (at: seq<nat>)
    requires |seen| == |entries|
    ensures Picks(Kept(entries, seen, now, window), entries, at)
    ensures ExactlyKept(at, entries, seen, now, window)
  {
    if entries == [] {
      at := [];
    } else {
      var n := |entries| - 1;
      var before := KeptIsFilter(entries[..n], seen[..n], now, window);
      at := if Keeps(entries[n], seen[n], now, window) then before + [n] else before;
      ExactlySnoc(before, at, entries, seen, now, window);
      PicksSnoc(Kept(entries[..n], seen[..n], now, window), entries[..n], before, entries[n]);
      assert entries[..n] + [entries[n]] == entries;
      assert Kept(entries[..n], seen[..n], now, window) + [] == Kept(entries[..n], seen[..n], now, window);
    }
  }

  // ---------------------------------------------------------------- a fixed store

  type Lookup = (string, string, string, string, string) -> Existence

  function Ask(lookup: Lookup, e: DescendantEntry): Existence {
    lookup(e.group, e.version, e.kind, e.namespace, e.name)
  }

  function Answers(lookup: Lookup, entries: seq<DescendantEntry>): (seen: seq<Existence>)
    ensures |seen| == |entries|
    ensures forall i :: 0 <= i < |entries| ==> seen[i] == Ask(lookup, entries[i])
  {
    seq(|entries|, i requires 0 <= i < |entries| => Ask(lookup, entries[i]))
  }

  function Survivors(entries: seq<DescendantEntry>, lookup: Lookup, now: int, window: int): seq<DescendantEntry> {
    Kept(entries, Answers(lookup, entries), now, window)
  }

  lemma SurvivorsSnoc(entries: seq<DescendantEntry>, e: DescendantEntry, lookup: Lookup, now: int, window: int)
    ensures Survivors(entries + [e], lookup, now, window)
            == Survivors(entries, lookup, now, window) + (if Keeps(e, Ask(lookup, e), now, window) then [e] else [])
  {
    var all := entries + [e];
    assert all[..|entries|] == entries;
    assert Answers(lookup, all)[..|entries|] == Answers(lookup, entries);
  }

  /** With the objects fixed, a later pass drops whatever an earlier one dropped: pruning at a later clock after
      pruning now is pruning at the later clock alone. */
  lemma {:induction false} LaterPassAbsorbs(entries: seq<DescendantEntry>, lookup: Lookup, now: int, later: int,
                                            window: int)
    requires now <= later
    ensures Survivors(Survivors(entries, lookup, now, window), lookup, later, window)
            == Survivors(entries, lookup, later, window)
  {
    if entries != [] {
      var init, e := entries[..|entries| - 1], entries[|entries| - 1];
      assert entries == init + [e];
      LaterPassAbsorbs(init, lookup, now, later, window);
      SurvivorsSnoc(init, e, lookup, now, window);
      SurvivorsSnoc(init, e, lookup, later, window);
      var once := Survivors(init, lookup, now, window);
      SurvivorsSnoc(once, e, lookup, later, window);
      assert once + [] == once;
      assert Keeps(e, Ask(lookup, e), later, window) ==> Keeps(e, Ask(lookup, e), now, window);
    }
  }

  /** A second pass at the same clock and over the same objects drops nothing. */
  lemma SecondPassDropsNothing(entries: seq<DescendantEntry>, lookup: Lookup, now: int, window: int)
    ensures var once := Survivors(entries, lookup, now, window);
            Survivors(once, lookup, now, window) == once
  {
    LaterPassAbsorbs(entries, lookup, now, now, window);
  }
}
