/**
 * The status-condition list that every operator keeps on its objects:
 * a slice updated in place, read as a map from condition type to the last
 * value written for it, with a transition time per type.
 */
module Conditions {
  import opened Text

  datatype Condition = Condition(
    kind: string,
    status: string,
    reason: string,
    message: string,
    observedGeneration: int,
    lastTransitionTime: int)

  /** One call of SetCondition, together with the clock reading it took. */
  datatype Call = Call(
    kind: string,
    status: string,
    reason: string,
    message: string,
    observedGeneration: int,
    now: int)

  predicate NoneOf(list: seq<Condition>, kind: string) {
    forall i :: 0 <= i < |list| ==> list[i].kind != kind
  }

  predicate FirstAt(list: seq<Condition>, kind: string, i: nat) {
    i < |list| && list[i].kind == kind && NoneOf(list[..i], kind)
  }

  function Find(list: seq<Condition>, kind: string): (r: Option<nat>)
    ensures r.None? ==> NoneOf(list, kind)
    ensures r.Some? ==> FirstAt(list, kind, r.value)
  {
    if list == [] then None
    else if list[0].kind == kind then Some(0)
    else
      match Find(list[1..], kind)
      case None => None
      case Some(i) => assert list[..i + 1] == [list[0]] + list[1..][..i]; Some(i + 1)
  }

  function Appended(c: Call): Condition {
    Condition(c.kind, c.status, c.reason, c.message, c.observedGeneration, c.now)
  }

  function Overwritten(prior: Condition, c: Call): Condition {
    Condition(prior.kind, c.status, c.reason, c.message, c.observedGeneration,
              if prior.status != c.status then c.now else prior.lastTransitionTime)
  }

  /** The list that one SetCondition call leaves behind. */
  function Set(list: seq<Condition>, c: Call): seq<Condition> {
    match Find(list, c.kind)
    case None => list + [Appended(c)]
    case Some(i) => list[i := Overwritten(list[i], c)]
  }

  class ConditionList {
    var items: seq<Condition>

    constructor ()
      ensures items == []
    {
      items := [];
    }

    method FindCondition(kind: string) returns (r: Option<nat>)
      ensures r == Find(items, kind)
    {
      var i := 0;
      while i < |items|
        invariant 0 <= i <= |items|
        invariant NoneOf(items[..i], kind)
      {
        if items[i].kind == kind {
          assert FirstAt(items, kind, i);
          FirstIsFind(items, kind, i);
          return Some(i);
        }
        assert items[..i + 1] == items[..i] + [items[i]];
        i := i + 1;
      }
      assert items[..i] == items;
      return None;
    }

    method SetCondition(c: Call)
      modifies this
      ensures items == Set(old(items), c)
    {
      var existing := FindCondition(c.kind);
      match existing
      case None =>
        items := items + [Appended(c)];
      case Some(i) =>
        var cond := items[i];
        if cond.status != c.status {
          cond := cond.(lastTransitionTime := c.now);
        }
        cond := cond.(status := c.status);
        cond := cond.(reason := c.reason);
        cond := cond.(message := c.message);
        cond := cond.(observedGeneration := c.observedGeneration);
        items := items[i := cond];
    }
  }

  lemma FirstIsFind(list: seq<Condition>, kind: string, i: nat)
    requires FirstAt(list, kind, i)
    ensures Find(list, kind) == Some(i)
  {
    var r := Find(list, kind);
    assert list[i].kind == kind;
    assert r.Some?;
    assert forall k :: 0 <= k < i ==> list[..i][k] == list[k];
    assert forall k :: 0 <= k < r.value ==> list[..r.value][k] == list[k];
  }

  // ---------------------------------------------------------------------
  // Whole histories

  /** The list after every call of a history, starting from the empty list. */
  function After(h: seq<Call>): seq<Condition> {
    if h == [] then [] else Set(After(h[..|h| - 1]), h[|h| - 1])
  }

  predicate Calls(h: seq<Call>, i: int, kind: string) {
    0 <= i < |h| && h[i].kind == kind
  }

  predicate LastCall(h: seq<Call>, i: int, kind: string) {
    Calls(h, i, kind) && forall j :: i < j < |h| ==> !Calls(h, j, kind)
  }

  predicate FirstCall(h: seq<Call>, i: int, kind: string) {
    Calls(h, i, kind) && forall j :: 0 <= j < i ==> !Calls(h, j, kind)
  }

  /**
   * Call s opens the unbroken run of equal status in which the history ends
   * for its type: every later call of the type wrote the same status, and the
   * call of the type just before s, if there is one, wrote another.
   */
  predicate OpensRun(h: seq<Call>, s: int, kind: string, status: string) {
    && Calls(h, s, kind)
    && (forall j :: s <= j < |h| && Calls(h, j, kind) ==> h[j].status == status)
    && (forall p :: 0 <= p < s && LastCall(h[..s], p, kind) ==> h[p].status != status)
  }

  /** A condition is what the history says about its type. */
  ghost predicate Tells(h: seq<Call>, c: Condition) {
    && (exists l :: LastCall(h, l, c.kind) && c.status == h[l].status && c.reason == h[l].reason
                    && c.message == h[l].message && c.observedGeneration == h[l].observedGeneration)
    && (exists s :: OpensRun(h, s, c.kind, c.status) && c.lastTransitionTime == h[s].now)
  }

  ghost predicate Earlier(h: seq<Call>, a: string, b: string) {
    exists i, j :: FirstCall(h, i, a) && FirstCall(h, j, b) && i < j
  }

  predicate Lists(list: seq<Condition>, kind: string) {
    exists k :: 0 <= k < |list| && list[k].kind == kind
  }

  predicate TypesUnique(list: seq<Condition>) {
    forall i, j :: 0 <= i < j < |list| ==> list[i].kind != list[j].kind
  }

  ghost predicate InFirstCallOrder(h: seq<Call>, list: seq<Condition>) {
    forall i, j :: 0 <= i < j < |list| ==> Earlier(h, list[i].kind, list[j].kind)
  }

  ghost predicate AllTold(h: seq<Call>, list: seq<Condition>) {
    forall i :: 0 <= i < |list| ==> Tells(h, list[i])
  }

  lemma CallsKept(h: seq<Call>, c: Call, kind: string)
    requires c.kind != kind
    ensures forall i :: LastCall(h, i, kind) ==> LastCall(h + [c], i, kind)
    ensures forall s, status :: OpensRun(h, s, kind, status) ==> OpensRun(h + [c], s, kind, status)
  {
    var g := h + [c];
    forall s, status | OpensRun(h, s, kind, status)
      ensures OpensRun(g, s, kind, status)
    {
      assert g[..s] == h[..s];
      forall j | s <= j < |g| && Calls(g, j, kind)
        ensures g[j].status == status
      {
        assert Calls(h, j, kind);
      }
    }
    forall i | LastCall(h, i, kind)
      ensures LastCall(g, i, kind)
    {
      forall j | i < j < |g|
        ensures !Calls(g, j, kind)
      {
        assert j < |h| ==> !Calls(h, j, kind);
      }
    }
  }

  /** A call of another type changes nothing in what the history tells. */
  lemma OtherTypeTells(h: seq<Call>, c: Call, cond: Condition)
    requires Tells(h, cond) && cond.kind != c.kind
    ensures Tells(h + [c], cond)
  {
    CallsKept(h, c, cond.kind);
    var l :| LastCall(h, l, cond.kind) && cond.status == h[l].status && cond.reason == h[l].reason
             && cond.message == h[l].message && cond.observedGeneration == h[l].observedGeneration;
    assert LastCall(h + [c], l, cond.kind) && (h + [c])[l] == h[l];
    var s :| OpensRun(h, s, cond.kind, cond.status) && cond.lastTransitionTime == h[s].now;
    assert OpensRun(h + [c], s, cond.kind, cond.status) && (h + [c])[s] == h[s];
  }

  /** The first call of a type opens its run. */
  lemma AppendTells(h: seq<Call>, c: Call)
    requires forall i :: !Calls(h, i, c.kind)
    ensures Tells(h + [c], Appended(c))
  {
    var g := h + [c];
    var n := |h|;
    assert g[..n] == h;
    assert LastCall(g, n, c.kind);
    assert OpensRun(g, n, c.kind, c.status) by {
      forall j | n <= j < |g| && Calls(g, j, c.kind) ensures g[j].status == c.status {}
    }
  }

  /** Overwriting starts a new run exactly when the status changes. */
  lemma OverwriteTells(h: seq<Call>, c: Call, cond: Condition)
    requires Tells(h, cond) && cond.kind == c.kind
    ensures Tells(h + [c], Overwritten(cond, c))
  {
    var g := h + [c];
    var n := |h|;
    assert g[..n] == h && g[n] == c;
    assert LastCall(g, n, c.kind);
    if cond.status != c.status {
      forall p | 0 <= p < n && LastCall(h, p, c.kind)
        ensures g[p].status != c.status
      {
        var l :| LastCall(h, l, cond.kind) && cond.status == h[l].status && cond.reason == h[l].reason
                 && cond.message == h[l].message && cond.observedGeneration == h[l].observedGeneration;
        OneLast(h, p, l, c.kind);
      }
      assert OpensRun(g, n, c.kind, c.status) by {
        forall j | n <= j < |g| && Calls(g, j, c.kind) ensures g[j].status == c.status {}
      }
    } else {
      var s :| OpensRun(h, s, cond.kind, cond.status) && cond.lastTransitionTime == h[s].now;
      assert g[..s] == h[..s] && g[s] == h[s];
      forall j | s <= j < |g| && Calls(g, j, c.kind)
        ensures g[j].status == c.status
      {
        assert j < n ==> Calls(h, j, c.kind);
      }
      assert OpensRun(g, s, c.kind, c.status);
    }
  }

  lemma OneLast(h: seq<Call>, i: int, j: int, kind: string)
    requires LastCall(h, i, kind) && LastCall(h, j, kind)
    ensures i == j
  {
    assert Calls(h, i, kind) && Calls(h, j, kind);
  }

  lemma EarlierGrows(h: seq<Call>, c: Call, a: string, b: string)
    requires Earlier(h, a, b)
    ensures Earlier(h + [c], a, b)
  {
    var g := h + [c];
    var i, j :| FirstCall(h, i, a) && FirstCall(h, j, b) && i < j;
    FirstCallGrows(h, c, i, a);
    FirstCallGrows(h, c, j, b);
  }

  lemma FirstCallGrows(h: seq<Call>, c: Call, i: int, kind: string)
    requires FirstCall(h, i, kind)
    ensures FirstCall(h + [c], i, kind)
  {
    forall j | 0 <= j < i ensures !Calls(h + [c], j, kind) {
      assert !Calls(h, j, kind);
    }
  }

  lemma {:induction false} FirstCallExists(h: seq<Call>, kind: string, n: nat)
    requires Calls(h, n, kind)
    ensures exists i :: FirstCall(h, i, kind)
    decreases n
  {
    if m :| 0 <= m < n && Calls(h, m, kind) {
      FirstCallExists(h, kind, m);
    } else {
      assert FirstCall(h, n, kind);
    }
  }

  /** A type called for the first time comes after every type called before. */
  lemma NewTypeIsLatest(h: seq<Call>, c: Call, a: string)
    requires forall i :: !Calls(h, i, c.kind)
    requires exists n: nat :: Calls(h, n, a)
    ensures Earlier(h + [c], a, c.kind)
  {
    var n: nat :| Calls(h, n, a);
    FirstCallExists(h, a, n);
    var i :| FirstCall(h, i, a);
    FirstCallGrows(h, c, i, a);
    forall j | 0 <= j < |h| ensures !Calls(h + [c], j, c.kind) {
      assert !Calls(h, j, c.kind);
    }
    assert FirstCall(h + [c], |h|, c.kind);
  }

  lemma TellsCalls(h: seq<Call>, cond: Condition)
    requires Tells(h, cond)
    ensures exists n: nat :: Calls(h, n, cond.kind)
  {
    var l :| LastCall(h, l, cond.kind) && cond.status == h[l].status && cond.reason == h[l].reason
             && cond.message == h[l].message && cond.observedGeneration == h[l].observedGeneration;
    assert Calls(h, l, cond.kind);
  }

  /** What every call keeps, for a type seen before. */
  lemma OverwriteStep(h: seq<Call>, list: seq<Condition>, c: Call, i: nat)
    requires AllTold(h, list) && InFirstCallOrder(h, list) && TypesUnique(list)
    requires FirstAt(list, c.kind, i)
    ensures AllTold(h + [c], list[i := Overwritten(list[i], c)])
    ensures InFirstCallOrder(h + [c], list[i := Overwritten(list[i], c)])
  {
    var next := list[i := Overwritten(list[i], c)];
    forall k | 0 <= k < |next| ensures Tells(h + [c], next[k]) {
      if k == i {
        OverwriteTells(h, c, list[i]);
      } else {
        assert list[k].kind != list[i].kind;
        OtherTypeTells(h, c, list[k]);
      }
    }
    forall j, k | 0 <= j < k < |next| ensures Earlier(h + [c], next[j].kind, next[k].kind) {
      EarlierGrows(h, c, list[j].kind, list[k].kind);
    }
  }

  /** What every call keeps, for a type not seen before. */
  lemma AppendStep(h: seq<Call>, list: seq<Condition>, c: Call)
    requires AllTold(h, list) && InFirstCallOrder(h, list)
    requires NoneOf(list, c.kind) && forall i :: !Calls(h, i, c.kind)
    ensures AllTold(h + [c], list + [Appended(c)])
    ensures InFirstCallOrder(h + [c], list + [Appended(c)])
  {
    var next := list + [Appended(c)];
    forall k | 0 <= k < |next| ensures Tells(h + [c], next[k]) {
      if k == |list| {
        AppendTells(h, c);
      } else {
        OtherTypeTells(h, c, list[k]);
      }
    }
    forall j, k | 0 <= j < k < |next| ensures Earlier(h + [c], next[j].kind, next[k].kind) {
      if k < |list| {
        EarlierGrows(h, c, list[j].kind, list[k].kind);
      } else {
        TellsCalls(h, list[j]);
        NewTypeIsLatest(h, c, list[j].kind);
      }
    }
  }

  lemma KindsGrow(h: seq<Call>, list: seq<Condition>, c: Call)
    requires forall i :: 0 <= i < |h| ==> Lists(list, h[i].kind)
    ensures forall i :: 0 <= i < |h| + 1 ==> Lists(Set(list, c), (h + [c])[i].kind)
  {
    var next := Set(list, c);
    forall i | 0 <= i < |h| + 1 ensures Lists(next, (h + [c])[i].kind) {
      if i < |h| {
        var k :| 0 <= k < |list| && list[k].kind == h[i].kind;
        assert next[k].kind == list[k].kind;
      } else {
        var at := if Find(list, c.kind).Some? then Find(list, c.kind).value else |list|;
        assert next[at].kind == c.kind;
      }
    }
  }

  /**
   * Over every history of calls the list has one entry per type that was ever
   * set, in the order of the first calls; each entry holds the last call of its
   * type; and its transition time is that of the call that opened the current
   * run of equal status.
   */
  lemma {:induction false} HistoryIsTold(h: seq<Call>)
    ensures TypesUnique(After(h))
    ensures forall i :: 0 <= i < |h| ==> Lists(After(h), h[i].kind)
    ensures AllTold(h, After(h))
    ensures InFirstCallOrder(h, After(h))
  {
    if h != [] {
      var g, c := h[..|h| - 1], h[|h| - 1];
      assert h == g + [c];
      HistoryIsTold(g);
      var list := After(g);
      KindsGrow(g, list, c);
      match Find(list, c.kind)
      case Some(i) => OverwriteStep(g, list, c, i);
      case None =>
        forall i ensures !Calls(g, i, c.kind) {
          assert 0 <= i < |g| ==> Lists(list, g[i].kind);
        }
        AppendStep(g, list, c);
    }
  }

  // ---------------------------------------------------------------------
  // The history determines the list

  ghost predicate Describes(h: seq<Call>, list: seq<Condition>) {
    && TypesUnique(list) && AllTold(h, list) && InFirstCallOrder(h, list)
    && forall i :: 0 <= i < |h| ==> Lists(list, h[i].kind)
  }

  lemma {:induction false} LastCallExists(h: seq<Call>, kind: string, n: nat)
    requires Calls(h, n, kind)
    ensures exists i :: n <= i < |h| && LastCall(h, i, kind)
    decreases |h| - n
  {
    if m :| n < m < |h| && Calls(h, m, kind) {
      LastCallExists(h, kind, m);
    } else {
      assert LastCall(h, n, kind);
    }
  }

  lemma NoLaterOpening(h: seq<Call>, s: int, t: int, kind: string, status: string)
    requires OpensRun(h, s, kind, status) && 0 <= s < t < |h|
    ensures !OpensRun(h, t, kind, status)
  {
    assert Calls(h[..t], s, kind);
    LastCallExists(h[..t], kind, s);
    var p :| s <= p < |h[..t]| && LastCall(h[..t], p, kind);
    assert Calls(h, p, kind) && h[p].status == status;
  }

  lemma ToldOnce(h: seq<Call>, c: Condition, d: Condition)
    requires Tells(h, c) && Tells(h, d) && c.kind == d.kind
    ensures c == d
  {
    var l :| LastCall(h, l, c.kind) && c.status == h[l].status && c.reason == h[l].reason
             && c.message == h[l].message && c.observedGeneration == h[l].observedGeneration;
    var m :| LastCall(h, m, d.kind) && d.status == h[m].status && d.reason == h[m].reason
             && d.message == h[m].message && d.observedGeneration == h[m].observedGeneration;
    OneLast(h, l, m, c.kind);
    var s :| OpensRun(h, s, c.kind, c.status) && c.lastTransitionTime == h[s].now;
    var t :| OpensRun(h, t, d.kind, d.status) && d.lastTransitionTime == h[t].now;
    OneOpening(h, s, t, c.kind, c.status);
  }

  lemma OneOpening(h: seq<Call>, s: int, t: int, kind: string, status: string)
    requires OpensRun(h, s, kind, status) && OpensRun(h, t, kind, status)
    ensures s == t
  {
    if s < t {
      NoLaterOpening(h, s, t, kind, status);
    } else if t < s {
      NoLaterOpening(h, t, s, kind, status);
    }
  }

  lemma NotBothEarlier(h: seq<Call>, a: string, b: string)
    ensures !(Earlier(h, a, b) && Earlier(h, b, a))
  {
    forall i, j | FirstCall(h, i, a) && FirstCall(h, j, a) ensures i == j {
      assert Calls(h, i, a) && Calls(h, j, a);
    }
    forall i, j | FirstCall(h, i, b) && FirstCall(h, j, b) ensures i == j {
      assert Calls(h, i, b) && Calls(h, j, b);
    }
  }

  /** Where the other list has the type found at k, when both lists agree before k: not before k. */
  lemma FoundFrom(h: seq<Call>, a: seq<Condition>, b: seq<Condition>, k: nat) returns (m: nat)
    requires Describes(h, a) && Describes(h, b) && k < |a| && (Agree(a, b, k) || Agree(b, a, k))
    ensures k <= m < |b| && b[m].kind == a[k].kind
  {
    TellsCalls(h, a[k]);
    var n: nat :| Calls(h, n, a[k].kind);
    assert Lists(b, h[n].kind);
    assert forall j :: 0 <= j < k ==> b[j].kind == a[j].kind != a[k].kind;
    m :| 0 <= m < |b| && b[m].kind == a[k].kind;
  }

  ghost predicate Agree(a: seq<Condition>, b: seq<Condition>, k: nat) {
    k <= |a| && k <= |b| && forall j :: 0 <= j < k ==> a[j].kind == b[j].kind
  }

  lemma AgreeOneMore(h: seq<Call>, a: seq<Condition>, b: seq<Condition>, k: nat)
    requires Describes(h, a) && Describes(h, b) && k < |a| && Agree(a, b, k)
    ensures Agree(a, b, k + 1)
  {
    var m := FoundFrom(h, a, b, k);
    var n := FoundFrom(h, b, a, k);
    OrderAt(h, b, k, m);
    OrderAt(h, a, k, n);
    NotBothEarlier(h, a[k].kind, b[k].kind);
  }

  lemma OrderAt(h: seq<Call>, list: seq<Condition>, k: nat, m: nat)
    requires InFirstCallOrder(h, list) && k <= m < |list|
    ensures k == m || Earlier(h, list[k].kind, list[m].kind)
  {
  }

  lemma {:induction false} AgreeAll(a: seq<Condition>, b: seq<Condition>, k: nat)
    requires Agree(a, b, k) && forall i: nat :: i < |a| && Agree(a, b, i) ==> Agree(a, b, i + 1)
    ensures Agree(a, b, |a|)
    decreases |a| - k
  {
    if k < |a| {
      AgreeAll(a, b, k + 1);
    }
  }

  lemma SameTypes(h: seq<Call>, a: seq<Condition>, b: seq<Condition>)
    requires Describes(h, a) && Describes(h, b)
    ensures Agree(a, b, |a|)
  {
    forall i: nat | i < |a| && Agree(a, b, i) ensures Agree(a, b, i + 1) {
      AgreeOneMore(h, a, b, i);
    }
    AgreeAll(a, b, 0);
  }

  /** Nothing else fits the description: the list is a function of the history. */
  lemma DescriptionUnique(h: seq<Call>, list: seq<Condition>)
    requires Describes(h, list)
    ensures list == After(h)
  {
    HistoryIsTold(h);
    var other := After(h);
    SameTypes(h, list, other);
    SameTypes(h, other, list);
    forall i | 0 <= i < |list| ensures list[i] == other[i] {
      ToldOnce(h, list[i], other[i]);
    }
  }
}
