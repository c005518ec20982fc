/** Classifying the terminal outcome of a derived object from its conditions: what the loop does, and how that
    relates to the rule list its documentation gives. */
module Outcome {
  import opened Text
  import opened Lineage

  datatype Verdict = Verdict(outcome: OutcomeType, reason: string, message: string)

  /** What one condition decides by itself, if anything. */
  function Decide(c: RawCondition): Option<OutcomeType> {
    if c.NotAnObject? then None
    else if c.kind == "Ready" then
      if c.status == "True" then Some(Succeeded)
      else if c.status != "False" then None
      else if Contains(ToLower(c.reason), "drift") then Some(Drifted)
      else if Contains(ToLower(c.reason), "superseded") then Some(Superseded)
      else Some(Failed)
    else if c.status != "True" then None
    else if c.kind == "Drifted" then Some(Drifted)
    else if c.kind == "Succeeded" then Some(Succeeded)
    else if c.kind == "Failed" then Some(Failed)
    else None
  }

  predicate Decisive(c: RawCondition) {
    Decide(c).Some?
  }

  predicate FirstDecisive(cs: seq<RawCondition>, i: int) {
    0 <= i < |cs| && Decisive(cs[i]) && forall j :: 0 <= j < i ==> !Decisive(cs[j])
  }

  predicate NoneDecisive(cs: seq<RawCondition>) {
    forall i :: 0 <= i < |cs| ==> !Decisive(cs[i])
  }

  function VerdictOf(c: RawCondition): Verdict
    requires Decisive(c)
  {
    Verdict(Decide(c).value, c.reason, c.message)
  }

  /** classifyTerminalOutcome: the first condition in list order that decides. */
  function Classify(cs: seq<RawCondition>): Option<Verdict> {
    if cs == [] then None
    else if Decisive(cs[0]) then Some(VerdictOf(cs[0]))
    else Classify(cs[1..])
  }

  method ClassifyTerminalOutcome(cs: seq<RawCondition>) returns (r: Option<Verdict>)
    ensures r == Classify(cs)
    ensures r.None? <==> NoneDecisive(cs)
    ensures forall i :: FirstDecisive(cs, i) ==> r == Some(VerdictOf(cs[i]))
  {
    var i := 0;
    while i < |cs|
      invariant 0 <= i <= |cs|
      invariant forall j :: 0 <= j < i ==> !Decisive(cs[j])
      invariant Classify(cs) == Classify(cs[i..])
    {
      var c := cs[i];
      if c.RawCondition? {
        if c.kind == "Ready" {
          if c.status == "True" {
            return Some(Verdict(Succeeded, c.reason, c.message));
          } else if c.status == "False" {
            var lower := ToLower(c.reason);
            if Contains(lower, "drift") {
              return Some(Verdict(Drifted, c.reason, c.message));
            } else if Contains(lower, "superseded") {
              return Some(Verdict(Superseded, c.reason, c.message));
            } else {
              return Some(Verdict(Failed, c.reason, c.message));
            }
          }
        } else if c.kind == "Drifted" {
          if c.status == "True" {
            return Some(Verdict(Drifted, c.reason, c.message));
          }
        } else if c.kind == "Succeeded" {
          if c.status == "True" {
            return Some(Verdict(Succeeded, c.reason, c.message));
          }
        } else if c.kind == "Failed" {
          if c.status == "True" {
            return Some(Verdict(Failed, c.reason, c.message));
          }
        }
      }
      i := i + 1;
    }
    return None;
  }

  lemma {:induction false} ClassifyIsFirst(cs: seq<RawCondition>, i: int)
    requires FirstDecisive(cs, i)
    ensures Classify(cs) == Some(VerdictOf(cs[i]))
  {
    if i > 0 {
      assert !Decisive(cs[0]);
      ClassifyIsFirst(cs[1..], i - 1);
    }
  }

  // ---------------------------------------------------------------- the table

  /** A condition that settles the matter: Ready either way, or one of the other three types when true. */
  predicate Terminal(c: RawCondition) {
    && c.RawCondition?
    && (|| (c.kind == "Ready" && (c.status == "True" || c.status == "False"))
        || ((c.kind == "Drifted" || c.kind == "Succeeded" || c.kind == "Failed") && c.status == "True"))
  }

  /** Some position of the reason, in lower case, starts this word. */
  ghost predicate Mentions(reason: string, word: string) {
    exists i :: StandsAt(ToLower(reason), word, i)
  }

  /** What a settling condition says. */
  ghost predicate Tells(c: RawCondition, v: Verdict)
    requires c.RawCondition?
  {
    && v.reason == c.reason && v.message == c.message
    && (v.outcome == Succeeded <==> c.kind == "Succeeded" || (c.kind == "Ready" && c.status == "True"))
    && (v.outcome == Drifted <==>
          c.kind == "Drifted" || (c.kind == "Ready" && c.status == "False" && Mentions(c.reason, "drift")))
    && (v.outcome == Superseded <==>
          && c.kind == "Ready" && c.status == "False"
          && !Mentions(c.reason, "drift") && Mentions(c.reason, "superseded"))
    && (v.outcome == Failed <==>
          || c.kind == "Failed"
          || (&& c.kind == "Ready" && c.status == "False"
              && !Mentions(c.reason, "drift") && !Mentions(c.reason, "superseded")))
  }

  lemma DecideTells(c: RawCondition)
    requires c.RawCondition?
    ensures Terminal(c) <==> Decisive(c)
    ensures Terminal(c) ==> Tells(c, VerdictOf(c))
  {
    ContainsIff(ToLower(c.reason), "drift");
    ContainsIff(ToLower(c.reason), "superseded");
  }

  lemma TerminalIffDecisive(c: RawCondition)
    ensures Terminal(c) <==> Decisive(c)
  {
    if c.RawCondition? {
      DecideTells(c);
    }
  }

  /** The whole table: nothing is recorded if no condition settles the matter; otherwise the first that does, in list
      order, gives the outcome, with its own reason and message. */
  lemma {:induction false} ClassifyTable(cs: seq<RawCondition>)
    ensures Classify(cs).None? <==> forall i :: 0 <= i < |cs| ==> !Terminal(cs[i])
    ensures forall i :: 0 <= i < |cs| && Terminal(cs[i]) && (forall j :: 0 <= j < i ==> !Terminal(cs[j])) ==>
              Classify(cs).Some? && Tells(cs[i], Classify(cs).value)
  {
    forall i | 0 <= i < |cs| ensures Terminal(cs[i]) <==> Decisive(cs[i]) {
      TerminalIffDecisive(cs[i]);
    }
    if i :| 0 <= i < |cs| && Terminal(cs[i]) && forall j :: 0 <= j < i ==> !Terminal(cs[j]) {
      assert FirstDecisive(cs, i);
      ClassifyIsFirst(cs, i);
      DecideTells(cs[i]);
    } else {
      NoneTerminal(cs, |cs|);
      ClassifyNone(cs);
    }
  }

  lemma {:induction false} NoneTerminal(cs: seq<RawCondition>, n: nat)
    requires n <= |cs|
    requires forall i :: 0 <= i < |cs| && Terminal(cs[i]) ==> exists j :: 0 <= j < i && Terminal(cs[j])
    ensures forall i :: 0 <= i < n ==> !Terminal(cs[i])
  {
    if n > 0 {
      NoneTerminal(cs, n - 1);
    }
  }

  lemma {:induction false} ClassifyNone(cs: seq<RawCondition>)
    requires NoneDecisive(cs)
    ensures Classify(cs).None?
  {
    if cs != [] {
      assert !Decisive(cs[0]);
      ClassifyNone(cs[1..]);
    }
  }

  // ---------------------------------------------------------------- the documented rules

  /** The number of the documented rule a condition comes under. */
  function Rule(c: RawCondition): nat
    requires c.RawCondition?
  {
    if c.kind == "Ready" then 1 else if c.kind == "Drifted" then 2 else if c.kind == "Succeeded" then 3 else 4
  }

  predicate Comes(cs: seq<RawCondition>, i: int, j: int)
    requires 0 <= i < |cs| && 0 <= j < |cs| && Decisive(cs[i]) && Decisive(cs[j])
  {
    Rule(cs[i]) < Rule(cs[j]) || (Rule(cs[i]) == Rule(cs[j]) && i <= j)
  }

  /** The condition the documentation picks: the lowest rule that applies, and within it the first. */
  predicate Documented(cs: seq<RawCondition>, i: int) {
    0 <= i < |cs| && Decisive(cs[i]) && forall j :: 0 <= j < |cs| && Decisive(cs[j]) ==> Comes(cs, i, j)
  }

  /** The documentation picks one condition whenever there is something to pick. */
  lemma {:induction false} DocumentedExists(cs: seq<RawCondition>)
    requires !NoneDecisive(cs)
    ensures exists i :: Documented(cs, i)
  {
    var n := |cs| - 1;
    var init := cs[..n];
    if NoneDecisive(init) {
      forall j | 0 <= j < n ensures !Decisive(cs[j]) { assert init[j] == cs[j]; }
      assert Documented(cs, n);
    } else {
      DocumentedExists(init);
      var i :| Documented(init, i);
      forall j | 0 <= j < n && Decisive(cs[j]) ensures Comes(cs, i, j) {
        assert init[j] == cs[j] && Comes(init, i, j);
      }
      if Decisive(cs[n]) && !Comes(cs, i, n) {
        assert Documented(cs, n);
      } else {
        assert Documented(cs, i);
      }
    }
  }

  /** In terms of the types: Ready before Drifted before Succeeded before Failed, and the first of its type. */
  lemma DocumentedRanks(cs: seq<RawCondition>, i: int, j: int)
    requires Documented(cs, i) && 0 <= j < |cs| && Terminal(cs[j])
    ensures Terminal(cs[i])
    ensures cs[j].kind == "Ready" ==> cs[i].kind == "Ready"
    ensures cs[j].kind == "Drifted" ==> cs[i].kind in {"Ready", "Drifted"}
    ensures cs[j].kind == "Succeeded" ==> cs[i].kind != "Failed"
    ensures cs[j].kind == cs[i].kind ==> i <= j
  {
    TerminalIffDecisive(cs[i]);
    TerminalIffDecisive(cs[j]);
    assert Comes(cs, i, j);
  }

  /** No rule precedes the rule of the first condition that decides. */
  predicate LeadsInRule(cs: seq<RawCondition>, first: int)
    requires FirstDecisive(cs, first)
  {
    forall j :: 0 <= j < |cs| && Decisive(cs[j]) ==> Rule(cs[first]) <= Rule(cs[j])
  }

  /** Code and documentation pick the same condition exactly when the first decisive one has the lowest rule. */
  lemma AgreesIff(cs: seq<RawCondition>, first: int, documented: int)
    requires FirstDecisive(cs, first) && Documented(cs, documented)
    ensures first == documented <==> LeadsInRule(cs, first)
  {
    assert Comes(cs, documented, first);
    if LeadsInRule(cs, first) {
      assert Rule(cs[first]) <= Rule(cs[documented]);
    } else {
      var j :| 0 <= j < |cs| && Decisive(cs[j]) && Rule(cs[j]) < Rule(cs[first]);
      assert Comes(cs, documented, j);
    }
  }

  /** In particular on every list whose decisive conditions come in the order of the rules. */
  lemma AgreesWhenInOrder(cs: seq<RawCondition>, documented: int)
    requires forall i, j :: 0 <= i < j < |cs| && Decisive(cs[i]) && Decisive(cs[j]) ==> Rule(cs[i]) <= Rule(cs[j])
    requires Documented(cs, documented)
    ensures FirstDecisive(cs, documented)
    ensures Classify(cs) == Some(VerdictOf(cs[documented]))
  {
    assert forall j :: 0 <= j < |cs| && Decisive(cs[j]) ==> Comes(cs, documented, j);
    ClassifyIsFirst(cs, documented);
  }

  /** A failed condition listed before a true Ready one: recorded as Failed, documented as Succeeded. */
  lemma OrderMatters(reason: string, message: string)
    ensures var cs := [RawCondition("Failed", "True", reason, message, 0, 0),
                       RawCondition("Ready", "True", reason, message, 0, 0)];
            && Classify(cs) == Some(Verdict(Failed, reason, message))
            && Documented(cs, 1) && VerdictOf(cs[1]) == Verdict(Succeeded, reason, message)
  {
    var failed := RawCondition("Failed", "True", reason, message, 0, 0);
    var ready := RawCondition("Ready", "True", reason, message, 0, 0);
    assert Decide(failed) == Some(Failed) && Decide(ready) == Some(Succeeded);
    assert Rule(failed) == 4 && Rule(ready) == 1;
  }
}
