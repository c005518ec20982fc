/** The two admission gates on lineage indexes, and what they guarantee over every run of requests: who writes an
    index, and that its root binding is sealed from creation to deletion. */
module Admission {
  import opened Text

  const INDEX_KIND := "InfrastructureLineageIndex"
  const CONTROLLER := "system:serviceaccount:seam-system:lineage-controller"

  datatype Operation = Create | Update | Delete

  datatype Request = Request(kind: string, op: Operation, user: string, binding: string)

  /** json.Unmarshal into an empty interface: none for malformed input. Two values are equal as reflect.DeepEqual
      says. */
  type Parser<!J> = string -> Option<J>

  // ---------------------------------------------------------------- comparing raw bindings

  predicate Absent(raw: string) {
    raw == "" || raw == "null"
  }

  /** rootBindingRawEqual. */
  predicate RawEqual<J(==)>(parse: Parser<J>, a: string, b: string) {
    if Absent(a) && Absent(b) then true
    else if Absent(a) != Absent(b) then false
    else if parse(a).None? then false
    else if parse(b).None? then false
    else parse(a).value == parse(b).value
  }

  /** What a raw binding means. */
  datatype Meaning<J> = Nothing | Malformed | Says(value: J)

  function MeaningOf<J>(parse: Parser<J>, raw: string): Meaning<J> {
    if Absent(raw) then Nothing else if parse(raw).None? then Malformed else Says(parse(raw).value)
  }

  /** Raw equality is equality of meaning, except that malformed text equals nothing, itself included. */
  lemma RawEqualIff<J>(parse: Parser<J>, a: string, b: string)
    ensures RawEqual(parse, a, b) <==> MeaningOf(parse, a) == MeaningOf(parse, b) && !MeaningOf(parse, a).Malformed?
  {
  }

  lemma RawEqualLaws<J>(parse: Parser<J>, a: string, b: string, c: string)
    ensures RawEqual(parse, a, b) <==> RawEqual(parse, b, a)
    ensures RawEqual(parse, a, b) && RawEqual(parse, b, c) ==> RawEqual(parse, a, c)
    ensures RawEqual(parse, a, a) <==> Absent(a) || parse(a).Some?
    ensures RawEqual(parse, a, "") <==> a == "" || a == "null"
    ensures a !in ["", "null"] && b !in ["", "null"] ==>
              (RawEqual(parse, a, b) <==> parse(a).Some? && parse(a) == parse(b))
  {
    RawEqualIff(parse, a, b);
    RawEqualIff(parse, b, c);
  }

  // ---------------------------------------------------------------- the gates

  /** EvaluateRootBindingImmutability. */
  predicate ImmutabilityAllows<J(==)>(parse: Parser<J>, before: string, r: Request) {
    r.kind != INDEX_KIND || r.op != Update || RawEqual(parse, before, r.binding)
  }

  /** EvaluateAuthorshipGate. */
  predicate AuthorshipAllows(r: Request) {
    r.kind != INDEX_KIND || r.op == Delete || r.user == CONTROLLER
  }

  predicate Admits<J(==)>(parse: Parser<J>, before: string, r: Request) {
    ImmutabilityAllows(parse, before, r) && AuthorshipAllows(r)
  }

  /** An update of an index goes through exactly when the controller asks and the binding means what it meant. */
  lemma UpdateAdmittedIff<J>(parse: Parser<J>, before: string, r: Request)
    requires r.kind == INDEX_KIND && r.op == Update
    ensures Admits(parse, before, r)
            <==> r.user == CONTROLLER && MeaningOf(parse, before) == MeaningOf(parse, r.binding)
                 && !MeaningOf(parse, before).Malformed?
  {
    RawEqualIff(parse, before, r.binding);
  }

  /** The whole decision: another kind is none of their business, anybody may delete, and only the controller may
      create, or update to a binding that means the same. */
  lemma AdmitsIff<J>(parse: Parser<J>, before: string, r: Request)
    ensures Admits(parse, before, r) <==>
            || r.kind != "InfrastructureLineageIndex"
            || r.op == Delete
            || (&& r.user == "system:serviceaccount:seam-system:lineage-controller"
                && (|| r.op == Create
                    || (&& MeaningOf(parse, before) == MeaningOf(parse, r.binding)
                        && !MeaningOf(parse, before).Malformed?)))
  {
    if r.kind == INDEX_KIND && r.op == Update {
      UpdateAdmittedIff(parse, before, r);
    }
  }

  // ---------------------------------------------------------------- runs of requests

  /** One index name in the API server: what it stores, and the binding it was created with. */
  datatype Slot = Free | Held(binding: string, born: string)

  function Serve<J(==)>(parse: Parser<J>, s: Slot, r: Request): Slot {
    if r.kind != INDEX_KIND || !Admits(parse, if s.Held? then s.binding else "", r) then s
    else
      match r.op
      case Create => if s.Free? then Held(r.binding, r.binding) else s
      case Update => if s.Held? then s.(binding := r.binding) else s
      case Delete => Free
  }

  /** What a request for an index leaves behind, case by case. */
  lemma ServeSays<J>(parse: Parser<J>, s: Slot, r: Request)
    requires r.kind == "InfrastructureLineageIndex"
    ensures var controller := r.user == "system:serviceaccount:seam-system:lineage-controller";
            && (r.op == Delete ==> Serve(parse, s, r) == Free)
            && (r.op == Create ==>
                  Serve(parse, s, r) == if controller && s.Free? then Held(r.binding, r.binding) else s)
            && (r.op == Update && s.Free? ==> Serve(parse, s, r) == Free)
            && (r.op == Update && s.Held? ==>
                  && Serve(parse, s, r).Held? && Serve(parse, s, r).born == s.born
                  && (Serve(parse, s, r).binding == r.binding <==>
                        || s.binding == r.binding
                        || (&& controller && !MeaningOf(parse, s.binding).Malformed?
                            && MeaningOf(parse, s.binding) == MeaningOf(parse, r.binding)))
                  && (Serve(parse, s, r).binding == r.binding || Serve(parse, s, r) == s))
  {
    AdmitsIff(parse, if s.Held? then s.binding else "", r);
  }

  function ServeAll<J(==)>(parse: Parser<J>, s: Slot, rs: seq<Request>): Slot {
    if rs == [] then s else Serve(parse, ServeAll(parse, s, rs[..|rs| - 1]), rs[|rs| - 1])
  }

  ghost predicate Sealed<J>(parse: Parser<J>, s: Slot) {
    s.Held? ==> s.binding == s.born || RawEqual(parse, s.born, s.binding)
  }

  lemma ServeSeals<J>(parse: Parser<J>, s: Slot, r: Request)
    requires Sealed(parse, s)
    ensures Sealed(parse, Serve(parse, s, r))
    ensures s.Held? && Serve(parse, s, r).Held? ==> Serve(parse, s, r).born == s.born
    ensures Serve(parse, s, r) != s ==> r.op == Delete || r.user == CONTROLLER
  {
    if s.Held? && r.op == Update {
      RawEqualLaws(parse, s.born, s.binding, r.binding);
    }
  }

  /** Over every run of requests by anybody, a stored binding equals the one its index was created with. */
  lemma {:induction false} BindingIsSealed<J>(parse: Parser<J>, rs: seq<Request>)
    ensures Sealed(parse, ServeAll(parse, Free, rs))
  {
    if rs != [] {
      var init := rs[..|rs| - 1];
      BindingIsSealed(parse, init);
      ServeSeals(parse, ServeAll(parse, Free, init), rs[|rs| - 1]);
    }
  }

  /** A run without an admitted delete, from an index that is there: the last binding means what the first did. */
  lemma {:induction false} UpdatesKeepMeaning<J>(parse: Parser<J>, s: Slot, rs: seq<Request>)
    requires s.Held?
    requires forall i :: 0 <= i < |rs| ==> rs[i].kind == INDEX_KIND ==> rs[i].op != Delete
    ensures var last := ServeAll(parse, s, rs);
            && last.Held? && last.born == s.born
            && (last.binding == s.binding || RawEqual(parse, s.binding, last.binding))
            && MeaningOf(parse, last.binding) == MeaningOf(parse, s.binding)
  {
    if rs != [] {
      var init, r := rs[..|rs| - 1], rs[|rs| - 1];
      UpdatesKeepMeaning(parse, s, init);
      var mid := ServeAll(parse, s, init);
      RawEqualLaws(parse, s.binding, mid.binding, r.binding);
      RawEqualIff(parse, mid.binding, r.binding);
    }
  }

  /** Only the controller brings an index into being or changes it. */
  lemma {:induction false} OnlyTheControllerWrites<J>(parse: Parser<J>, s: Slot, rs: seq<Request>)
    requires forall i :: 0 <= i < |rs| ==> rs[i].user != CONTROLLER
    ensures ServeAll(parse, s, rs) == s || ServeAll(parse, s, rs) == Free
  {
    if rs != [] {
      OnlyTheControllerWrites(parse, s, rs[..|rs| - 1]);
    }
  }
}
