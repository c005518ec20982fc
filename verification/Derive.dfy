/** The records each watched object contributes, and when the records of two objects share a slot. */
module Derive {
  import opened Text
  import opened Zone
  import opened DnsState

  const TALOS_CLUSTER := "InfrastructureTalosCluster"
  const PACK_INSTANCE := "InfrastructurePackInstance"
  const IDENTITY_BINDING := "IdentityBinding"
  const IDENTITY_PROVIDER := "IdentityProvider"
  const RUNNER_CONFIG := "InfrastructureRunnerConfig"

  /** An element of status.conditions; the program skips elements that are not objects. */
  datatype Condition = Condition(ctype: string, status: string, since: Option<string>) | NotAnObject

  /** A watched object. fields maps a dotted path such as "spec.mode" to the string found there. */
  datatype Resource = Resource(
    kind: string, namespace: string, name: string,
    fields: map<string, string>, conditions: seq<Condition>,
    finalizers: seq<string>, deleting: bool, version: nat)

  /** The first 16 hexadecimal digits of a SHA-256 sum, left open. */
  type Hash = string -> string

  // ---------------------------------------------------------------- reading an object

  /** unstructured.NestedString: a missing field reads as the empty string. */
  function Field(o: Resource, path: string): string {
    if path in o.fields then o.fields[path] else ""
  }

  predicate ConditionTrue(o: Resource, ctype: string) {
    exists i :: 0 <= i < |o.conditions| && o.conditions[i].Condition?
                && o.conditions[i].ctype == ctype && o.conditions[i].status == "True"
  }

  /** The time of the first condition of the type that carries one. */
  function Since(cs: seq<Condition>, ctype: string): string {
    if cs == [] then ""
    else if cs[0].Condition? && cs[0].ctype == ctype && cs[0].since.Some? then cs[0].since.value
    else Since(cs[1..], ctype)
  }

  const TENANT_PREFIX := "seam-tenant-"

  function ClusterFromNamespace(ns: string): string {
    if HasPrefix(ns, TENANT_PREFIX) then ns[|TENANT_PREFIX|..] else ""
  }

  function Or(s: string, fallback: string): string {
    if s == "" then fallback else s
  }

  // ---------------------------------------------------------------- one function per kind

  predicate IsScreen(o: Resource) {
    Field(o, "spec.infrastructureProvider") == "screen"
  }

  function TalosClusterRecords(o: Resource): seq<Record> {
    var ip := Field(o, "spec.clusterEndpoint");
    if !ConditionTrue(o, "Ready") || ip == "" then []
    else
      [Record(o.name, TYPE_A, 0, ip), Record("api." + o.name, TYPE_A, 0, ip)]
      + if IsScreen(o) then
          [Record(o.name, TYPE_NS, 0, "ns." + o.name + "." + ZONE), Record("ns." + o.name, TYPE_A, 0, ip)]
        else
          [Record("role." + o.name, TYPE_TXT, 0, Or(Or(Field(o, "status.origin"), Field(o, "spec.mode")), "general"))]
  }

  function IdentityBindingRecords(hash: Hash, o: Resource): seq<Record> {
    var cluster, subject := ClusterFromNamespace(o.namespace), Field(o, "spec.subject");
    if !ConditionTrue(o, "TrustAnchorResolved") || cluster == "" || subject == "" then []
    else
      [Record("identity." + hash(subject) + ".guardian." + cluster, TYPE_TXT, 0,
              Field(o, "spec.rbacProfileRef.name") + " " + Field(o, "spec.identityProviderRef.name"))]
  }

  function IdentityProviderRecords(o: Resource): seq<Record> {
    if !ConditionTrue(o, "Valid") || Field(o, "status.issuerURL") == "" then []
    else [Record("idp." + o.name + ".guardian", TYPE_TXT, 0, Field(o, "status.issuerURL"))]
  }

  function PackName(o: Resource): string { Or(Field(o, "spec.clusterPackRef"), o.name) }

  function PackVersion(o: Resource): string { Or(Field(o, "spec.version"), "unknown") }

  function PackCluster(o: Resource): string {
    Or(Field(o, "spec.targetClusterRef"), ClusterFromNamespace(o.namespace))
  }

  function PackInstanceRecords(o: Resource): seq<Record> {
    if !ConditionTrue(o, "Ready") || PackCluster(o) == "" then []
    else
      [Record("pack." + PackName(o) + "." + PackVersion(o) + ".wrapper." + PackCluster(o), TYPE_TXT, 0,
              Or(Field(o, "status.receiptDigest"), "delivered"))]
  }

  function RunnerCluster(o: Resource): string { Or(ClusterFromNamespace(o.namespace), "management") }

  function RunnerConfigRecords(o: Resource): seq<Record> {
    var rec := "run." + o.name + ".conductor." + RunnerCluster(o);
    if ConditionTrue(o, "Ready") then
      [Record(rec, TYPE_TXT, 0, "phase=Completed completed=" + Since(o.conditions, "Ready"))]
    else if ConditionTrue(o, "Degraded") then
      [Record(rec, TYPE_TXT, 0, "phase=Failed completed=" + Since(o.conditions, "Degraded"))]
    else []
  }

  function DeriveRecords(hash: Hash, o: Resource): seq<Record> {
    if o.kind == TALOS_CLUSTER then TalosClusterRecords(o)
    else if o.kind == IDENTITY_BINDING then IdentityBindingRecords(hash, o)
    else if o.kind == IDENTITY_PROVIDER then IdentityProviderRecords(o)
    else if o.kind == PACK_INSTANCE then PackInstanceRecords(o)
    else if o.kind == RUNNER_CONFIG then RunnerConfigRecords(o)
    else []
  }

  // ---------------------------------------------------------------- shared slots

  ghost predicate Collide(a: seq<Record>, b: seq<Record>) {
    exists i, j :: 0 <= i < |a| && 0 <= j < |b| && KeyOf(a[i]) == KeyOf(b[j])
  }

  /** Records share a slot exactly when type and lower-cased name agree. */
  lemma SameSlot(t: string, n: string, u: string, m: string)
    requires ':' !in t && ':' !in u
    ensures RecordKey(t, n) == RecordKey(u, m) <==> t == u && ToLower(n) == ToLower(m)
  {
    if RecordKey(t, n) == RecordKey(u, m) {
      SplitFirst(t, u, ToLower(n), ToLower(m), ':');
    }
  }

  /** The label that opens every text record of a kind. */
  function Tag(kind: string): string {
    if kind == TALOS_CLUSTER then "role"
    else if kind == IDENTITY_BINDING then "identity"
    else if kind == IDENTITY_PROVIDER then "idp"
    else if kind == PACK_INSTANCE then "pack"
    else "run"
  }

  ghost predicate Tagged(name: string, tag: string) {
    exists rest :: name == tag + "." + rest
  }

  lemma TagWitness(name: string, tag: string, rest: string)
    requires name == tag + "." + rest
    ensures Tagged(name, tag)
  {
  }

  ghost predicate Watched(kind: string) {
    kind == TALOS_CLUSTER || kind == IDENTITY_BINDING || kind == IDENTITY_PROVIDER
    || kind == PACK_INSTANCE || kind == RUNNER_CONFIG
  }

  /** Only TalosClusters emit anything but text records, and every text record opens with its kind's label. */
  lemma DerivedShape(hash: Hash, o: Resource, i: nat)
    requires i < |DeriveRecords(hash, o)|
    ensures Watched(o.kind)
    ensures var r := DeriveRecords(hash, o)[i];
            && (r.rtype == TYPE_A || r.rtype == TYPE_TXT || r.rtype == TYPE_NS)
            && (r.rtype != TYPE_TXT ==> o.kind == TALOS_CLUSTER)
            && (r.rtype == TYPE_TXT ==> Tagged(r.name, Tag(o.kind)))
  {
    if o.kind == TALOS_CLUSTER {
      TalosClusterShape(o, i);
    } else if o.kind == IDENTITY_BINDING {
      IdentityBindingTag(hash, o);
    } else if o.kind == IDENTITY_PROVIDER {
      IdentityProviderTag(o);
    } else if o.kind == PACK_INSTANCE {
      PackInstanceTag(o);
    } else {
      RunnerConfigTag(o);
    }
  }

  lemma TalosClusterShape(o: Resource, i: nat)
    requires i < |TalosClusterRecords(o)|
    ensures var r := TalosClusterRecords(o)[i];
            && (r.rtype == TYPE_A || r.rtype == TYPE_TXT || r.rtype == TYPE_NS)
            && (r.rtype == TYPE_TXT ==> Tagged(r.name, "role"))
  {
    TagWitness("role." + o.name, "role", o.name);
  }

  lemma IdentityProviderTag(o: Resource)
    ensures var rs := IdentityProviderRecords(o); rs == [] || Tagged(rs[0].name, "idp")
  {
    TagWitness("idp." + o.name + ".guardian", "idp", o.name + ".guardian");
  }

  lemma IdentityBindingTag(hash: Hash, o: Resource)
    ensures var rs := IdentityBindingRecords(hash, o); rs == [] || Tagged(rs[0].name, "identity")
  {
    var h, c := hash(Field(o, "spec.subject")), ClusterFromNamespace(o.namespace);
    TagWitness("identity." + h + ".guardian." + c, "identity", h + ".guardian." + c);
  }

  lemma PackInstanceTag(o: Resource)
    ensures var rs := PackInstanceRecords(o); rs == [] || Tagged(rs[0].name, "pack")
  {
    var n, v, c := PackName(o), PackVersion(o), PackCluster(o);
    TagWitness("pack." + n + "." + v + ".wrapper." + c, "pack", n + "." + v + ".wrapper." + c);
  }

  lemma RunnerConfigTag(o: Resource)
    ensures var rs := RunnerConfigRecords(o); rs == [] || Tagged(rs[0].name, "run")
  {
    var c := RunnerCluster(o);
    TagWitness("run." + o.name + ".conductor." + c, "run", o.name + ".conductor." + c);
  }

  lemma TypesHaveNoColon()
    ensures ':' !in TYPE_A && ':' !in TYPE_TXT && ':' !in TYPE_NS
  {
  }

  lemma DerivedIsTyped(hash: Hash, o: Resource)
    ensures Typed(DeriveRecords(hash, o))
  {
    var rs := DeriveRecords(hash, o);
    TypesHaveNoColon();
    forall i | 0 <= i < |rs| ensures ':' !in rs[i].rtype {
      DerivedShape(hash, o, i);
    }
  }

  lemma TagsDiffer(n: string, m: string, t: string, u: string)
    requires Tagged(n, t) && Tagged(m, u) && ToLower(n) == ToLower(m)
    requires ToLower(t) == t && ToLower(u) == u && '.' !in t && '.' !in u
    ensures t == u
  {
    var x :| n == t + "." + x;
    var y :| m == u + "." + y;
    LowerConcat(t + ".", x);
    LowerConcat(t, ".");
    LowerConcat(u + ".", y);
    LowerConcat(u, ".");
    assert ToLower(".") == ".";
    SplitFirst(t, u, ToLower(x), ToLower(y), '.');
  }

  lemma TagIsLabel(kind: string)
    ensures ToLower(Tag(kind)) == Tag(kind) && '.' !in Tag(kind)
  {
  }

  /** Objects of two different kinds never share a slot, whatever they are called. */
  lemma KindsNeverCollide(hash: Hash, o: Resource, p: Resource)
    requires o.kind != p.kind
    ensures !Collide(DeriveRecords(hash, o), DeriveRecords(hash, p))
  {
    var a, b := DeriveRecords(hash, o), DeriveRecords(hash, p);
    forall i, j | 0 <= i < |a| && 0 <= j < |b| ensures KeyOf(a[i]) != KeyOf(b[j]) {
      DerivedShape(hash, o, i);
      DerivedShape(hash, p, j);
      TypesHaveNoColon();
      SameSlot(a[i].rtype, a[i].name, b[j].rtype, b[j].name);
      if KeyOf(a[i]) == KeyOf(b[j]) {
        TagIsLabel(o.kind);
        TagIsLabel(p.kind);
        TagsDiffer(a[i].name, b[j].name, Tag(o.kind), Tag(p.kind));
      }
    }
  }

  // ---------------------------------------------------------------- TalosClusters

  lemma LowerDotted(p: string, n: string)
    requires ToLower(p) == p
    ensures ToLower(p + n) == p + ToLower(n)
  {
    LowerConcat(p, n);
  }

  lemma DottedDiffers(p: string, q: string, a: string, b: string)
    requires '.' !in p && '.' !in q && p != q
    ensures p + "." + a != q + "." + b
  {
    if p + "." + a == q + "." + b {
      SplitFirst(p, q, a, b, '.');
    }
  }

  /** The names under which a TalosCluster emits address records, lower-cased. */
  ghost predicate EmitsAddress(o: Resource, n: string) {
    || n == ToLower(o.name)
    || n == "api." + ToLower(o.name)
    || (IsScreen(o) && n == "ns." + ToLower(o.name))
  }

  ghost predicate Emits(hash: Hash, o: Resource) {
    DeriveRecords(hash, o) != []
  }

  lemma TalosSlots(hash: Hash, o: Resource, rtype: string, name: string)
    requires o.kind == TALOS_CLUSTER && Emits(hash, o) && ':' !in rtype
    ensures (exists i :: 0 <= i < |DeriveRecords(hash, o)|
                         && KeyOf(DeriveRecords(hash, o)[i]) == RecordKey(rtype, name)) <==>
            || (rtype == TYPE_A && EmitsAddress(o, ToLower(name)))
            || (rtype == TYPE_NS && IsScreen(o) && ToLower(name) == ToLower(o.name))
            || (rtype == TYPE_TXT && !IsScreen(o) && ToLower(name) == "role." + ToLower(o.name))
  {
    var a := DeriveRecords(hash, o);
    TypesHaveNoColon();
    LowerDotted("api.", o.name);
    LowerDotted("ns.", o.name);
    LowerDotted("role.", o.name);
    forall i | 0 <= i < |a|
      ensures KeyOf(a[i]) == RecordKey(rtype, name) <==> a[i].rtype == rtype && ToLower(a[i].name) == ToLower(name)
    {
      SameSlot(a[i].rtype, a[i].name, rtype, name);
    }
    assert a[0].rtype == TYPE_A && a[0].name == o.name;
    assert a[1].rtype == TYPE_A && a[1].name == "api." + o.name;
    if IsScreen(o) {
      assert |a| == 4;
      assert a[2].rtype == TYPE_NS && a[2].name == o.name;
      assert a[3].rtype == TYPE_A && a[3].name == "ns." + o.name;
    } else {
      assert |a| == 3;
      assert a[2].rtype == TYPE_TXT && a[2].name == "role." + o.name;
    }
  }

  /** Exactly when two emitting TalosClusters share a slot. */
  ghost predicate TalosOverlap(o: Resource, p: Resource) {
    var n, m := ToLower(o.name), ToLower(p.name);
    n == m || EmitsAddress(p, n) || EmitsAddress(o, m)
  }

  lemma TalosClustersCollideIff(hash: Hash, o: Resource, p: Resource)
    requires o.kind == TALOS_CLUSTER && p.kind == TALOS_CLUSTER && Emits(hash, o) && Emits(hash, p)
    ensures Collide(DeriveRecords(hash, o), DeriveRecords(hash, p)) <==> TalosOverlap(o, p)
  {
    var a, b := DeriveRecords(hash, o), DeriveRecords(hash, p);
    if TalosOverlap(o, p) {
      if EmitsAddress(p, ToLower(o.name)) {
        TypesHaveNoColon();
        TalosSlots(hash, p, TYPE_A, o.name);
        assert a[0].rtype == TYPE_A && a[0].name == o.name;
        var j :| 0 <= j < |b| && KeyOf(b[j]) == KeyOf(a[0]);
      } else {
        TypesHaveNoColon();
        TalosSlots(hash, o, TYPE_A, p.name);
        assert b[0].rtype == TYPE_A && b[0].name == p.name;
        var i :| 0 <= i < |a| && KeyOf(a[i]) == KeyOf(b[0]);
      }
    } else {
      forall i, j | 0 <= i < |a| && 0 <= j < |b| ensures KeyOf(a[i]) != KeyOf(b[j]) {
        TalosApart(hash, o, p, i, j);
      }
    }
  }

  lemma TalosApart(hash: Hash, o: Resource, p: Resource, i: nat, j: nat)
    requires o.kind == TALOS_CLUSTER && p.kind == TALOS_CLUSTER && !TalosOverlap(o, p)
    requires i < |DeriveRecords(hash, o)| && j < |DeriveRecords(hash, p)|
    ensures KeyOf(DeriveRecords(hash, o)[i]) != KeyOf(DeriveRecords(hash, p)[j])
  {
    var r := DeriveRecords(hash, p)[j];
    var n, m := ToLower(o.name), ToLower(p.name);
    DerivedShape(hash, p, j);
    TypesHaveNoColon();
    TalosSlots(hash, o, r.rtype, r.name);
    TalosSlots(hash, p, r.rtype, r.name);
    CancelsTo(n, m);
    DottedDiffers("api", "ns", n, m);
    DottedDiffers("ns", "api", n, m);
    assert "api" + "." == "api." && "ns" + "." == "ns.";
  }

  lemma CancelsTo(n: string, m: string)
    requires n != m
    ensures "api." + n != "api." + m && "ns." + n != "ns." + m && "role." + n != "role." + m
  {
    if "api." + n == "api." + m { CancelPrefix("api.", n, m); }
    if "ns." + n == "ns." + m { CancelPrefix("ns.", n, m); }
    if "role." + n == "role." + m { CancelPrefix("role.", n, m); }
  }

  /** Dot-free names that differ are apart. */
  lemma DistinctTalosClustersAreApart(hash: Hash, o: Resource, p: Resource)
    requires o.kind == TALOS_CLUSTER && p.kind == TALOS_CLUSTER
    requires '.' !in o.name && '.' !in p.name && ToLower(o.name) != ToLower(p.name)
    ensures !Collide(DeriveRecords(hash, o), DeriveRecords(hash, p))
  {
    LowerKeepsAbsent(o.name, '.');
    LowerKeepsAbsent(p.name, '.');
    assert ("api." + ToLower(o.name))[3] == '.' && ("api." + ToLower(p.name))[3] == '.';
    assert ("ns." + ToLower(o.name))[2] == '.' && ("ns." + ToLower(p.name))[2] == '.';
    if Emits(hash, o) && Emits(hash, p) {
      TalosClustersCollideIff(hash, o, p);
    }
  }

  // ---------------------------------------------------------------- static records

  const NS_GLUE_NAME := "ns"
  const AUTHORITY_NAME := "authority.conductor"

  ghost predicate StaticKey(key: string) {
    key == RecordKey(TYPE_A, NS_GLUE_NAME) || key == RecordKey(TYPE_TXT, AUTHORITY_NAME)
  }

  lemma AuthorityIsTagged()
    ensures Tagged(AUTHORITY_NAME, "authority") && ToLower("authority") == "authority" && '.' !in "authority"
    ensures forall kind :: Tag(kind) != "authority"
  {
    assert AUTHORITY_NAME == "authority" + "." + "conductor";
    TagWitness(AUTHORITY_NAME, "authority", "conductor");
  }

  lemma AuthorityNeverTaken(hash: Hash, o: Resource, i: nat)
    requires i < |DeriveRecords(hash, o)|
    ensures KeyOf(DeriveRecords(hash, o)[i]) != RecordKey(TYPE_TXT, AUTHORITY_NAME)
  {
    var r := DeriveRecords(hash, o)[i];
    DerivedShape(hash, o, i);
    TypesHaveNoColon();
    SameSlot(r.rtype, r.name, TYPE_TXT, AUTHORITY_NAME);
    AuthorityIsTagged();
    TagIsLabel(o.kind);
    if r.rtype == TYPE_TXT && ToLower(r.name) == ToLower(AUTHORITY_NAME) {
      TagsDiffer(r.name, AUTHORITY_NAME, Tag(o.kind), "authority");
    }
  }

  lemma ServerAddressTakenIff(hash: Hash, o: Resource)
    ensures (exists i :: 0 <= i < |DeriveRecords(hash, o)|
                         && KeyOf(DeriveRecords(hash, o)[i]) == RecordKey(TYPE_A, NS_GLUE_NAME)) <==>
            o.kind == TALOS_CLUSTER && Emits(hash, o) && ToLower(o.name) == "ns"
  {
    var a := DeriveRecords(hash, o);
    TypesHaveNoColon();
    forall i | 0 <= i < |a| && KeyOf(a[i]) == RecordKey(TYPE_A, NS_GLUE_NAME) ensures o.kind == TALOS_CLUSTER {
      DerivedShape(hash, o, i);
      SameSlot(a[i].rtype, a[i].name, TYPE_A, NS_GLUE_NAME);
    }
    if o.kind == TALOS_CLUSTER && a != [] {
      TalosSlots(hash, o, TYPE_A, NS_GLUE_NAME);
      assert ToLower("ns") == "ns";
      assert |"api." + ToLower(o.name)| > 2 && |"ns." + ToLower(o.name)| > 2;
    }
  }

  /** The two static slots are hit by exactly one family: TalosClusters called "ns". */
  lemma StaticSlotTakenIff(hash: Hash, o: Resource)
    ensures (exists i :: 0 <= i < |DeriveRecords(hash, o)| && StaticKey(KeyOf(DeriveRecords(hash, o)[i]))) <==>
            o.kind == TALOS_CLUSTER && Emits(hash, o) && ToLower(o.name) == "ns"
  {
    forall i | 0 <= i < |DeriveRecords(hash, o)|
      ensures KeyOf(DeriveRecords(hash, o)[i]) != RecordKey(TYPE_TXT, AUTHORITY_NAME)
    {
      AuthorityNeverTaken(hash, o, i);
    }
    ServerAddressTakenIff(hash, o);
  }

  // ---------------------------------------------------------------- text records of the other kinds

  /** For kinds that emit one text record, sharing a slot means the same lower-cased name. */
  lemma SingleTextCollides(a: Record, b: Record)
    requires a.rtype == TYPE_TXT && b.rtype == TYPE_TXT
    ensures Collide([a], [b]) <==> ToLower(a.name) == ToLower(b.name)
  {
    TypesHaveNoColon();
    SameSlot(a.rtype, a.name, b.rtype, b.name);
    if ToLower(a.name) == ToLower(b.name) {
      assert KeyOf([a][0]) == KeyOf([b][0]);
    }
  }

  /** IdentityProviders share a slot exactly when they have the same name, in whatever namespaces. */
  lemma IdentityProvidersCollideIff(hash: Hash, o: Resource, p: Resource)
    requires o.kind == IDENTITY_PROVIDER && p.kind == IDENTITY_PROVIDER && Emits(hash, o) && Emits(hash, p)
    ensures Collide(DeriveRecords(hash, o), DeriveRecords(hash, p)) <==> ToLower(o.name) == ToLower(p.name)
  {
    SingleTextCollides(DeriveRecords(hash, o)[0], DeriveRecords(hash, p)[0]);
    Enclosed("idp.", ".guardian", o.name, p.name);
  }

  lemma Enclosed(pre: string, post: string, n: string, m: string)
    ensures ToLower(pre + n + post) == ToLower(pre + m + post) <==> ToLower(n) == ToLower(m)
  {
    LowerConcat(pre + n, post);
    LowerConcat(pre, n);
    LowerConcat(pre + m, post);
    LowerConcat(pre, m);
    if ToLower(pre + n + post) == ToLower(pre + m + post) {
      CancelSuffix(ToLower(pre) + ToLower(n), ToLower(pre) + ToLower(m), ToLower(post));
      CancelPrefix(ToLower(pre), ToLower(n), ToLower(m));
    }
  }

  /** A name of the shape pre.n.mid.c with a dot-free last label determines n and c. */
  lemma EndsInLabel(pre: string, mid: string, n: string, c: string, m: string, d: string)
    requires '.' !in c && '.' !in d
    ensures ToLower(pre + n + mid + "." + c) == ToLower(pre + m + mid + "." + d)
        <==> ToLower(n) == ToLower(m) && ToLower(c) == ToLower(d)
  {
    var x, y := pre + n + mid, pre + m + mid;
    LowerConcat(x + ".", c);
    LowerConcat(x, ".");
    LowerConcat(y + ".", d);
    LowerConcat(y, ".");
    assert ToLower(".") == ".";
    LowerKeepsAbsent(c, '.');
    LowerKeepsAbsent(d, '.');
    Enclosed(pre, mid, n, m);
    if ToLower(x) + "." + ToLower(c) == ToLower(y) + "." + ToLower(d) {
      SplitLast(ToLower(x), ToLower(y), ToLower(c), ToLower(d), '.');
    }
  }

  /** RunnerConfigs share a slot exactly when name and effective cluster agree; a namespace is one label. */
  lemma RunnerConfigsCollideIff(hash: Hash, o: Resource, p: Resource)
    requires o.kind == RUNNER_CONFIG && p.kind == RUNNER_CONFIG && Emits(hash, o) && Emits(hash, p)
    requires '.' !in o.namespace && '.' !in p.namespace
    ensures Collide(DeriveRecords(hash, o), DeriveRecords(hash, p))
        <==> ToLower(o.name) == ToLower(p.name) && ToLower(RunnerCluster(o)) == ToLower(RunnerCluster(p))
  {
    var a := RunnerText(hash, o);
    var b := RunnerText(hash, p);
    RunnerTextsCollideIff(a, o.name, RunnerCluster(o), b, p.name, RunnerCluster(p));
  }

  /** A RunnerConfig emits one text record, or none. */
  lemma RunnerText(hash: Hash, o: Resource) returns (r: Record)
    requires o.kind == RUNNER_CONFIG && Emits(hash, o) && '.' !in o.namespace
    ensures DeriveRecords(hash, o) == [r] && r.rtype == TYPE_TXT
    ensures r.name == "run." + o.name + ".conductor" + "." + RunnerCluster(o) && '.' !in RunnerCluster(o)
  {
    r := RunnerConfigRecords(o)[0];
    assert r.name == "run." + o.name + ".conductor" + "." + RunnerCluster(o);
  }

  lemma RunnerTextsCollideIff(a: Record, n: string, c: string, b: Record, m: string, d: string)
    requires a.rtype == TYPE_TXT && b.rtype == TYPE_TXT && '.' !in c && '.' !in d
    requires a.name == "run." + n + ".conductor" + "." + c && b.name == "run." + m + ".conductor" + "." + d
    ensures Collide([a], [b]) <==> ToLower(n) == ToLower(m) && ToLower(c) == ToLower(d)
  {
    SingleTextCollides(a, b);
    EndsInLabel("run.", ".conductor", n, c, m, d);
  }

  /** In tenant namespaces named after a cluster other than "management" that pins the namespace down too. */
  lemma TenantRunnerConfigsCollideIff(hash: Hash, o: Resource, p: Resource)
    requires o.kind == RUNNER_CONFIG && p.kind == RUNNER_CONFIG && Emits(hash, o) && Emits(hash, p)
    requires '.' !in o.namespace && '.' !in p.namespace
    requires ToLower(o.name) == o.name && ToLower(p.name) == p.name
    requires ToLower(o.namespace) == o.namespace && ToLower(p.namespace) == p.namespace
    requires ClusterFromNamespace(o.namespace) !in {"", "management"}
    ensures Collide(DeriveRecords(hash, o), DeriveRecords(hash, p)) <==> o.name == p.name && o.namespace == p.namespace
  {
    RunnerConfigsCollideIff(hash, o, p);
    SameTenantIff(o.namespace, p.namespace);
  }

  /** A tenant namespace of a cluster other than "management" is told by the cluster. */
  lemma SameTenantIff(a: string, b: string)
    requires ToLower(a) == a && ToLower(b) == b && ClusterFromNamespace(a) !in {"", "management"}
    ensures ToLower(Or(ClusterFromNamespace(a), "management")) == ToLower(Or(ClusterFromNamespace(b), "management"))
            <==> a == b
  {
    ClusterIsLower(a);
    ClusterIsLower(b);
    assert ToLower("management") == "management";
    assert a == TENANT_PREFIX + ClusterFromNamespace(a);
    if HasPrefix(b, TENANT_PREFIX) {
      assert b == TENANT_PREFIX + ClusterFromNamespace(b);
    }
  }

  lemma ClusterIsLower(ns: string)
    requires ToLower(ns) == ns
    ensures ToLower(ClusterFromNamespace(ns)) == ClusterFromNamespace(ns)
  {
    if HasPrefix(ns, TENANT_PREFIX) {
      var c := ns[|TENANT_PREFIX|..];
      assert forall i :: 0 <= i < |c| ==> LowerChar(c[i]) == ToLower(ns)[i + |TENANT_PREFIX|];
    }
  }

  /** IdentityBindings share a slot exactly when the subject digest and the cluster agree. */
  lemma IdentityBindingsCollideIff(hash: Hash, o: Resource, p: Resource)
    requires o.kind == IDENTITY_BINDING && p.kind == IDENTITY_BINDING && Emits(hash, o) && Emits(hash, p)
    requires '.' !in o.namespace && '.' !in p.namespace
    ensures Collide(DeriveRecords(hash, o), DeriveRecords(hash, p))
        <==> && ToLower(hash(Field(o, "spec.subject"))) == ToLower(hash(Field(p, "spec.subject")))
             && ToLower(ClusterFromNamespace(o.namespace)) == ToLower(ClusterFromNamespace(p.namespace))
  {
    var a, b := DeriveRecords(hash, o)[0], DeriveRecords(hash, p)[0];
    var x, y := hash(Field(o, "spec.subject")), hash(Field(p, "spec.subject"));
    var c, d := ClusterFromNamespace(o.namespace), ClusterFromNamespace(p.namespace);
    SingleTextCollides(a, b);
    assert a.name == "identity." + x + ".guardian" + "." + c;
    assert b.name == "identity." + y + ".guardian" + "." + d;
    EndsInLabel("identity.", ".guardian", x, c, y, d);
  }

  /** PackInstances with dot-free pack and cluster names share a slot exactly when pack, version and
      cluster all agree. */
  lemma PackInstancesCollideIff(hash: Hash, o: Resource, p: Resource)
    requires o.kind == PACK_INSTANCE && p.kind == PACK_INSTANCE && Emits(hash, o) && Emits(hash, p)
    requires '.' !in PackName(o) && '.' !in PackName(p) && '.' !in PackCluster(o) && '.' !in PackCluster(p)
    ensures Collide(DeriveRecords(hash, o), DeriveRecords(hash, p))
        <==> && ToLower(PackName(o)) == ToLower(PackName(p))
             && ToLower(PackVersion(o)) == ToLower(PackVersion(p))
             && ToLower(PackCluster(o)) == ToLower(PackCluster(p))
  {
    SingleTextCollides(DeriveRecords(hash, o)[0], DeriveRecords(hash, p)[0]);
    PackNamesAgreeIff(PackName(o), PackVersion(o), PackCluster(o), PackName(p), PackVersion(p), PackCluster(p));
  }

  lemma PackNamesAgreeIff(n: string, v: string, c: string, m: string, w: string, d: string)
    requires '.' !in n && '.' !in m && '.' !in c && '.' !in d
    ensures ToLower("pack." + n + "." + v + ".wrapper." + c) == ToLower("pack." + m + "." + w + ".wrapper." + d)
        <==> ToLower(n) == ToLower(m) && ToLower(v) == ToLower(w) && ToLower(c) == ToLower(d)
  {
    PackNameShape(n, v, c);
    PackNameShape(m, w, d);
    EndsInLabel("pack.", ".wrapper", n + "." + v, c, m + "." + w, d);
    StartsWithLabel(n, v, m, w);
  }

  lemma PackNameShape(n: string, v: string, c: string)
    ensures "pack." + n + "." + v + ".wrapper." + c == "pack." + (n + "." + v) + ".wrapper" + "." + c
  {
  }

  lemma StartsWithLabel(n: string, v: string, m: string, w: string)
    requires '.' !in n && '.' !in m
    ensures ToLower(n + "." + v) == ToLower(m + "." + w) <==> ToLower(n) == ToLower(m) && ToLower(v) == ToLower(w)
  {
    LowerConcat(n + ".", v);
    LowerConcat(n, ".");
    LowerConcat(m + ".", w);
    LowerConcat(m, ".");
    assert ToLower(".") == ".";
    LowerKeepsAbsent(n, '.');
    LowerKeepsAbsent(m, '.');
    if ToLower(n) + "." + ToLower(v) == ToLower(m) + "." + ToLower(w) {
      SplitFirst(ToLower(n), ToLower(m), ToLower(v), ToLower(w), '.');
    }
  }

  /** With dots in pack names the slot no longer tells pack and version apart. */
  lemma DottedPacksCanCollide(hash: Hash)
    ensures exists o: Resource, p: Resource ::
              && o.kind == PACK_INSTANCE && p.kind == PACK_INSTANCE && PackName(o) != PackName(p)
              && Collide(DeriveRecords(hash, o), DeriveRecords(hash, p))
  {
    var o, p := SamplePack("a.1", "2"), SamplePack("a", "1.2");
    assert PackName(o) == "a.1" && PackName(p) == "a" && |"a.1"| != |"a"|;
    assert "a.1" + "." + "2" == "a" + "." + "1.2";
    assert "pack." + "a.1" + "." + "2" == "pack." + "a" + "." + "1.2";
    SingleTextCollides(DeriveRecords(hash, o)[0], DeriveRecords(hash, p)[0]);
  }

  function SamplePack(pack: string, version: string): (o: Resource)
    requires pack != "" && version != ""
    ensures o.kind == PACK_INSTANCE && PackName(o) == pack
    ensures PackInstanceRecords(o)
            == [Record("pack." + pack + "." + version + ".wrapper." + "c", TYPE_TXT, 0, "delivered")]
  {
    var o := Resource(PACK_INSTANCE, "seam-tenant-c", "x",
                      map["spec.clusterPackRef" := pack, "spec.version" := version, "spec.targetClusterRef" := "c"],
                      [Condition("Ready", "True", None)], [], false, 0);
    assert o.conditions[0].ctype == "Ready";
    assert ConditionTrue(o, "Ready");
    o
  }

  // ---------------------------------------------------------------- delegation and glue

  /** Every delegation on the list comes with an address for the name server it names. */
  ghost predicate GlueClosed(c: Records) {
    forall k :: k in c && c[k].rtype == TYPE_NS ==>
      && c[k].value == "ns." + c[k].name + "." + ZONE
      && RecordKey(TYPE_A, "ns." + c[k].name) in c
  }

  lemma TalosDelegates(o: Resource, i: nat)
    requires i < |TalosClusterRecords(o)| && TalosClusterRecords(o)[i].rtype == TYPE_NS
    ensures IsScreen(o) && |TalosClusterRecords(o)| == 4 && i == 2
  {
    assert |TYPE_A| != |TYPE_NS| && |TYPE_TXT| != |TYPE_NS|;
  }

  lemma DerivedIsGlueClosed(hash: Hash, o: Resource)
    ensures GlueClosed(Contribution(DeriveRecords(hash, o)))
  {
    var rs := DeriveRecords(hash, o);
    var c := Contribution(rs);
    forall k | k in c && c[k].rtype == TYPE_NS
      ensures c[k].value == "ns." + c[k].name + "." + ZONE && RecordKey(TYPE_A, "ns." + c[k].name) in c
    {
      ContributionIsLast(rs, k);
      var r :| LastFor(rs, k, r) && c[k] == Defaulted(r);
      var i :| 0 <= i < |rs| && rs[i] == r && Keys(rs)[i] == k;
      DerivedShape(hash, o, i);
      assert o.kind == TALOS_CLUSTER;
      TalosDelegates(o, i);
      assert rs[2] == Record(o.name, TYPE_NS, 0, "ns." + o.name + "." + ZONE);
      var glue := KeyOf(rs[3]);
      assert rs[3].name == "ns." + o.name && rs[3].rtype == TYPE_A;
      assert Keys(rs)[3] == glue;
      ContributionIsLast(rs, glue);
    }
  }

  // ---------------------------------------------------------------- what the protocol needs to know

  /** How objects become records. */
  type Projection = Resource -> seq<Record>

  function Deriver(hash: Hash): Projection {
    o => DeriveRecords(hash, o)
  }

  predicate SameContent(o: Resource, p: Resource) {
    && o.kind == p.kind && o.namespace == p.namespace && o.name == p.name
    && o.fields == p.fields && o.conditions == p.conditions
  }

  /** Records have splittable keys, come with their glue, and do not depend on finalizers, deletion marks
      or versions. */
  ghost predicate SoundAt(d: Projection, o: Resource) {
    && Typed(d(o))
    && GlueClosed(Contribution(d(o)))
    && forall p :: SameContent(o, p) ==> d(p) == d(o)
  }

  ghost predicate Sound(d: Projection) {
    forall o :: SoundAt(d, o)
  }

  lemma MetadataDoesNotMatter(hash: Hash, o: Resource, p: Resource)
    requires SameContent(o, p)
    ensures DeriveRecords(hash, o) == DeriveRecords(hash, p)
  {
    if o.kind == TALOS_CLUSTER {
      TalosClustersSame(o, p);
    } else if o.kind == IDENTITY_BINDING || o.kind == IDENTITY_PROVIDER {
      IdentitiesSame(hash, o, p);
    } else if o.kind == PACK_INSTANCE {
      PackInstancesSame(o, p);
    } else if o.kind == RUNNER_CONFIG {
      RunnerConfigsSame(o, p);
    }
  }

  lemma TalosClustersSame(o: Resource, p: Resource)
    requires SameContent(o, p)
    ensures TalosClusterRecords(o) == TalosClusterRecords(p)
  {
    SameView(o, p);
  }

  lemma IdentitiesSame(hash: Hash, o: Resource, p: Resource)
    requires SameContent(o, p)
    ensures IdentityBindingRecords(hash, o) == IdentityBindingRecords(hash, p)
    ensures IdentityProviderRecords(o) == IdentityProviderRecords(p)
  {
    SameView(o, p);
  }

  lemma PackInstancesSame(o: Resource, p: Resource)
    requires SameContent(o, p)
    ensures PackInstanceRecords(o) == PackInstanceRecords(p)
  {
    SameView(o, p);
  }

  lemma RunnerConfigsSame(o: Resource, p: Resource)
    requires SameContent(o, p)
    ensures RunnerConfigRecords(o) == RunnerConfigRecords(p)
  {
    SameView(o, p);
  }

  lemma SameView(o: Resource, p: Resource)
    requires SameContent(o, p)
    ensures forall t :: ConditionTrue(o, t) <==> ConditionTrue(p, t)
    ensures forall path :: Field(o, path) == Field(p, path)
  {
  }

  lemma DeriverIsSound(hash: Hash)
    ensures Sound(Deriver(hash))
  {
    forall o ensures SoundAt(Deriver(hash), o) {
      DerivedIsTyped(hash, o);
      DerivedIsGlueClosed(hash, o);
      forall p | SameContent(o, p) ensures Deriver(hash)(p) == Deriver(hash)(o) {
        MetadataDoesNotMatter(hash, o, p);
      }
    }
  }
}
