/** When an object of each watched kind emits records, and what they say, in terms of its conditions and fields
    alone. */
module DeriveValues {
  import opened Text
  import opened Zone
  import opened Derive

  // ---------------------------------------------------------------- reading

  /** Some element is an object of this type with status True. */
  ghost predicate HasTrue(cs: seq<Condition>, ctype: string) {
    exists i :: 0 <= i < |cs| && cs[i].Condition? && cs[i].ctype == ctype && cs[i].status == "True"
  }

  ghost predicate Present(o: Resource, path: string) {
    path in o.fields && o.fields[path] != ""
  }

  /** What is found at a path, the empty string standing for nothing. */
  ghost function Found(o: Resource, path: string): string {
    if path in o.fields then o.fields[path] else ""
  }

  /** The namespace is the tenant namespace of this cluster. */
  ghost predicate TenantOf(ns: string, cluster: string) {
    ns == "seam-tenant-" + cluster
  }

  lemma ClusterIs(ns: string, cluster: string)
    requires TenantOf(ns, cluster)
    ensures ClusterFromNamespace(ns) == cluster
  {
    assert ns[..12] == "seam-tenant-" && ns[12..] == cluster;
  }

  lemma TenantHasPrefix(ns: string, cluster: string)
    requires TenantOf(ns, cluster)
    ensures HasPrefix(ns, TENANT_PREFIX)
  {
    assert ns[..12] == "seam-tenant-";
  }

  /** The cluster of a namespace is what follows the tenant prefix, and nothing for other namespaces. */
  lemma ClusterFromNamespaceIff(ns: string, cluster: string)
    ensures ClusterFromNamespace(ns) == cluster
            <==> TenantOf(ns, cluster) || (cluster == "" && forall c :: !TenantOf(ns, c))
  {
    if HasPrefix(ns, TENANT_PREFIX) {
      assert ns == "seam-tenant-" + ns[12..];
      assert TenantOf(ns, ns[12..]);
      ClusterIs(ns, ns[12..]);
      if TenantOf(ns, cluster) {
        ClusterIs(ns, cluster);
      }
    } else {
      forall c ensures !TenantOf(ns, c) {
        if TenantOf(ns, c) {
          TenantHasPrefix(ns, c);
        }
      }
    }
  }

  /** The first condition of the type that carries a time carries this one; or none does, and it is empty. */
  ghost predicate FirstTime(cs: seq<Condition>, ctype: string, time: string) {
    || (exists i ::
          && TimedAt(cs, ctype, i) && time == cs[i].since.value
          && forall j :: 0 <= j < i ==> !TimedAt(cs, ctype, j))
    || (time == "" && forall i :: !TimedAt(cs, ctype, i))
  }

  ghost predicate TimedAt(cs: seq<Condition>, ctype: string, i: int) {
    0 <= i < |cs| && cs[i].Condition? && cs[i].ctype == ctype && cs[i].since.Some?
  }

  lemma {:induction false} SinceIsFirst(cs: seq<Condition>, ctype: string)
    ensures FirstTime(cs, ctype, Since(cs, ctype))
  {
    if cs == [] {
      assert forall i :: !TimedAt(cs, ctype, i);
    } else if TimedAt(cs, ctype, 0) {
      assert Since(cs, ctype) == cs[0].since.value;
    } else {
      var rest := cs[1..];
      SinceIsFirst(rest, ctype);
      assert forall i :: TimedAt(cs, ctype, i) ==> i > 0 && TimedAt(rest, ctype, i - 1);
      if i :| TimedAt(rest, ctype, i) && Since(rest, ctype) == rest[i].since.value
              && forall j :: 0 <= j < i ==> !TimedAt(rest, ctype, j) {
        assert TimedAt(cs, ctype, i + 1) && cs[i + 1] == rest[i];
      }
    }
  }

  // ---------------------------------------------------------------- TalosClusters

  lemma TalosClusterEmitsIff(hash: Hash, o: Resource)
    requires o.kind == TALOS_CLUSTER
    ensures DeriveRecords(hash, o) != [] <==> HasTrue(o.conditions, "Ready") && Present(o, "spec.clusterEndpoint")
  {
  }

  ghost predicate Screened(o: Resource) {
    Present(o, "spec.infrastructureProvider") && o.fields["spec.infrastructureProvider"] == "screen"
  }

  /** The origin if there is one, else the mode, else "general". */
  ghost predicate IsRole(o: Resource, role: string) {
    if Present(o, "status.origin") then role == o.fields["status.origin"]
    else if Present(o, "spec.mode") then role == o.fields["spec.mode"]
    else role == "general"
  }

  /** Its addresses carry the endpoint; a screen cluster delegates to a name server at the endpoint, any other one
      tells its role. */
  lemma TalosClusterSays(hash: Hash, o: Resource) returns (role: string)
    requires o.kind == TALOS_CLUSTER && HasTrue(o.conditions, "Ready") && Present(o, "spec.clusterEndpoint")
    ensures IsRole(o, role)
    ensures var ip, rs := o.fields["spec.clusterEndpoint"], DeriveRecords(hash, o);
            && |rs| == (if Screened(o) then 4 else 3)
            && rs[0] == Record(o.name, "A", 0, ip) && rs[1] == Record("api." + o.name, "A", 0, ip)
            && (Screened(o) ==> rs[2] == Record(o.name, "NS", 0, "ns." + o.name + "." + "seam.ontave.dev"))
            && (Screened(o) ==> rs[3] == Record("ns." + o.name, "A", 0, ip))
            && (!Screened(o) ==> rs[2] == Record("role." + o.name, "TXT", 0, role))
  {
    role := Or(Or(Field(o, "status.origin"), Field(o, "spec.mode")), "general");
    assert IsScreen(o) <==> Screened(o);
  }

  // ---------------------------------------------------------------- identities

  lemma IdentityBindingEmitsIff(hash: Hash, o: Resource)
    requires o.kind == IDENTITY_BINDING
    ensures DeriveRecords(hash, o) != []
            <==> HasTrue(o.conditions, "TrustAnchorResolved") && Present(o, "spec.subject")
                 && exists c :: TenantOf(o.namespace, c) && c != ""
  {
    var c := ClusterFromNamespace(o.namespace);
    ClusterFromNamespaceIff(o.namespace, c);
    if d :| TenantOf(o.namespace, d) && d != "" {
      ClusterIs(o.namespace, d);
    }
  }

  /** Under the subject's digest and the cluster: the profile, a blank, the provider. */
  lemma IdentityBindingSays(hash: Hash, o: Resource, c: string)
    requires o.kind == IDENTITY_BINDING && HasTrue(o.conditions, "TrustAnchorResolved") && Present(o, "spec.subject")
    requires TenantOf(o.namespace, c) && c != ""
    ensures DeriveRecords(hash, o)
            == [Record("identity." + hash(o.fields["spec.subject"]) + ".guardian." + c, "TXT", 0,
                       Found(o, "spec.rbacProfileRef.name") + " " + Found(o, "spec.identityProviderRef.name"))]
  {
    ClusterIs(o.namespace, c);
  }

  lemma IdentityProviderEmitsIff(hash: Hash, o: Resource)
    requires o.kind == IDENTITY_PROVIDER
    ensures DeriveRecords(hash, o) != [] <==> HasTrue(o.conditions, "Valid") && Present(o, "status.issuerURL")
  {
  }

  lemma IdentityProviderSays(hash: Hash, o: Resource)
    requires o.kind == IDENTITY_PROVIDER && HasTrue(o.conditions, "Valid") && Present(o, "status.issuerURL")
    ensures DeriveRecords(hash, o) == [Record("idp." + o.name + ".guardian", "TXT", 0, o.fields["status.issuerURL"])]
  {
  }

  // ---------------------------------------------------------------- packs

  /** The cluster a pack is for: the one it names, else the tenant's. */
  ghost predicate IsPackCluster(o: Resource, c: string) {
    && c != ""
    && if Present(o, "spec.targetClusterRef") then c == o.fields["spec.targetClusterRef"] else TenantOf(o.namespace, c)
  }

  lemma PackClusterIs(o: Resource, c: string)
    ensures IsPackCluster(o, c) <==> PackCluster(o) == c && c != ""
  {
    ClusterFromNamespaceIff(o.namespace, c);
  }

  lemma PackInstanceEmitsIff(hash: Hash, o: Resource)
    requires o.kind == PACK_INSTANCE
    ensures DeriveRecords(hash, o) != [] <==> HasTrue(o.conditions, "Ready") && exists c :: IsPackCluster(o, c)
  {
    PackClusterIs(o, PackCluster(o));
    if c :| IsPackCluster(o, c) {
      PackClusterIs(o, c);
    }
  }

  /** Under pack, version and cluster: the digest, else "delivered". */
  lemma PackInstanceSays(hash: Hash, o: Resource, c: string) returns (pack: string, version: string, value: string)
    requires o.kind == PACK_INSTANCE && HasTrue(o.conditions, "Ready") && IsPackCluster(o, c)
    ensures pack == if Present(o, "spec.clusterPackRef") then o.fields["spec.clusterPackRef"] else o.name
    ensures version == if Present(o, "spec.version") then o.fields["spec.version"] else "unknown"
    ensures value == if Present(o, "status.receiptDigest") then o.fields["status.receiptDigest"] else "delivered"
    ensures DeriveRecords(hash, o) == [Record("pack." + pack + "." + version + ".wrapper." + c, "TXT", 0, value)]
  {
    PackClusterIs(o, c);
    pack, version, value := PackName(o), PackVersion(o), Or(Field(o, "status.receiptDigest"), "delivered");
  }

  // ---------------------------------------------------------------- runners

  lemma RunnerConfigEmitsIff(hash: Hash, o: Resource)
    requires o.kind == RUNNER_CONFIG
    ensures DeriveRecords(hash, o) != [] <==> HasTrue(o.conditions, "Ready") || HasTrue(o.conditions, "Degraded")
  {
  }

  /** Completed exactly if some Ready condition is true, with the time of the first condition of the deciding type; the
      cluster is the tenant's, else "management". */
  lemma RunnerConfigSays(hash: Hash, o: Resource) returns (c: string, time: string)
    requires o.kind == RUNNER_CONFIG && (HasTrue(o.conditions, "Ready") || HasTrue(o.conditions, "Degraded"))
    ensures || (TenantOf(o.namespace, c) && c != "")
            || (c == "management" && forall d :: TenantOf(o.namespace, d) ==> d == "")
    ensures FirstTime(o.conditions, if HasTrue(o.conditions, "Ready") then "Ready" else "Degraded", time)
    ensures DeriveRecords(hash, o)
            == [Record("run." + o.name + ".conductor." + c, "TXT", 0,
                       if HasTrue(o.conditions, "Ready") then "phase=Completed completed=" + time
                       else "phase=Failed completed=" + time)]
  {
    c := RunnerCluster(o);
    ClusterFromNamespaceIff(o.namespace, ClusterFromNamespace(o.namespace));
    forall d | TenantOf(o.namespace, d) ensures d == ClusterFromNamespace(o.namespace) {
      ClusterIs(o.namespace, d);
    }
    var deciding := if ConditionTrue(o, "Ready") then "Ready" else "Degraded";
    time := Since(o.conditions, deciding);
    SinceIsFirst(o.conditions, deciding);
  }

  // ---------------------------------------------------------------- other kinds

  /** Objects of other kinds contribute nothing. */
  lemma OthersEmitNothing(hash: Hash, o: Resource)
    requires o.kind !in {"InfrastructureTalosCluster", "InfrastructurePackInstance", "IdentityBinding",
                         "IdentityProvider", "InfrastructureRunnerConfig"}
    ensures DeriveRecords(hash, o) == []
  {
  }

  // ---------------------------------------------------------------- the name server's own address

  /** refreshNSGlue: the load balancer's address if it has one, else the fallback; no record without an address. */
  function NsGlue(ingress: string, fallback: string): (r: Option<Record>)
    ensures r.None? <==> ingress == "" && fallback == ""
    ensures ingress != "" ==> r == Some(Record("ns", "A", 0, ingress))
    ensures ingress == "" && fallback != "" ==> r == Some(Record("ns", "A", 0, fallback))
    ensures r.Some? ==> StaticKey(KeyOf(r.value))
  {
    var ip := Or(ingress, fallback);
    if ip == "" then None else Some(Record(NS_GLUE_NAME, TYPE_A, 0, ip))
  }
}
