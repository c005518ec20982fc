/** The zone writer: an authoritative ConfigMap and a best-effort mirror of it. */
module Writer {

  datatype ConfigMap = ConfigMap(
    labels: map<string, string>, annotations: map<string, string>, data: map<string, string>)

  const PRIMARY := "ont-system"
  const MIRROR := "kube-system"
  const DATA_KEY := "zone.db"

  function NewConfigMap(content: string): ConfigMap {
    ConfigMap(map["seam.ontai.dev/dsns-zone" := "true"],
              map["governance.infrastructure.ontai.dev/owner" := "seam-core"],
              map[DATA_KEY := content])
  }

  /** Which of the API calls of one write fail for reasons of their own. */
  datatype Faults = Faults(primaryGet: bool, primaryWrite: bool, mirrorGet: bool, mirrorWrite: bool)

  /** The dsns-zone ConfigMaps of the API server, by namespace, and the writes it has acknowledged. */
  datatype Ack = Ack(namespace: string, content: string)

  type Maps = map<string, ConfigMap>

  /** What a namespace publishes. */
  predicate Holds(cms: Maps, ns: string, content: string) {
    ns in cms && DATA_KEY in cms[ns].data && cms[ns].data[DATA_KEY] == content
  }

  /** before and after differ in one namespace at most, and there only in the published content. */
  ghost predicate OnlyContentOf(before: Maps, after: Maps, ns: string) {
    && (forall n :: n != ns ==> (n in before <==> n in after) && (n in before ==> before[n] == after[n]))
    && (ns in before ==> ns in after && after[ns].labels == before[ns].labels
                         && after[ns].annotations == before[ns].annotations
                         && after[ns].data - {DATA_KEY} == before[ns].data - {DATA_KEY})
    && (ns !in before && ns in after ==> exists content :: after[ns] == NewConfigMap(content))
  }

  /** Every content in the mirror's log was acknowledged by the primary before. */
  ghost predicate PrimaryFirst(acks: seq<Ack>) {
    forall i :: 0 <= i < |acks| && acks[i].namespace == MIRROR ==>
      exists j :: 0 <= j < i && acks[j] == Ack(PRIMARY, acks[i].content)
  }

  lemma PrimaryFirstGrows(acks: seq<Ack>, content: string)
    requires PrimaryFirst(acks)
    ensures PrimaryFirst(acks + [Ack(PRIMARY, content)])
    ensures PrimaryFirst(acks + [Ack(PRIMARY, content), Ack(MIRROR, content)])
  {
    var one, two := acks + [Ack(PRIMARY, content)], acks + [Ack(PRIMARY, content), Ack(MIRROR, content)];
    assert PRIMARY[0] != MIRROR[0];
    forall i | 0 <= i < |acks| && acks[i].namespace == MIRROR
      ensures exists j :: 0 <= j < i && one[j] == Ack(PRIMARY, acks[i].content)
                          && two[j] == Ack(PRIMARY, acks[i].content)
    {
      var j :| 0 <= j < i && acks[j] == Ack(PRIMARY, acks[i].content);
      assert one[j] == acks[j] && two[j] == acks[j];
    }
    assert forall i :: 0 <= i < |acks| ==> one[i] == acks[i] && two[i] == acks[i];
    assert two[|acks|] == Ack(PRIMARY, content);
  }

  class ConfigMapZoneWriter {
    var cms: Maps
    ghost var acks: seq<Ack>

    constructor ()
      ensures cms == map[] && acks == []
    {
      cms := map[];
      acks := [];
    }

    /** Get, then create or merge-patch the data of one ConfigMap. */
    method Put(ns: string, content: string, getFails: bool, writeFails: bool) returns (failed: bool)
      modifies this
      ensures failed <==> getFails || writeFails
      ensures failed ==> cms == old(cms) && acks == old(acks)
      ensures !failed ==> Holds(cms, ns, content) && acks == old(acks) + [Ack(ns, content)]
      ensures OnlyContentOf(old(cms), cms, ns)
      ensures !failed && ns !in old(cms) ==>
                && cms[ns].labels == map["seam.ontai.dev/dsns-zone" := "true"]
                && cms[ns].annotations == map["governance.infrastructure.ontai.dev/owner" := "seam-core"]
                && cms[ns].data == map["zone.db" := content]
    {
      if getFails {
        return true;
      }
      if ns !in cms {
        if writeFails {
          return true;
        }
        cms := cms[ns := NewConfigMap(content)];
      } else {
        var existing := cms[ns];
        if writeFails {
          return true;
        }
        cms := cms[ns := existing.(data := existing.data[DATA_KEY := content])];
      }
      acks := acks + [Ack(ns, content)];
      return false;
    }

    /** The primary decides; the mirror is attempted only after the primary acknowledged, and its failure
        is nobody's error. */
    method ApplyContent(content: string, f: Faults) returns (err: bool)
      modifies this
      ensures err <==> f.primaryGet || f.primaryWrite
      ensures err ==> cms == old(cms) && acks == old(acks)
      ensures !err ==> Holds(cms, PRIMARY, content)
      ensures !err ==> "ont-system" in cms && "zone.db" in cms["ont-system"].data
                       && cms["ont-system"].data["zone.db"] == content
      ensures !err && !f.mirrorGet && !f.mirrorWrite ==>
                "kube-system" in cms && "zone.db" in cms["kube-system"].data
                && cms["kube-system"].data["zone.db"] == content
      ensures !err && !f.mirrorGet && !f.mirrorWrite ==>
                Holds(cms, MIRROR, content) && acks == old(acks) + [Ack(PRIMARY, content), Ack(MIRROR, content)]
      ensures !err && (f.mirrorGet || f.mirrorWrite) ==>
                && acks == old(acks) + [Ack(PRIMARY, content)]
                && (MIRROR in cms <==> MIRROR in old(cms)) && (MIRROR in cms ==> cms[MIRROR] == old(cms)[MIRROR])
      ensures old(PrimaryFirst(acks)) ==> PrimaryFirst(acks)
      ensures forall n :: n in cms && n != PRIMARY && n != MIRROR ==> n in old(cms) && cms[n] == old(cms)[n]
    {
      assert PRIMARY != MIRROR by { assert PRIMARY[0] != MIRROR[0]; }
      ghost var before := acks;
      err := Put(PRIMARY, content, f.primaryGet, f.primaryWrite);
      if err {
        return;
      }
      var ignored := Put(MIRROR, content, f.mirrorGet, f.mirrorWrite);
      assert before + [Ack(PRIMARY, content)] + [Ack(MIRROR, content)]
             == before + [Ack(PRIMARY, content), Ack(MIRROR, content)];
      if PrimaryFirst(before) {
        PrimaryFirstGrows(before, content);
      }
    }
  }
}
