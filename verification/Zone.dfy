/** The zone file: records keyed by "TYPE:lowercase-name", and the text they are rendered to. */
module Zone {
  import opened Text

  const ZONE := "seam.ontave.dev"
  const DEFAULT_TTL := 300
  const NAMESERVER := "ns." + ZONE
  const SOA_CONTACT := "hostmaster." + ZONE

  // RecordType is a string in the program; these are the three values it declares.
  const TYPE_A := "A"
  const TYPE_TXT := "TXT"
  const TYPE_NS := "NS"

  datatype Record = Record(name: string, rtype: string, ttl: int, value: string)

  type Records = map<string, Record>

  // ---------------------------------------------------------------- record keys

  function RecordKey(rtype: string, name: string): string {
    rtype + ":" + ToLower(name)
  }

  function KeyOf(r: Record): string {
    RecordKey(r.rtype, r.name)
  }

  /** What follows the first colon, which is how a stored key is taken apart again. */
  function AfterColon(s: string): string {
    s[IndexOf(s, ':') + 1..]
  }

  /** A stored key, taken apart at its first colon, names the slot it was made for. */
  ghost predicate Splits(key: string) {
    var i := IndexOf(key, ':');
    0 <= i && RecordKey(key[..i], key[i + 1..]) == key
  }

  /** Which types survive the split: exactly those with nothing upper-case after a first colon. */
  lemma KeySplitsIff(rtype: string, name: string)
    ensures Splits(RecordKey(rtype, name)) <==>
            (':' in rtype ==> ToLower(AfterColon(rtype)) == AfterColon(rtype))
  {
    LowerIdempotent(name);
    if ':' !in rtype {
      SplitAt(rtype, ToLower(name));
    } else {
      var h, u := rtype[..IndexOf(rtype, ':')], AfterColon(rtype);
      assert rtype == h + ":" + u;
      assert RecordKey(rtype, name) == h + ":" + (u + (":" + ToLower(name)));
      SplitAt(h, u + (":" + ToLower(name)));
      LowerThrough(u, name);
    }
  }

  lemma LowerThrough(u: string, name: string)
    ensures var rest := u + (":" + ToLower(name)); ToLower(rest) == rest <==> ToLower(u) == u
  {
    var tail := ":" + ToLower(name);
    LowerIdempotent(name);
    LowerConcat(":", ToLower(name));
    LowerConcat(u, tail);
    assert ToLower(tail) == tail;
    if ToLower(u) + tail == u + tail {
      CancelSuffix(ToLower(u), u, tail);
    }
  }

  lemma SplitAt(h: string, rest: string)
    requires ':' !in h
    ensures Splits(h + ":" + rest) <==> ToLower(rest) == rest
  {
    var key := h + ":" + rest;
    assert key[..|h|] == h && key[|h| + 1..] == rest;
    IndexOfIs(key, ':', |h|);
    if RecordKey(h, rest) == key {
      CancelPrefix(h + ":", ToLower(rest), rest);
    }
  }

  // ---------------------------------------------------------------- the record map

  function Defaulted(r: Record): Record {
    if r.ttl == 0 then r.(ttl := DEFAULT_TTL) else r
  }

  function Added(m: Records, r: Record): Records {
    m[KeyOf(r) := Defaulted(r)]
  }

  function Removed(m: Records, rtype: string, name: string): Records {
    m - {RecordKey(rtype, name)}
  }

  /** Every record sits in its own slot and carries a lifetime. */
  ghost predicate Keyed(m: Records) {
    forall k :: k in m ==> k == KeyOf(m[k]) && m[k].ttl != 0
  }

  // ---------------------------------------------------------------- rendering

  /** Words separated by single blanks, the shape of every format string the printer uses. */
  function Words(ws: seq<string>): string
    requires ws != []
  {
    if |ws| == 1 then ws[0] else ws[0] + " " + Words(ws[1..])
  }

  function Quoted(v: string): string {
    "\"" + v + "\""
  }

  function Line(r: Record): string {
    var ttl := Itoa(if r.ttl == 0 then DEFAULT_TTL else r.ttl);
    if r.rtype == TYPE_TXT then Words([r.name, ttl, "IN", "TXT"]) + " " + Quoted(r.value) + "\n"
    else if r.rtype == TYPE_NS then Words([r.name, ttl, "IN", "NS", r.value + "."]) + "\n"
    else Words([r.name, ttl, "IN", "A", r.value]) + "\n"
  }

  /** One commented number of the SOA entry. */
  datatype SoaItem = SoaItem(n: nat, gap: string, remark: string)

  function SoaLine(i: SoaItem): string {
    "    " + (Itoa(i.n) + " ") + i.gap + (";" + (" " + i.remark) + "\n")
  }

  function SoaLines(items: seq<SoaItem>): string {
    if items == [] then "" else SoaLine(items[0]) + SoaLines(items[1..])
  }

  function SoaItems(serial: nat, refresh: nat, retry: nat, expire: nat, minimum: nat): seq<SoaItem> {
    [SoaItem(serial, "", "serial"),
     SoaItem(refresh, "       ", "refresh"),
     SoaItem(retry, "        ", "retry"),
     SoaItem(expire, "     ", "expire"),
     SoaItem(minimum, "        ", "minimum TTL")]
  }

  function Directives(zone: string, ttl: int): string {
    Words(["$ORIGIN", zone]) + "\n" + Words(["$TTL", Itoa(ttl)]) + "\n" + "\n"
  }

  function SoaHead(ttl: int, ns: string, contact: string): string {
    Words(["@", Itoa(ttl), "IN", "SOA", ns, contact]) + " " + "(" + "\n"
  }

  function ApexNs(ttl: int, ns: string): string {
    Words(["@", Itoa(ttl), "IN", "NS", ns]) + "\n" + "\n"
  }

  /** The values the header is printed with. */
  datatype Apex = Apex(zone: string, ns: string, contact: string, ttl: nat,
                       serial: nat, refresh: nat, retry: nat, expire: nat)

  function HeaderOf(a: Apex): string {
    Directives(a.zone, a.ttl) + SoaHead(a.ttl, a.ns, a.contact)
    + SoaLines(SoaItems(a.serial, a.refresh, a.retry, a.expire, a.ttl))
    + ")" + "\n" + "\n" + ApexNs(a.ttl, a.ns)
  }

  function ApexOf(serial: nat): Apex {
    Apex(ZONE + ".", NAMESERVER + ".", SOA_CONTACT + ".", DEFAULT_TTL, serial, 3600, 900, 604800)
  }

  function Lines(rs: seq<Record>): string {
    if rs == [] then "" else Lines(rs[..|rs| - 1]) + Line(rs[|rs| - 1])
  }

  function Select(m: Records, ks: seq<string>): seq<Record>
    requires forall k :: k in ks ==> k in m
  {
    seq(|ks|, i requires 0 <= i < |ks| => m[ks[i]])
  }

  /** The text of a zone: a function of the record map and the serial alone. */
  ghost function Rendered(m: Records, serial: nat): string {
    HeaderOf(ApexOf(serial)) + Lines(Select(m, Sorted(m.Keys)))
  }

  // ---------------------------------------------------------------- the mutable zone file

  class ZoneFile {
    var records: Records

    constructor ()
      ensures records == map[]
    {
      records := map[];
    }

    method AddRecord(r: Record)
      modifies this
      ensures records == Added(old(records), r)
      ensures old(Keyed(records)) ==> Keyed(records)
    {
      var ttl := r.ttl;
      if ttl == 0 {
        ttl := DEFAULT_TTL;
      }
      records := records[RecordKey(r.rtype, r.name) := r.(ttl := ttl)];
    }

    method RemoveRecord(rtype: string, name: string)
      modifies this
      ensures records == Removed(old(records), rtype, name)
      ensures old(Keyed(records)) ==> Keyed(records)
    {
      records := records - {RecordKey(rtype, name)};
    }

    /** Collects the keys in whatever order the map yields them, and sorts them. */
    method SortedKeys() returns (keys: seq<string>)
      ensures keys == Sorted(records.Keys)
    {
      keys := [];
      var left := records.Keys;
      while left != {}
        invariant left <= records.Keys
        invariant Enumerates(keys, records.Keys - left)
        decreases left
      {
        var k :| k in left;
        InsertEnumerates(keys, k, records.Keys - left);
        assert records.Keys - (left - {k}) == records.Keys - left + {k};
        keys := Insert(keys, k);
        left := left - {k};
      }
      assert records.Keys - {} == records.Keys;
      SortedEnumerates(records.Keys);
      EnumerationUnique(keys, Sorted(records.Keys), records.Keys);
    }

    method RenderLines() returns (lines: string)
      ensures lines == Lines(Select(records, Sorted(records.Keys)))
    {
      var keys := SortedKeys();
      lines := "";
      for i := 0 to |keys|
        invariant lines == Lines(Select(records, keys)[..i])
      {
        ghost var rs := Select(records, keys);
        assert rs[..i + 1][..i] == rs[..i];
        lines := lines + Line(records[keys[i]]);
      }
      assert Select(records, keys)[..|keys|] == Select(records, keys);
    }

    method Render(serial: nat) returns (text: string)
      ensures text == Rendered(records, serial)
    {
      var lines := RenderLines();
      text := HeaderOf(ApexOf(serial)) + lines;
    }
  }
}
