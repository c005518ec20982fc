/** JSON merge patches (section 2 of RFC 7396), the way a patch is computed from two versions of a document, and
    what that means for the three lists of a lineage index. */
module MergePatch {
  import opened Text
  import opened Lineage

  /** A JSON document. What is not an object, lists included, is a leaf: a merge patch replaces it whole. */
  datatype Doc<K, V> = Null | Leaf(value: V) | Object(members: map<K, Doc<K, V>>)

  /** MergePatch of RFC 7396; a missing target reads as Null. */
  function Merge<K, V>(target: Doc<K, V>, patch: Doc<K, V>): Doc<K, V>
    decreases patch
  {
    if patch.Object? then
      var was := if target.Object? then target.members else map[];
      Object(map k | k in was.Keys + patch.members.Keys && !(k in patch.members && patch.members[k].Null?) ::
               if k in patch.members then Merge(if k in was then was[k] else Null, patch.members[k]) else was[k])
    else patch
  }

  /** The patch client.MergeFrom computes between a base and its modification. */
  function Diff<K, V(==)>(a: map<K, Doc<K, V>>, b: map<K, Doc<K, V>>): map<K, Doc<K, V>>
    decreases Doc.Object(b)
  {
    map k | k in a.Keys + b.Keys && !(k in a && k in b && a[k] == b[k]) ::
      if k !in b then Null
      else if k in a && a[k].Object? && b[k].Object? then Object(Diff(a[k].members, b[k].members))
      else b[k]
  }

  ghost predicate NullFree<K(!new), V>(d: Doc<K, V>)
    decreases d
  {
    !d.Null? && (d.Object? ==> forall k :: k in d.members ==> NullFree(d.members[k]))
  }

  /** Merging a null-free document into anything that is not an object gives that document. */
  lemma {:induction false} MergeIntoNothing<K(!new), V>(target: Doc<K, V>, d: Doc<K, V>)
    requires NullFree(d) && !target.Object?
    ensures Merge(target, d) == d
    decreases d
  {
    if d.Object? {
      forall k | k in d.members ensures Merge(Null, d.members[k]) == d.members[k] {
        MergeIntoNothing(Null, d.members[k]);
      }
      var merged := Merge(target, d);
      assert merged.members == d.members;
    }
  }

  /** Applied to its base, the computed patch gives back the modification. */
  lemma {:induction false} DiffRoundTrip<K(!new), V>(a: map<K, Doc<K, V>>, b: map<K, Doc<K, V>>)
    requires NullFree(Doc.Object(b))
    ensures Merge(Object(a), Object(Diff(a, b))) == Object(b)
    decreases Doc.Object(b)
  {
    var patch := Diff(a, b);
    forall k | k in patch && k in b
      ensures !patch[k].Null? && Merge(if k in a then a[k] else Null, patch[k]) == b[k]
    {
      assert NullFree(b[k]);
      if k in a && a[k].Object? && b[k].Object? {
        DiffRoundTrip(a[k].members, b[k].members);
      } else if b[k].Object? {
        MergeIntoNothing(if k in a then a[k] else Null, b[k]);
      }
    }
    assert Merge(Object(a), Object(patch)).members == b;
  }

  /** Members that base and modification share are left alone, whatever document the patch lands on. */
  lemma MergeFrame<K, V>(a: map<K, Doc<K, V>>, b: map<K, Doc<K, V>>, t: map<K, Doc<K, V>>, k: K)
    requires (k in a <==> k in b) && (k in a ==> a[k] == b[k])
    ensures var r := Merge(Object(t), Object(Diff(a, b))).members;
            (k in r <==> k in t) && (k in t ==> r[k] == t[k])
  {
  }

  function Put<K, V>(m: map<K, V>, k: K, v: Option<V>): map<K, V> {
    if v.Some? then m[k := v.value] else m - {k}
  }

  function Get<K, V>(m: map<K, V>, k: K): Option<V> {
    if k in m then Some(m[k]) else None
  }

  /** A patch with a single member touches that member only. */
  lemma SingleMerge<K, V>(t: map<K, Doc<K, V>>, q: K, d: Doc<K, V>)
    ensures Merge(Object(t), Object(map[q := d]))
            == Object(Put(t, q, if d.Null? then None else Some(Merge(if q in t then t[q] else Null, d))))
  {
    var r := Merge(Object(t), Object(map[q := d])).members;
    if d.Null? {
      assert r == t - {q};
    } else {
      assert r == t[q := Merge(if q in t then t[q] else Null, d)];
    }
  }

  lemma EmptyMerge<K, V>(t: map<K, Doc<K, V>>)
    ensures Merge(Object(t), Object(map[])) == Object(t)
  {
    assert Merge(Object(t), Object(map[])).members == t;
  }

  /** Changing a single member gives such a patch, or an empty one. */
  lemma SingleDiff<K, V>(a: map<K, Doc<K, V>>, q: K, v: Option<Doc<K, V>>)
    ensures Diff(a, Put(a, q, v))
            == if Get(a, q) == v then map[]
               else if v.None? then map[q := Null]
               else if q in a && a[q].Object? && v.value.Object? then
                 map[q := Object(Diff(a[q].members, v.value.members))]
               else map[q := v.value]
  {
    var b := Put(a, q, v);
    if Get(a, q) == v {
      assert b == a;
      SameDiff(a);
    } else {
      ChangedKeys(a, b, q);
      var d := Diff(a, b);
      assert d == map[q := d[q]];
    }
  }

  lemma SameDiff<K, V>(a: map<K, Doc<K, V>>)
    ensures Diff(a, a) == map[]
  {
    assert Diff(a, a).Keys == {};
  }

  lemma ChangedKeys<K, V>(a: map<K, Doc<K, V>>, b: map<K, Doc<K, V>>, q: K)
    requires Get(a, q) != Get(b, q) && forall k :: k != q ==> Get(a, k) == Get(b, k)
    ensures Diff(a, b).Keys == {q}
  {
    forall k | k in Diff(a, b) ensures k == q {
      assert k != q ==> Get(a, k) == Get(b, k);
    }
    assert q in Diff(a, b);
  }

  /** A member replaced by a leaf, or dropped: the patch says that and nothing else. */
  lemma OneMember<K, V>(a: map<K, Doc<K, V>>, q: K, v: Option<Doc<K, V>>, t: map<K, Doc<K, V>>)
    requires v.Some? ==> v.value.Leaf?
    ensures Merge(Object(t), Object(Diff(a, Put(a, q, v)))) == Object(if Get(a, q) == v then t else Put(t, q, v))
  {
    SingleDiff(a, q, v);
    EmptyMerge(t);
    SingleMerge(t, q, if v.Some? then v.value else Null);
  }

  /** The same one level down, as for a list inside the spec or the metadata. */
  lemma NestedMember<K, V>(a: map<K, Doc<K, V>>, p: K, q: K, v: Option<Doc<K, V>>, t: map<K, Doc<K, V>>)
    requires p in a && a[p].Object? && p in t && t[p].Object?
    requires v.Some? ==> v.value.Leaf?
    ensures Merge(Object(t), Object(Diff(a, a[p := Object(Put(a[p].members, q, v))])))
            == Object(if Get(a[p].members, q) == v then t else t[p := Object(Put(t[p].members, q, v))])
  {
    var inner := Put(a[p].members, q, v);
    SingleDiff(a, p, Some(Object(inner)));
    if Get(a[p].members, q) == v {
      assert inner == a[p].members;
      EmptyMerge(t);
    } else {
      assert Get(inner, q) == v;
      OneMember(a[p].members, q, v, t[p].members);
      SingleMerge(t, p, Object(Diff(a[p].members, inner)));
    }
  }

  // ---------------------------------------------------------------- the index as a document

  datatype Name =
    | Metadata | Annotations | Labels | OwnerReferences
    | Spec | RootBindingMember | DomainRef | DescendantRegistry | OutcomeRegistry | RetentionPolicy

  datatype Value =
    | Strings(m: map<string, string>) | Owners(os: seq<OwnerRef>) | Binding(b: RootBinding) | Text(s: string)
    | Descendants(ds: seq<DescendantEntry>) | Outcomes(es: seq<OutcomeEntry>) | Policy(r: Lineage.Retention)

  type Members = map<Name, Doc<Name, Value>>

  /** omitempty: an empty list is not written at all. */
  function OwnersMember(os: seq<OwnerRef>): Option<Doc<Name, Value>> {
    if os == [] then None else Some(Leaf(Owners(os)))
  }

  function DescendantsMember(ds: seq<DescendantEntry>): Option<Doc<Name, Value>> {
    if ds == [] then None else Some(Leaf(Descendants(ds)))
  }

  function OutcomesMember(es: seq<OutcomeEntry>): Option<Doc<Name, Value>> {
    if es == [] then None else Some(Leaf(Outcomes(es)))
  }

  function PolicyMember(r: Option<Lineage.Retention>): Option<Doc<Name, Value>> {
    if r.None? then None else Some(Leaf(Policy(r.value)))
  }

  function MetadataOf(ix: Index): Members {
    Put(map[Annotations := Leaf(Strings(ix.annotations)), Labels := Leaf(Strings(ix.labels))],
        OwnerReferences, OwnersMember(ix.owners))
  }

  function SpecOf(ix: Index): Members {
    Put(Put(Put(map[RootBindingMember := Leaf(Binding(ix.binding)), DomainRef := Leaf(Text(ix.domainRef))],
                RetentionPolicy, PolicyMember(ix.retention)),
            OutcomeRegistry, OutcomesMember(ix.outcomes)),
        DescendantRegistry, DescendantsMember(ix.descendants))
  }

  function Encode(ix: Index): Members {
    map[Metadata := Object(MetadataOf(ix)), Spec := Object(SpecOf(ix))]
  }

  /** What the server stores after a patch computed from base and its modification lands on target. */
  function Patched(target: Index, base: Index, mod: Index): Doc<Name, Value> {
    Merge(Object(Encode(target)), Object(Diff(Encode(base), Encode(mod))))
  }

  lemma SpecMembers(ix: Index, ds: seq<DescendantEntry>, es: seq<OutcomeEntry>)
    ensures SpecOf(ix.(descendants := ds)) == Put(SpecOf(ix), DescendantRegistry, DescendantsMember(ds))
    ensures SpecOf(ix.(outcomes := es)) == Put(SpecOf(ix), OutcomeRegistry, OutcomesMember(es))
    ensures Get(SpecOf(ix), DescendantRegistry) == DescendantsMember(ix.descendants)
    ensures Get(SpecOf(ix), OutcomeRegistry) == OutcomesMember(ix.outcomes)
  {
  }

  lemma MetadataMembers(ix: Index, os: seq<OwnerRef>)
    ensures MetadataOf(ix.(owners := os)) == Put(MetadataOf(ix), OwnerReferences, OwnersMember(os))
    ensures Get(MetadataOf(ix), OwnerReferences) == OwnersMember(ix.owners)
  {
  }

  lemma EncodeSpec(x: Index, y: Index)
    requires MetadataOf(x) == MetadataOf(y)
    ensures Encode(y) == Encode(x)[Spec := Object(SpecOf(y))]
  {
  }

  lemma EncodeMetadata(x: Index, y: Index)
    requires SpecOf(x) == SpecOf(y)
    ensures Encode(y) == Encode(x)[Metadata := Object(MetadataOf(y))]
  {
  }

  lemma DescendantsPatch(target: Index, base: Index, ds: seq<DescendantEntry>)
    ensures Patched(target, base, base.(descendants := ds))
            == Object(Encode(if ds == base.descendants then target else target.(descendants := ds)))
  {
    SpecMembers(base, ds, []);
    SpecMembers(target, ds, []);
    EncodeSpec(base, base.(descendants := ds));
    EncodeSpec(target, target.(descendants := ds));
    NestedMember(Encode(base), Spec, DescendantRegistry, DescendantsMember(ds), Encode(target));
  }

  lemma OutcomesPatch(target: Index, base: Index, es: seq<OutcomeEntry>)
    ensures Patched(target, base, base.(outcomes := es))
            == Object(Encode(if es == base.outcomes then target else target.(outcomes := es)))
  {
    SpecMembers(base, [], es);
    SpecMembers(target, [], es);
    EncodeSpec(base, base.(outcomes := es));
    EncodeSpec(target, target.(outcomes := es));
    NestedMember(Encode(base), Spec, OutcomeRegistry, OutcomesMember(es), Encode(target));
  }

  lemma OwnersPatch(target: Index, base: Index, os: seq<OwnerRef>)
    ensures Patched(target, base, base.(owners := os))
            == Object(Encode(if os == base.owners then target else target.(owners := os)))
  {
    MetadataMembers(base, os);
    MetadataMembers(target, os);
    EncodeMetadata(base, base.(owners := os));
    EncodeMetadata(target, target.(owners := os));
    NestedMember(Encode(base), Metadata, OwnerReferences, OwnersMember(os), Encode(target));
  }

  lemma MetadataDetermines(x: Index, y: Index)
    requires MetadataOf(x) == MetadataOf(y)
    ensures x.annotations == y.annotations && x.labels == y.labels && x.owners == y.owners
  {
    MetadataMembers(x, []);
    MetadataMembers(y, []);
    assert MetadataOf(x)[Annotations] == Leaf(Strings(x.annotations))
           && MetadataOf(y)[Annotations] == Leaf(Strings(y.annotations));
    assert MetadataOf(x)[Labels] == Leaf(Strings(x.labels)) && MetadataOf(y)[Labels] == Leaf(Strings(y.labels));
  }

  lemma SpecFixed(ix: Index)
    ensures var s := SpecOf(ix);
            && Get(s, RootBindingMember) == Some(Leaf(Binding(ix.binding)))
               && Get(s, DomainRef) == Some(Leaf(Text(ix.domainRef)))
            && Get(s, RetentionPolicy) == PolicyMember(ix.retention)
  {
  }

  lemma SpecDetermines(x: Index, y: Index)
    requires SpecOf(x) == SpecOf(y)
    ensures x.binding == y.binding && x.domainRef == y.domainRef && x.retention == y.retention
    ensures x.outcomes == y.outcomes && x.descendants == y.descendants
  {
    SpecFixed(x);
    SpecFixed(y);
    SpecMembers(x, [], []);
    SpecMembers(y, [], []);
  }

  /** An encoded index determines the index. */
  lemma EncodeInjective(x: Index, y: Index)
    requires Encode(x) == Encode(y)
    ensures x == y
  {
    assert Encode(x)[Spec] == Encode(y)[Spec] && Encode(x)[Metadata] == Encode(y)[Metadata];
    MetadataDetermines(x, y);
    SpecDetermines(x, y);
  }
}
