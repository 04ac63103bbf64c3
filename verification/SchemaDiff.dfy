/** The schema changes of a page between two crawls, and the batched loop that records them. */
module SchemaDiff {
  import opened Wrappers
  import opened Sequences
  import opened Text
  import opened JsonCanon
  import opened EntityHash

  datatype Status = Eligible | EligibleWithWarnings | Ineligible

  datatype Profile = Profile(name: string, status: Status)

  datatype Summary = Summary(schemaType: string, format: string, identity: Option<string>, hash: string,
                             properties: seq<Field<SchemaValue>>, profiles: seq<Profile>)

  datatype Kind = Added | Removed | Modified | PropertyAdded | PropertyRemoved | PropertyChanged | RichChanged

  datatype Severity = Info | Low | Medium | High

  datatype Change = Change(kind: Kind, entityType: string, identity: Option<string>, property: Option<string>,
                           before: Option<Json>, after: Option<Json>, severity: Severity)

  // ---------- the code ----------

  function IdentityJson(identity: Option<string>): Json {
    if identity.Some? then Str(identity.value) else Null
  }

  function PrimaryType(e: Entity): string {
    if e.types == [] then "" else e.types[0]
  }

  /** The comparable shape of a value: entities by type and identity, references by target. */
  function Scalarize(v: SchemaValue): Json {
    match v
    case Scalar(json) => json
    case List(items) => Arr(seq(|items|, i requires 0 <= i < |items| => Scalarize(items[i])))
    case Ref(id) => Obj([Field("ref", id)])
    case Nested(e) => Obj([Field("type", Str(PrimaryType(e))), Field("identity", IdentityJson(e.identity))])
  }

  predicate IsPresent(v: Option<SchemaValue>) {
    match v
    case None => false
    case Some(Scalar(Str(s))) => Trim(s) != ""
    case Some(List(items)) => items != []
    case _ => true
  }

  function SummaryRef(s: Summary): Json {
    Obj([Field("type", Str(s.schemaType)), Field("identity", IdentityJson(s.identity)), Field("format", Str(s.format))])
  }

  function StatusJson(s: Status): Json {
    match s
    case Eligible => Str("eligible")
    case EligibleWithWarnings => Str("eligible_with_warnings")
    case Ineligible => Str("ineligible")
  }

  function EntityKey(s: Summary): string {
    s.schemaType + "::" + if s.identity.Some? && s.identity.value != "" then s.identity.value else s.hash
  }

  type Index = seq<Field<Summary>>

  /** By key, the first of each. */
  function IndexOfAll(summaries: seq<Summary>): Index {
    if summaries == [] then []
    else
      var index, last := IndexOfAll(summaries[..|summaries| - 1]), summaries[|summaries| - 1];
      if HasKey(index, EntityKey(last)) then index else index + [Field(EntityKey(last), last)]
  }

  function At<V(==)>(fields: seq<Field<V>>, key: string): Option<V> {
    if HasKey(fields, key) then Some(Get(fields, key)) else None
  }

  /** The keys of either, those of the first list leading. */
  function UnionKeys<V(==)>(a: seq<Field<V>>, b: seq<Field<V>>): seq<string> {
    if b == [] then Keys(a)
    else
      var keys, last := UnionKeys(a, b[..|b| - 1]), b[|b| - 1].key;
      if last in keys then keys else keys + [last]
  }

  function PropertyAt(prev: Summary, curr: Summary, key: string): seq<Change> {
    var a, b := At(prev.properties, key), At(curr.properties, key);
    if IsPresent(a) && !IsPresent(b) then
      [Change(PropertyRemoved, prev.schemaType, prev.identity, Some(key), Some(Scalarize(a.value)), None, High)]
    else if !IsPresent(a) && IsPresent(b) then
      [Change(PropertyAdded, curr.schemaType, curr.identity, Some(key), None, Some(Scalarize(b.value)), Info)]
    else if IsPresent(a) && IsPresent(b) && Scalarize(a.value) != Scalarize(b.value) then
      [Change(PropertyChanged, curr.schemaType, curr.identity, Some(key), Some(Scalarize(a.value)),
              Some(Scalarize(b.value)), Low)]
    else []
  }

  function PropertyOf(prev: Summary, curr: Summary): string -> seq<Change> {
    key => PropertyAt(prev, curr, key)
  }

  function Statuses(profiles: seq<Profile>): seq<Field<Status>> {
    if profiles == [] then []
    else
      var last := profiles[|profiles| - 1];
      Put(Statuses(profiles[..|profiles| - 1]), last.name, last.status)
  }

  function RichAt(prev: Summary, curr: Summary, name: string): seq<Change> {
    var a, b := At(Statuses(prev.profiles), name), At(Statuses(curr.profiles), name);
    if a.Some? && b.Some? && a.value != b.value then
      [Change(RichChanged, curr.schemaType, curr.identity, Some(name), Some(StatusJson(a.value)),
              Some(StatusJson(b.value)), if a.value == Eligible && b.value == Ineligible then High else Low)]
    else []
  }

  function RichOf(prev: Summary, curr: Summary): string -> seq<Change> {
    name => RichAt(prev, curr, name)
  }

  function PropertyChanges(prev: Summary, curr: Summary): seq<Change> {
    Flat(PropertyOf(prev, curr), UnionKeys(prev.properties, curr.properties))
  }

  function RichChanges(prev: Summary, curr: Summary): seq<Change> {
    Flat(RichOf(prev, curr), Keys(Statuses(prev.profiles)))
  }

  function Kept(prev: Summary, curr: Summary): seq<Change> {
    (if curr.hash != prev.hash then
       [Change(Modified, prev.schemaType, prev.identity, None, None, None, Medium)] + PropertyChanges(prev, curr)
     else [])
    + RichChanges(prev, curr)
  }

  function RemovedOf(prev: Summary): Change {
    Change(Removed, prev.schemaType, prev.identity, None, Some(SummaryRef(prev)), None, High)
  }

  function AddedOf(curr: Summary): Change {
    Change(Added, curr.schemaType, curr.identity, None, None, Some(SummaryRef(curr)), Info)
  }

  /** The changes for an entity of the earlier crawl. */
  function BeforeAt(before: Index, after: Index, key: string): seq<Change> {
    var a, b := At(before, key), At(after, key);
    if a.None? then [] else if b.None? then [RemovedOf(a.value)] else Kept(a.value, b.value)
  }

  /** The change for an entity of the later crawl only. */
  function AfterAt(before: Index, after: Index, key: string): seq<Change> {
    var a, b := At(before, key), At(after, key);
    if a.None? && b.Some? then [AddedOf(b.value)] else []
  }

  function BeforeOf(before: Index, after: Index): string -> seq<Change> {
    key => BeforeAt(before, after, key)
  }

  function AfterOf(before: Index, after: Index): string -> seq<Change> {
    key => AfterAt(before, after, key)
  }

  function Diff(before: seq<Summary>, after: seq<Summary>): seq<Change> {
    var a, b := IndexOfAll(before), IndexOfAll(after);
    Flat(BeforeOf(a, b), Keys(a)) + Flat(AfterOf(a, b), Keys(b))
  }

  method IndexByKey(summaries: seq<Summary>) returns (out: Index)
    ensures out == IndexOfAll(summaries)
    ensures FirstOfEachKey(summaries, out)
  {
    out := [];
    for i := 0 to |summaries|
      invariant out == IndexOfAll(summaries[..i])
    {
      assert summaries[..i + 1][..i] == summaries[..i];
      var key := EntityKey(summaries[i]);
      if !HasKey(out, key) {
        out := out + [Field(key, summaries[i])];
      }
    }
    assert summaries[..|summaries|] == summaries;
    IndexKeepsFirst(summaries);
  }

  method PropertyDiff(prev: Summary, curr: Summary) returns (out: seq<Change>)
    ensures out == PropertyChanges(prev, curr)
    ensures TellsProperties(prev, curr, out)
  {
    out := [];
    var keys := UnionKeys(prev.properties, curr.properties);
    for i := 0 to |keys|
      invariant out == Flat(PropertyOf(prev, curr), keys[..i])
    {
      FlatNext(PropertyOf(prev, curr), keys, i);
      var key := keys[i];
      var a, b := At(prev.properties, key), At(curr.properties, key);
      if IsPresent(a) && !IsPresent(b) {
        out := out + [Change(PropertyRemoved, prev.schemaType, prev.identity, Some(key), Some(Scalarize(a.value)), None,
                             High)];
      } else if !IsPresent(a) && IsPresent(b) {
        out := out + [Change(PropertyAdded, curr.schemaType, curr.identity, Some(key), None, Some(Scalarize(b.value)),
                             Info)];
      } else if IsPresent(a) && IsPresent(b) && Scalarize(a.value) != Scalarize(b.value) {
        out := out + [Change(PropertyChanged, curr.schemaType, curr.identity, Some(key), Some(Scalarize(a.value)),
                             Some(Scalarize(b.value)), Low)];
      }
    }
    assert keys[..|keys|] == keys;
    PropertyChangesAre(prev, curr);
  }

  method RichResultDiff(prev: Summary, curr: Summary) returns (out: seq<Change>)
    ensures out == RichChanges(prev, curr)
    ensures TellsProfiles(prev, curr, out)
  {
    out := [];
    var prevByProfile, currByProfile := Statuses(prev.profiles), Statuses(curr.profiles);
    var names := Keys(prevByProfile);
    for i := 0 to |names|
      invariant out == Flat(RichOf(prev, curr), names[..i])
    {
      FlatNext(RichOf(prev, curr), names, i);
      var a, b := At(prevByProfile, names[i]), At(currByProfile, names[i]);
      if a.Some? && b.Some? && b.value != a.value {
        var worsened := a.value == Eligible && b.value == Ineligible;
        out := out + [Change(RichChanged, curr.schemaType, curr.identity, Some(names[i]), Some(StatusJson(a.value)),
                             Some(StatusJson(b.value)), if worsened then High else Low)];
      }
    }
    assert names[..|names|] == names;
    RichChangesAre(prev, curr);
  }

  method DiffKept(prev: Summary, curr: Summary) returns (changes: seq<Change>)
    ensures changes == Kept(prev, curr)
  {
    changes := [];
    if curr.hash != prev.hash {
      changes := [Change(Modified, prev.schemaType, prev.identity, None, None, None, Medium)];
      var properties := PropertyDiff(prev, curr);
      changes := changes + properties;
    }
    var rich := RichResultDiff(prev, curr);
    changes := changes + rich;
  }

  method DiffEntity(before: Index, after: Index, i: nat) returns (changes: seq<Change>)
    requires Distinct(Keys(before)) && i < |before|
    ensures changes == BeforeOf(before, after)(before[i].key)
  {
    GetOf(before, i);
    if !HasKey(after, before[i].key) {
      return [RemovedOf(before[i].value)];
    }
    changes := DiffKept(before[i].value, Get(after, before[i].key));
  }

  /** Removed and modified entities, in the earlier crawl's order. */
  method DiffBefore(before: Index, after: Index) returns (changes: seq<Change>)
    requires Distinct(Keys(before))
    ensures changes == Flat(BeforeOf(before, after), Keys(before))
  {
    changes := [];
    ghost var f := BeforeOf(before, after);
    var keys := Keys(before);
    for i := 0 to |keys|
      invariant changes == Flat(f, keys[..i])
    {
      FlatNext(f, keys, i);
      var more := DiffEntity(before, after, i);
      changes := changes + more;
    }
    assert keys[..|keys|] == keys;
  }

  lemma AddedAt(before: Index, after: Index, i: nat)
    requires Distinct(Keys(after)) && i < |after|
    ensures AfterOf(before, after)(after[i].key) == if HasKey(before, after[i].key) then []
      else [AddedOf(after[i].value)]
  {
    GetOf(after, i);
  }

  /** Added entities, in the later crawl's order. */
  method DiffAfter(before: Index, after: Index) returns (changes: seq<Change>)
    requires Distinct(Keys(after))
    ensures changes == Flat(AfterOf(before, after), Keys(after))
  {
    changes := [];
    ghost var f := AfterOf(before, after);
    var keys := Keys(after);
    for i := 0 to |keys|
      invariant changes == Flat(f, keys[..i])
    {
      FlatNext(f, keys, i);
      AddedAt(before, after, i);
      if !HasKey(before, keys[i]) {
        changes := changes + [AddedOf(after[i].value)];
      }
    }
    assert keys[..|keys|] == keys;
  }

  method DiffPageSchema(before: seq<Summary>, after: seq<Summary>) returns (changes: seq<Change>)
    ensures changes == Diff(before, after)
  {
    var beforeByKey := IndexByKey(before);
    var afterByKey := IndexByKey(after);
    IndexIsDistinct(before);
    IndexIsDistinct(after);
    changes := DiffBefore(beforeByKey, afterByKey);
    var added := DiffAfter(beforeByKey, afterByKey);
    changes := changes + added;
  }

  lemma {:induction false} IndexIsDistinct(summaries: seq<Summary>)
    ensures Distinct(Keys(IndexOfAll(summaries)))
  {
    if summaries != [] {
      var index, last := IndexOfAll(summaries[..|summaries| - 1]), summaries[|summaries| - 1];
      IndexIsDistinct(summaries[..|summaries| - 1]);
      if !HasKey(index, EntityKey(last)) {
        assert Put(index, EntityKey(last), last) == IndexOfAll(summaries);
        PutDistinct(index, EntityKey(last), last);
      }
    }
  }

  // ---------- what the parts report ----------

  /** The summary at `i` is the first with its key. */
  predicate FirstWithKey(summaries: seq<Summary>, i: nat) {
    i < |summaries| && forall j :: 0 <= j < i ==> EntityKey(summaries[j]) != EntityKey(summaries[i])
  }

  /** Every key once, with the first summary that has it. */
  ghost predicate FirstOfEachKey(summaries: seq<Summary>, index: Index) {
    && Distinct(Keys(index))
    && (forall i: nat :: FirstWithKey(summaries, i) ==> At(index, EntityKey(summaries[i])) == Some(summaries[i]))
    && forall key: string :: HasKey(index, key) ==>
         exists i: nat :: FirstWithKey(summaries, i) && EntityKey(summaries[i]) == key
  }

  lemma AppendedAt(index: Index, key: string, s: Summary, k: string)
    requires !HasKey(index, key)
    ensures At(index + [Field(key, s)], k) == if k == key then Some(s) else At(index, k)
  {
    PutHas(index, key, s, k);
    assert Put(index, key, s) == index + [Field(key, s)];
  }

  lemma FirstBefore(summaries: seq<Summary>, i: nat)
    requires summaries != [] && i < |summaries| - 1
    ensures FirstWithKey(summaries, i) <==> FirstWithKey(summaries[..|summaries| - 1], i)
  {
  }

  lemma {:induction false} IndexNext(summaries: seq<Summary>, key: string)
    requires summaries != []
    ensures var before, last := IndexOfAll(summaries[..|summaries| - 1]), summaries[|summaries| - 1];
      At(IndexOfAll(summaries), key) ==
      if key == EntityKey(last) && !HasKey(before, key) then Some(last) else At(before, key)
  {
    var before, last := IndexOfAll(summaries[..|summaries| - 1]), summaries[|summaries| - 1];
    if !HasKey(before, EntityKey(last)) {
      AppendedAt(before, EntityKey(last), last, key);
    }
  }

  lemma {:induction false} FirstsIndexed(summaries: seq<Summary>, i: nat)
    requires summaries != [] && FirstWithKey(summaries, i)
    requires FirstOfEachKey(summaries[..|summaries| - 1], IndexOfAll(summaries[..|summaries| - 1]))
    ensures At(IndexOfAll(summaries), EntityKey(summaries[i])) == Some(summaries[i])
  {
    IndexNext(summaries, EntityKey(summaries[i]));
    LastIsFirst(summaries);
    if i < |summaries| - 1 {
      FirstBefore(summaries, i);
    }
  }

  lemma FirstOf(summaries: seq<Summary>, index: Index, key: string) returns (i: nat)
    requires FirstOfEachKey(summaries, index) && HasKey(index, key)
    ensures FirstWithKey(summaries, i) && EntityKey(summaries[i]) == key
  {
    i :| FirstWithKey(summaries, i) && EntityKey(summaries[i]) == key;
  }

  lemma {:induction false} IndexedHasFirst(summaries: seq<Summary>, key: string)
    requires summaries != [] && HasKey(IndexOfAll(summaries), key)
    requires FirstOfEachKey(summaries[..|summaries| - 1], IndexOfAll(summaries[..|summaries| - 1]))
    ensures exists i: nat :: FirstWithKey(summaries, i) && EntityKey(summaries[i]) == key
  {
    var before, n := summaries[..|summaries| - 1], |summaries| - 1;
    IndexNext(summaries, key);
    if HasKey(IndexOfAll(before), key) {
      var i := FirstOf(before, IndexOfAll(before), key);
      FirstBefore(summaries, i);
    } else {
      LastIsFirst(summaries);
      assert FirstWithKey(summaries, n);
    }
  }

  lemma {:induction false} IndexKeepsFirst(summaries: seq<Summary>)
    ensures FirstOfEachKey(summaries, IndexOfAll(summaries))
  {
    IndexIsDistinct(summaries);
    if summaries != [] {
      IndexKeepsFirst(summaries[..|summaries| - 1]);
      forall i: nat | FirstWithKey(summaries, i)
        ensures At(IndexOfAll(summaries), EntityKey(summaries[i])) == Some(summaries[i])
      {
        FirstsIndexed(summaries, i);
      }
      forall key: string | HasKey(IndexOfAll(summaries), key)
        ensures exists i: nat :: FirstWithKey(summaries, i) && EntityKey(summaries[i]) == key
      {
        IndexedHasFirst(summaries, key);
      }
    }
  }

  /** The last summary is the first with its key exactly if the index before it lacks the key. */
  lemma LastIsFirst(summaries: seq<Summary>)
    requires summaries != []
    requires FirstOfEachKey(summaries[..|summaries| - 1], IndexOfAll(summaries[..|summaries| - 1]))
    ensures var n := |summaries| - 1;
      FirstWithKey(summaries, n) <==> !HasKey(IndexOfAll(summaries[..n]), EntityKey(summaries[n]))
  {
    var n := |summaries| - 1;
    var key := EntityKey(summaries[n]);
    if !FirstWithKey(summaries, n) {
      var j :| 0 <= j < n && EntityKey(summaries[j]) == key;
      var i := LeastWithKey(summaries[..n], key, j);
      assert At(IndexOfAll(summaries[..n]), key) == Some(summaries[i]);
    }
  }

  lemma {:induction false} LeastWithKey(summaries: seq<Summary>, key: string, j: nat) returns (i: nat)
    requires j < |summaries| && EntityKey(summaries[j]) == key
    ensures FirstWithKey(summaries, i) && EntityKey(summaries[i]) == key
    decreases j
  {
    if FirstWithKey(summaries, j) {
      i := j;
    } else {
      var k: nat :| k < j && EntityKey(summaries[k]) == key;
      i := LeastWithKey(summaries, key, k);
    }
  }

  function Shown(v: Option<SchemaValue>): Option<Json> {
    if IsPresent(v) then Some(Scalarize(v.value)) else None
  }

  /** One change for each property shown differently: what was shown and what is now, of the entity that
      shows it now or, if none, that did; at most one for a property. */
  ghost predicate TellsProperties(prev: Summary, curr: Summary, out: seq<Change>) {
    && (forall c <- out :: TellsProperty(prev, curr, c))
    && (forall key: string ::
          Shown(At(prev.properties, key)) != Shown(At(curr.properties, key)) <==>
          exists c <- out :: c.property == Some(key))
    && (Distinct(Keys(prev.properties)) ==> forall i, j :: 0 <= i < j < |out| ==> out[i].property != out[j].property)
  }

  predicate TellsProperty(prev: Summary, curr: Summary, c: Change) {
    && c.property.Some?
    && c.before == Shown(At(prev.properties, c.property.value)) &&
         c.after == Shown(At(curr.properties, c.property.value))
    && (c.after.None? ==> c.kind == PropertyRemoved && c.severity == High && IsOf(c, prev))
    && (c.after.Some? ==> IsOf(c, curr))
    && (c.before.None? ==> c.kind == PropertyAdded && c.severity == Info)
    && (c.before.Some? && c.after.Some? ==> c.kind == PropertyChanged && c.severity == Low)
  }

  predicate IsOf(c: Change, s: Summary) {
    c.entityType == s.schemaType && c.identity == s.identity
  }

  lemma PropertyTold(prev: Summary, curr: Summary, key: string)
    ensures var out := PropertyAt(prev, curr, key);
      && |out| == (if Shown(At(prev.properties, key)) == Shown(At(curr.properties, key)) then 0 else 1)
      && forall c <- out :: c.property == Some(key) && TellsProperty(prev, curr, c)
  {
  }

  /** Rows that each tell of their own key tell of different ones. */
  lemma OwnKeysDiffer(f: string -> seq<Change>, keys: seq<string>, out: seq<Change>, at: seq<nat>)
    requires Distinct(keys) && FromOwnKey(f, keys, out, at) && Increasing(at)
    requires forall key: string :: forall c <- f(key) :: c.property == Some(key)
    ensures forall i, j :: 0 <= i < j < |out| ==> out[i].property != out[j].property
  {
    forall i | 0 <= i < |out|
      ensures out[i].property == Some(keys[at[i]])
    {
      assert out[i] in f(keys[at[i]]);
    }
  }

  /** The rows of keys that give one change or none, each telling of its key. */
  lemma {:induction false} OwnChanges(f: string -> seq<Change>, keys: seq<string>)
    requires forall key: string :: |f(key)| <= 1 && forall c <- f(key) :: c.property == Some(key)
    ensures forall key: string :: key in keys && f(key) != [] <==> exists c <- Flat(f, keys) :: c.property == Some(key)
    ensures forall c <- Flat(f, keys) :: c.property.Some? && c in f(c.property.value)
    ensures Distinct(keys) ==>
      forall i, j :: 0 <= i < j < |Flat(f, keys)| ==> Flat(f, keys)[i].property != Flat(f, keys)[j].property
  {
    var out := Flat(f, keys);
    var test := (i: nat) => i < |keys| && |f(keys[i])| == 1;
    FlatWhere(f, keys, test, |keys|);
    assert keys[..|keys|] == keys;
    if Distinct(keys) {
      OwnKeysDiffer(f, keys, out, Where(test, |keys|));
    }
    forall c <- out
      ensures c.property.Some? && c in f(c.property.value) && c.property.value in keys
    {
      FlatHas(f, keys, c);
      var k :| k in keys && c in f(k);
    }
    forall key: string | key in keys && f(key) != []
      ensures exists c <- out :: c.property == Some(key)
    {
      FlatHas(f, keys, f(key)[0]);
      assert f(key)[0] in out && f(key)[0] in f(key);
    }
  }

  lemma PropertyChangesAre(prev: Summary, curr: Summary)
    ensures TellsProperties(prev, curr, PropertyChanges(prev, curr))
  {
    var f, keys := PropertyOf(prev, curr), UnionKeys(prev.properties, curr.properties);
    forall key: string
      ensures |f(key)| == (if Shown(At(prev.properties, key)) == Shown(At(curr.properties, key)) then 0 else 1)
      ensures forall c <- f(key) :: c.property == Some(key) && TellsProperty(prev, curr, c)
      ensures f(key) != [] ==> key in keys
    {
      PropertyTold(prev, curr, key);
      UnionHas(prev.properties, curr.properties, key);
    }
    OwnChanges(f, keys);
    if Distinct(Keys(prev.properties)) {
      UnionDistinct(prev.properties, curr.properties);
    }
  }

  /** The status of a profile: the last one given. */
  lemma {:induction false} StatusIsLast(profiles: seq<Profile>, name: string)
    ensures At(Statuses(profiles), name).None? <==> forall p <- profiles :: p.name != name
    ensures At(Statuses(profiles), name).Some? ==>
      exists i: nat :: LastWithName(profiles, i) && profiles[i].name == name
                       && At(Statuses(profiles), name) == Some(profiles[i].status)
  {
    if profiles != [] {
      var n := |profiles| - 1;
      var before, last := profiles[..n], profiles[n];
      StatusIsLast(before, name);
      PutHas(Statuses(before), last.name, last.status, name);
      assert forall p :: p in profiles <==> p in before || p == last;
      if last.name == name {
        assert LastWithName(profiles, n);
      } else if At(Statuses(before), name).Some? {
        var i: nat :| LastWithName(before, i) && before[i].name == name
                      && At(Statuses(before), name) == Some(before[i].status);
        assert LastWithName(profiles, i);
      }
    }
  }

  predicate LastWithName(profiles: seq<Profile>, i: nat) {
    i < |profiles| && forall j :: i < j < |profiles| ==> profiles[j].name != profiles[i].name
  }

  /** One change for each profile whose status differs, High exactly if it was eligible and is not at all
      any more; a profile that one crawl lacks changes nothing. */
  ghost predicate TellsProfiles(prev: Summary, curr: Summary, out: seq<Change>) {
    && (forall c <- out :: TellsProfile(prev, curr, c))
    && (forall name: string :: StatusDiffers(prev, curr, name) <==> exists c <- out :: c.property == Some(name))
    && forall i, j :: 0 <= i < j < |out| ==> out[i].property != out[j].property
  }

  predicate StatusDiffers(prev: Summary, curr: Summary, name: string) {
    var a, b := At(Statuses(prev.profiles), name), At(Statuses(curr.profiles), name);
    a.Some? && b.Some? && a != b
  }

  predicate TellsProfile(prev: Summary, curr: Summary, c: Change) {
    && c.kind == RichChanged && IsOf(c, curr) && c.property.Some? && StatusDiffers(prev, curr, c.property.value)
    && var a, b := At(Statuses(prev.profiles), c.property.value), At(Statuses(curr.profiles), c.property.value);
    && c.before == Some(StatusJson(a.value)) && c.after == Some(StatusJson(b.value))
    && c.severity == if a == Some(Eligible) && b == Some(Ineligible) then High else Low
  }

  lemma ProfileTold(prev: Summary, curr: Summary, name: string)
    ensures var out := RichAt(prev, curr, name);
      && |out| == (if StatusDiffers(prev, curr, name) then 1 else 0)
      && forall c <- out :: c.property == Some(name) && TellsProfile(prev, curr, c)
  {
  }

  lemma RichChangesAre(prev: Summary, curr: Summary)
    ensures TellsProfiles(prev, curr, RichChanges(prev, curr))
  {
    var f, names := RichOf(prev, curr), Keys(Statuses(prev.profiles));
    forall name: string
      ensures |f(name)| == (if StatusDiffers(prev, curr, name) then 1 else 0)
      ensures forall c <- f(name) :: c.property == Some(name) && TellsProfile(prev, curr, c)
      ensures f(name) != [] ==> name in names
    {
      ProfileTold(prev, curr, name);
      KeyInKeys(Statuses(prev.profiles), name);
    }
    OwnChanges(f, names);
    StatusesDistinct(prev.profiles);
  }

  // ---------- when nothing changed ----------

  /** The profiles of both crawls have the same status. */
  ghost predicate SameStatuses(a: Summary, b: Summary) {
    forall name: string :: HasKey(Statuses(a.profiles), name) && HasKey(Statuses(b.profiles), name) ==>
      Get(Statuses(a.profiles), name) == Get(Statuses(b.profiles), name)
  }

  ghost predicate SameSchema(a: Index, b: Index) {
    SameKeys(a, b) &&
    forall key: string :: HasKey(a, key) && HasKey(b, key) ==>
      Get(a, key).hash == Get(b, key).hash && SameStatuses(Get(a, key), Get(b, key))
  }

  lemma KeyInKeys<V>(fields: seq<Field<V>>, key: string)
    ensures key in Keys(fields) <==> HasKey(fields, key)
  {
    if HasKey(fields, key) {
      assert Keys(fields)[IndexOf(fields, key)] == key;
    }
    if key in Keys(fields) {
      var i :| 0 <= i < |fields| && Keys(fields)[i] == key;
      assert fields[i] in fields;
    }
  }

  lemma NoRichChanges(a: Summary, b: Summary)
    ensures RichChanges(a, b) == [] <==> SameStatuses(a, b)
  {
    var names := Keys(Statuses(a.profiles));
    FlatEmpty(RichOf(a, b), names);
    forall name: string
      ensures name in names <==> HasKey(Statuses(a.profiles), name)
    {
      KeyInKeys(Statuses(a.profiles), name);
    }
    if RichChanges(a, b) == [] {
      forall name: string | HasKey(Statuses(a.profiles), name) && HasKey(Statuses(b.profiles), name)
        ensures Get(Statuses(a.profiles), name) == Get(Statuses(b.profiles), name)
      {
        assert RichOf(a, b)(name) == [];
      }
    }
  }

  lemma NotKept(a: Summary, b: Summary)
    ensures Kept(a, b) == [] <==> a.hash == b.hash && SameStatuses(a, b)
  {
    NoRichChanges(a, b);
    assert a.hash != b.hash ==> |Kept(a, b)| > 0;
  }

  /** A diff is empty exactly when both crawls have the same keys, with the same hash and the same
      status in every profile they share. */
  lemma {:induction false} DiffEmpty(before: seq<Summary>, after: seq<Summary>)
    ensures Diff(before, after) == [] <==> SameSchema(IndexOfAll(before), IndexOfAll(after))
  {
    var a, b := IndexOfAll(before), IndexOfAll(after);
    var f, g := BeforeOf(a, b), AfterOf(a, b);
    FlatEmpty(f, Keys(a));
    FlatEmpty(g, Keys(b));
    forall key: string
      ensures (key in Keys(a) <==> HasKey(a, key)) && (key in Keys(b) <==> HasKey(b, key))
      ensures HasKey(a, key) && HasKey(b, key) ==>
        (f(key) == [] <==> Get(a, key).hash == Get(b, key).hash && SameStatuses(Get(a, key), Get(b, key)))
      ensures HasKey(a, key) && !HasKey(b, key) ==> f(key) != []
      ensures HasKey(b, key) ==> (g(key) == [] <==> HasKey(a, key))
    {
      KeyInKeys(a, key);
      KeyInKeys(b, key);
      if HasKey(a, key) && HasKey(b, key) {
        NotKept(Get(a, key), Get(b, key));
      }
    }
    SameKeysByName(a, b);
    assert Diff(before, after) == [] <==> Flat(f, Keys(a)) == [] && Flat(g, Keys(b)) == [];
  }

  lemma SameKeysByName(a: Index, b: Index)
    ensures SameKeys(a, b) <==> forall key: string :: HasKey(a, key) <==> HasKey(b, key)
  {
    SameKeysIff(a, b);
  }

  /** Nothing changes between a crawl and itself. */
  lemma DiffSelf(summaries: seq<Summary>)
    ensures Diff(summaries, summaries) == []
  {
    DiffEmpty(summaries, summaries);
    SameKeysByName(IndexOfAll(summaries), IndexOfAll(summaries));
  }

  // ---------- the reverse diff ----------

  function SeverityOf(kind: Kind, before: Option<Json>, after: Option<Json>): Severity {
    match kind
    case Added => Info
    case Removed => High
    case Modified => Medium
    case PropertyAdded => Info
    case PropertyRemoved => High
    case PropertyChanged => Low
    case RichChanged => if before == Some(StatusJson(Eligible)) &&
      after == Some(StatusJson(Ineligible)) then High else Low
  }

  function Opposite(kind: Kind): Kind {
    match kind
    case Added => Removed
    case Removed => Added
    case PropertyAdded => PropertyRemoved
    case PropertyRemoved => PropertyAdded
    case _ => kind
  }

  /** The change seen the other way round, with the severity that the policy gives it. */
  function Swap(c: Change): Change {
    c.(kind := Opposite(c.kind), before := c.after, after := c.before,
       severity := SeverityOf(Opposite(c.kind), c.after, c.before))
  }

  function SwapAll(cs: seq<Change>): seq<Change> {
    Map(Swap, cs)
  }

  lemma SwapAllSplit(a: seq<Change>, b: seq<Change>)
    ensures SwapAll(a + b) == SwapAll(a) + SwapAll(b)
  {
    MapSplit(Swap, a, b);
  }

  /** The changes of one are those of the other seen the other way round. */
  ghost predicate Reverse(a: seq<Change>, b: seq<Change>) {
    multiset(b) == multiset(SwapAll(a))
  }

  lemma ReverseSplit(a: seq<Change>, b: seq<Change>, x: seq<Change>, y: seq<Change>)
    requires Reverse(a, x) && Reverse(b, y)
    ensures Reverse(a + b, x + y) && Reverse(a + b, y + x)
  {
    SwapAllSplit(a, b);
  }

  lemma WithoutDistinct(keys: seq<string>, i: nat)
    requires Distinct(keys) && i < |keys|
    ensures var rest := keys[..i] + keys[i + 1..];
      Distinct(rest) && forall k :: k in rest <==> k in keys && k != keys[i]
  {
    var rest := keys[..i] + keys[i + 1..];
    assert forall j :: 0 <= j < |rest| ==> rest[j] == if j < i then keys[j] else keys[j + 1];
    forall k
      ensures k in rest <==> k in keys && k != keys[i]
    {
      if k in keys && k != keys[i] {
        var j :| 0 <= j < |keys| && keys[j] == k;
        assert rest[if j < i then j else j - 1] == k;
      }
    }
  }

  /** Keys missing from the other list change nothing. */
  ghost predicate QuietOutside(f: string -> seq<Change>, keys: seq<string>, others: seq<string>) {
    forall k <- keys :: k in others || f(k) == []
  }

  lemma QuietWithout(f: string -> seq<Change>, g: string -> seq<Change>, ks: seq<string>, ls: seq<string>,
      rest: seq<string>)
    requires Distinct(ks) && ks != [] && QuietOutside(f, ks, ls) && QuietOutside(g, ls, ks)
    requires forall x :: x in rest <==> x in ls && x != ks[0]
    ensures Distinct(ks[1..]) && QuietOutside(f, ks[1..], rest) && QuietOutside(g, rest, ks[1..])
  {
    assert ks == [ks[0]] + ks[1..];
    assert forall x <- ks[1..] :: x in ks && x != ks[0];
  }

  lemma {:induction false} ReverseHead(f: string -> seq<Change>, g: string -> seq<Change>, ks: seq<string>,
                                       ls: seq<string>, j: nat)
    requires ks != [] && j < |ls| && ls[j] == ks[0] && Reverse(f(ks[0]), g(ks[0]))
    requires Reverse(Flat(f, ks[1..]), Flat(g, ls[..j] + ls[j + 1..]))
    ensures Reverse(Flat(f, ks), Flat(g, ls))
  {
    FlatWithout(g, ls, j);
    ReverseFirst(f(ks[0]), Flat(f, ks[1..]), g(ks[0]), Flat(g, ls[..j] + ls[j + 1..]), Flat(g, ls));
  }

  /** Key by key reversed, whatever the order of the keys; keys of one side only change nothing. */
  lemma {:induction false} ReverseFlat(f: string -> seq<Change>, g: string -> seq<Change>, ks: seq<string>,
                                       ls: seq<string>)
    requires Distinct(ks) && Distinct(ls) && QuietOutside(f, ks, ls) && QuietOutside(g, ls, ks)
    requires forall k: string :: Reverse(f(k), g(k))
    ensures Reverse(Flat(f, ks), Flat(g, ls))
  {
    if ks == [] {
      FlatEmpty(g, ls);
    } else if ks[0] in ls {
      var j :| 0 <= j < |ls| && ls[j] == ks[0];
      var rest := ls[..j] + ls[j + 1..];
      WithoutDistinct(ls, j);
      QuietWithout(f, g, ks, ls, rest);
      ReverseFlat(f, g, ks[1..], rest);
      ReverseHead(f, g, ks, ls, j);
    } else {
      QuietWithout(f, g, ks, ls, ls);
      ReverseFlat(f, g, ks[1..], ls);
      assert ks[0] in ks && f(ks[0]) + Flat(f, ks[1..]) == Flat(f, ks[1..]);
    }
  }

  lemma ReverseFirst(a: seq<Change>, b: seq<Change>, x: seq<Change>, y: seq<Change>, all: seq<Change>)
    requires Reverse(a, x) && Reverse(b, y) && multiset(all) == multiset(x) + multiset(y)
    ensures Reverse(a + b, all)
  {
    SwapAllSplit(a, b);
  }

  // ---------- properties and profiles reversed ----------

  ghost predicate SameEntity(a: Summary, b: Summary) {
    a.schemaType == b.schemaType && a.identity == b.identity
  }

  lemma PropertyReversed(a: Summary, b: Summary, key: string)
    requires SameEntity(a, b)
    ensures Reverse(PropertyAt(a, b, key), PropertyAt(b, a, key))
  {
    assert SwapAll(PropertyAt(a, b, key)) == PropertyAt(b, a, key);
  }

  lemma RichReversed(a: Summary, b: Summary, name: string)
    requires SameEntity(a, b)
    ensures Reverse(RichAt(a, b, name), RichAt(b, a, name))
  {
    StatusesDiffer();
    assert SwapAll(RichAt(a, b, name)) == RichAt(b, a, name);
  }

  lemma StatusesDiffer()
    ensures forall s: Status, t: Status :: StatusJson(s) == StatusJson(t) ==> s == t
  {
    assert |"eligible"| == 8 && |"eligible_with_warnings"| == 22 && |"ineligible"| == 10;
  }

  lemma {:induction false} UnionHas<V>(a: seq<Field<V>>, b: seq<Field<V>>, key: string)
    ensures key in UnionKeys(a, b) <==> HasKey(a, key) || HasKey(b, key)
  {
    KeyInKeys(a, key);
    if b != [] {
      var before, last := b[..|b| - 1], b[|b| - 1];
      UnionHas(a, before, key);
      assert HasKey(b, key) <==> HasKey(before, key) || last.key == key by {
        assert last in b && forall f :: f in b <==> f in before || f == last;
      }
    }
  }

  lemma {:induction false} UnionDistinct<V>(a: seq<Field<V>>, b: seq<Field<V>>)
    requires Distinct(Keys(a))
    ensures Distinct(UnionKeys(a, b))
  {
    if b != [] {
      UnionDistinct(a, b[..|b| - 1]);
    }
  }

  lemma PropertiesReversed(a: Summary, b: Summary)
    requires SameEntity(a, b) && Distinct(Keys(a.properties)) && Distinct(Keys(b.properties))
    ensures Reverse(PropertyChanges(a, b), PropertyChanges(b, a))
  {
    var f, g := PropertyOf(a, b), PropertyOf(b, a);
    var ks, ls := UnionKeys(a.properties, b.properties), UnionKeys(b.properties, a.properties);
    UnionDistinct(a.properties, b.properties);
    UnionDistinct(b.properties, a.properties);
    forall key: string
      ensures Reverse(f(key), g(key)) && (key in ks <==> key in ls)
    {
      PropertyReversed(a, b, key);
      UnionHas(a.properties, b.properties, key);
      UnionHas(b.properties, a.properties, key);
    }
    ReverseFlat(f, g, ks, ls);
  }

  lemma {:induction false} StatusesDistinct(profiles: seq<Profile>)
    ensures Distinct(Keys(Statuses(profiles)))
  {
    if profiles != [] {
      var last := profiles[|profiles| - 1];
      StatusesDistinct(profiles[..|profiles| - 1]);
      PutDistinct(Statuses(profiles[..|profiles| - 1]), last.name, last.status);
    }
  }

  lemma ProfilesReversed(a: Summary, b: Summary)
    requires SameEntity(a, b)
    ensures Reverse(RichChanges(a, b), RichChanges(b, a))
  {
    var f, g := RichOf(a, b), RichOf(b, a);
    StatusesDistinct(a.profiles);
    StatusesDistinct(b.profiles);
    forall name: string
      ensures Reverse(f(name), g(name))
      ensures name in Keys(Statuses(a.profiles)) <==> HasKey(Statuses(a.profiles), name)
      ensures name in Keys(Statuses(b.profiles)) <==> HasKey(Statuses(b.profiles), name)
    {
      RichReversed(a, b, name);
      KeyInKeys(Statuses(a.profiles), name);
      KeyInKeys(Statuses(b.profiles), name);
    }
    ReverseFlat(f, g, Keys(Statuses(a.profiles)), Keys(Statuses(b.profiles)));
  }

  lemma ReverseAfter(c: Change, x: seq<Change>, y: seq<Change>, u: seq<Change>, v: seq<Change>)
    requires Swap(c) == c && Reverse(x, u) && Reverse(y, v)
    ensures Reverse([c] + x + y, [c] + u + v)
  {
    assert SwapAll([c]) == [c];
    ReverseSplit([c], x, [c], u);
    ReverseSplit([c] + x, y, [c] + u, v);
  }

  lemma SameKeptReversed(a: Summary, b: Summary)
    requires SameEntity(a, b) && Distinct(Keys(a.properties)) && Distinct(Keys(b.properties))
    ensures Reverse(Kept(a, b), Kept(b, a))
  {
    ProfilesReversed(a, b);
    if a.hash != b.hash {
      PropertiesReversed(a, b);
      ReverseAfter(Change(Modified, a.schemaType, a.identity, None, None, None, Medium), PropertyChanges(a, b),
                   RichChanges(a, b), PropertyChanges(b, a), RichChanges(b, a));
    } else {
      assert [] + RichChanges(a, b) == RichChanges(a, b) && [] + RichChanges(b, a) == RichChanges(b, a);
    }
  }

  /** The hash and every shared status are the same: nothing is reported. */
  ghost predicate Unchanged(a: Summary, b: Summary) {
    a.hash == b.hash && SameStatuses(a, b)
  }

  /** A profile change is told of the later summary. */
  lemma RichAreOf(a: Summary, b: Summary)
    ensures forall c <- RichChanges(a, b) :: IsOf(c, b) && c.kind == RichChanged
  {
    RichChangesAre(a, b);
    forall c <- RichChanges(a, b)
      ensures IsOf(c, b) && c.kind == RichChanged
    {
      assert TellsProfile(a, b, c);
    }
  }

  lemma ModifiedIsOf(a: Summary, b: Summary)
    ensures forall c <- Kept(a, b) :: c.kind == Modified ==> IsOf(c, a)
  {
    RichAreOf(a, b);
    PropertyChangesAre(a, b);
    forall c <- PropertyChanges(a, b)
      ensures c.kind != Modified
    {
      assert TellsProperty(a, b, c);
    }
  }

  /** A swapped change is of the same entity. */
  lemma SwapIsOf(changes: seq<Change>, i: nat)
    requires i < |changes|
    ensures i < |SwapAll(changes)| && SwapAll(changes)[i] in multiset(SwapAll(changes))
    ensures SwapAll(changes)[i].entityType == changes[i].entityType &&
      SwapAll(changes)[i].identity == changes[i].identity
    ensures SwapAll(changes)[i].kind == Opposite(changes[i].kind)
  {
    MapAt(Swap, changes, i);
  }

  lemma ModifiedNotReversed(a: Summary, b: Summary)
    requires !SameEntity(a, b) && a.hash != b.hash
    ensures !Reverse(Kept(a, b), Kept(b, a))
  {
    ModifiedIsOf(b, a);
    SwapIsOf(Kept(a, b), 0);
    assert SwapAll(Kept(a, b))[0] !in multiset(Kept(b, a));
  }

  lemma RichNotReversed(a: Summary, b: Summary)
    requires !SameEntity(a, b) && a.hash == b.hash && RichChanges(a, b) != []
    ensures !Reverse(Kept(a, b), Kept(b, a))
  {
    RichAreOf(a, b);
    RichAreOf(b, a);
    assert Kept(a, b) == RichChanges(a, b) && Kept(b, a) == RichChanges(b, a);
    SwapIsOf(RichChanges(a, b), 0);
    assert RichChanges(a, b)[0] in RichChanges(a, b);
    assert SwapAll(RichChanges(a, b))[0] !in multiset(RichChanges(b, a));
  }

  /** The changes of an entity are reversed exactly if nothing changed or its type and identity are the
      same in both crawls. */
  lemma KeptReversed(a: Summary, b: Summary)
    requires Distinct(Keys(a.properties)) && Distinct(Keys(b.properties))
    ensures Reverse(Kept(a, b), Kept(b, a)) <==> SameEntity(a, b) || Unchanged(a, b)
  {
    if SameEntity(a, b) {
      SameKeptReversed(a, b);
    } else if Unchanged(a, b) {
      NotKept(a, b);
      assert SameStatuses(b, a);
      NotKept(b, a);
    } else if a.hash != b.hash {
      ModifiedNotReversed(a, b);
    } else {
      NoRichChanges(a, b);
      RichNotReversed(a, b);
    }
  }

  // ---------- pages reversed ----------

  function RemovedAt(a: Index, b: Index): string -> seq<Change> {
    key => if HasKey(a, key) && !HasKey(b, key) then [RemovedOf(Get(a, key))] else []
  }

  function KeptAt(a: Index, b: Index): string -> seq<Change> {
    key => if HasKey(a, key) && HasKey(b, key) then Kept(Get(a, key), Get(b, key)) else []
  }

  lemma {:induction false} FlatSum(f: string -> seq<Change>, g: string -> seq<Change>, h: string -> seq<Change>,
                                   keys: seq<string>)
    requires forall k: string :: f(k) == g(k) + h(k)
    ensures multiset(Flat(f, keys)) == multiset(Flat(g, keys)) + multiset(Flat(h, keys))
  {
    if keys != [] {
      FlatSum(f, g, h, keys[1..]);
    }
  }

  lemma {:induction false} IndexFrom(summaries: seq<Summary>, key: string)
    requires HasKey(IndexOfAll(summaries), key)
    ensures Get(IndexOfAll(summaries), key) in summaries && EntityKey(Get(IndexOfAll(summaries), key)) == key
  {
    if summaries != [] {
      var before, last := summaries[..|summaries| - 1], summaries[|summaries| - 1];
      var index := IndexOfAll(before);
      if !HasKey(index, EntityKey(last)) {
        assert IndexOfAll(summaries) == Put(index, EntityKey(last), last);
        PutHas(index, EntityKey(last), last, key);
      }
      if HasKey(index, key) {
        IndexFrom(before, key);
      }
    }
  }

  /** No entity repeats a property, and an entity of both crawls has one type and identity or is unchanged. */
  ghost predicate WellKeyed(before: seq<Summary>, after: seq<Summary>) {
    var a, b := IndexOfAll(before), IndexOfAll(after);
    && (forall s <- before :: Distinct(Keys(s.properties)))
    && (forall s <- after :: Distinct(Keys(s.properties)))
    && (forall key: string :: HasKey(a, key) && HasKey(b, key) ==>
          SameEntity(Get(a, key), Get(b, key)) || Unchanged(Get(a, key), Get(b, key)))
  }

  lemma {:induction false} CommonReversed(before: seq<Summary>, after: seq<Summary>, key: string)
    requires WellKeyed(before, after)
    ensures var a, b := IndexOfAll(before), IndexOfAll(after);
      Reverse(KeptAt(a, b)(key), KeptAt(b, a)(key))
  {
    var a, b := IndexOfAll(before), IndexOfAll(after);
    if HasKey(a, key) && HasKey(b, key) {
      IndexFrom(before, key);
      IndexFrom(after, key);
      KeptReversed(Get(a, key), Get(b, key));
    }
  }

  lemma EndsReversed(a: Index, b: Index, key: string)
    ensures Reverse(RemovedAt(a, b)(key), AfterOf(b, a)(key)) && Reverse(AfterOf(a, b)(key), RemovedAt(b, a)(key))
  {
    assert SwapAll(RemovedAt(a, b)(key)) == AfterOf(b, a)(key);
    assert SwapAll(AfterOf(a, b)(key)) == RemovedAt(b, a)(key);
  }

  lemma {:induction false} DiffParts(before: seq<Summary>, after: seq<Summary>)
    ensures var a, b := IndexOfAll(before), IndexOfAll(after);
      multiset(Diff(before, after)) ==
        multiset(Flat(RemovedAt(a, b), Keys(a)) + Flat(KeptAt(a, b), Keys(a)) + Flat(AfterOf(a, b), Keys(b)))
  {
    var a, b := IndexOfAll(before), IndexOfAll(after);
    forall k: string
      ensures BeforeOf(a, b)(k) == RemovedAt(a, b)(k) + KeptAt(a, b)(k)
    {
    }
    FlatSum(BeforeOf(a, b), RemovedAt(a, b), KeptAt(a, b), Keys(a));
  }

  lemma {:induction false} PartsReversed(before: seq<Summary>, after: seq<Summary>)
    requires WellKeyed(before, after)
    ensures var a, b := IndexOfAll(before), IndexOfAll(after);
      && Reverse(Flat(RemovedAt(a, b), Keys(a)), Flat(AfterOf(b, a), Keys(a)))
      && Reverse(Flat(KeptAt(a, b), Keys(a)), Flat(KeptAt(b, a), Keys(b)))
      && Reverse(Flat(AfterOf(a, b), Keys(b)), Flat(RemovedAt(b, a), Keys(b)))
  {
    var a, b := IndexOfAll(before), IndexOfAll(after);
    IndexIsDistinct(before);
    IndexIsDistinct(after);
    forall key: string
      ensures Reverse(RemovedAt(a, b)(key), AfterOf(b, a)(key)) && Reverse(AfterOf(a, b)(key), RemovedAt(b, a)(key))
      ensures Reverse(KeptAt(a, b)(key), KeptAt(b, a)(key))
      ensures (key in Keys(a) <==> HasKey(a, key)) && (key in Keys(b) <==> HasKey(b, key))
    {
      EndsReversed(a, b, key);
      CommonReversed(before, after, key);
      KeyInKeys(a, key);
      KeyInKeys(b, key);
    }
    ReverseFlat(RemovedAt(a, b), AfterOf(b, a), Keys(a), Keys(a));
    ReverseFlat(KeptAt(a, b), KeptAt(b, a), Keys(a), Keys(b));
    ReverseFlat(AfterOf(a, b), RemovedAt(b, a), Keys(b), Keys(b));
  }

  /** The reverse diff has the same changes the other way round. */
  lemma DiffReversed(before: seq<Summary>, after: seq<Summary>)
    requires WellKeyed(before, after)
    ensures multiset(Diff(after, before)) == multiset(SwapAll(Diff(before, after)))
  {
    var a, b := IndexOfAll(before), IndexOfAll(after);
    var removed, kept, added := Flat(RemovedAt(a, b), Keys(a)), Flat(KeptAt(a, b), Keys(a)),
      Flat(AfterOf(a, b), Keys(b));
    DiffParts(before, after);
    DiffParts(after, before);
    PartsReversed(before, after);
    MapPermuted(Swap, Diff(before, after), removed + kept + added);
    SwapAllSplit(removed + kept, added);
    SwapAllSplit(removed, kept);
  }

  lemma IndexOfOne(s: Summary)
    ensures IndexOfAll([s]) == [Field(EntityKey(s), s)] && At(IndexOfAll([s]), EntityKey(s)) == Some(s)
  {
    var one := [s];
    assert one[..|one| - 1] == [] && IndexOfAll([]) == [];
    AppendedAt([], EntityKey(s), s, EntityKey(s));
  }

  lemma DiffOfOne(a: Summary, b: Summary)
    requires EntityKey(a) == EntityKey(b)
    ensures Diff([a], [b]) == Kept(a, b)
  {
    IndexOfOne(a);
    IndexOfOne(b);
    var x, y := IndexOfAll([a]), IndexOfAll([b]);
    assert Keys(x) == [EntityKey(a)] && Keys(y) == [EntityKey(b)];
    assert BeforeOf(x, y)(EntityKey(a)) == Kept(a, b) && AfterOf(x, y)(EntityKey(b)) == [];
    FlatAppend(BeforeOf(x, y), [], EntityKey(a));
    FlatAppend(AfterOf(x, y), [], EntityKey(b));
    assert [] + [EntityKey(a)] == Keys(x) && [] + [EntityKey(b)] == Keys(y);
  }

  /** For a page with one entity in each crawl, under one key, the condition is exact. */
  lemma OneEntityReversed(a: Summary, b: Summary)
    requires EntityKey(a) == EntityKey(b) && Distinct(Keys(a.properties)) && Distinct(Keys(b.properties))
    ensures Reverse(Diff([a], [b]), Diff([b], [a])) <==> SameEntity(a, b) || Unchanged(a, b)
  {
    DiffOfOne(a, b);
    DiffOfOne(b, a);
    KeptReversed(a, b);
  }

  /** An empty identity against none: one key, one hash, and a status that changed. */
  lemma EmptyIdentityNotReversed(schemaType: string, hash: string, profile: string)
    ensures var a := Summary(schemaType, "json-ld", Some(""), hash, [], [Profile(profile, Eligible)]);
      var b := Summary(schemaType, "json-ld", None, hash, [], [Profile(profile, Ineligible)]);
      EntityKey(a) == EntityKey(b) && !Reverse(Diff([a], [b]), Diff([b], [a]))
  {
    var a := Summary(schemaType, "json-ld", Some(""), hash, [], [Profile(profile, Eligible)]);
    var b := Summary(schemaType, "json-ld", None, hash, [], [Profile(profile, Ineligible)]);
    OneStatus(Profile(profile, Eligible));
    OneStatus(Profile(profile, Ineligible));
    OneEntityReversed(a, b);
  }

  lemma OneStatus(p: Profile)
    ensures At(Statuses([p]), p.name) == Some(p.status)
  {
    PutHas([], p.name, p.status, p.name);
    assert [p][..0] == [];
  }

  // ---------- when keys tell entities apart ----------

  /** Types without a colon, and no empty identity nor one that is the other's hash, make keys tell
      types and identities apart. */
  lemma KeysDecide(s: Summary, t: Summary)
    requires ':' !in s.schemaType && ':' !in t.schemaType
    requires s.identity != Some("") && t.identity != Some("")
    requires s.identity != Some(t.hash) && t.identity != Some(s.hash)
    requires EntityKey(s) == EntityKey(t)
    ensures SameEntity(s, t) && (s.identity.None? ==> s.hash == t.hash)
  {
    SplitKey(s.schemaType, if s.identity.Some? then s.identity.value else s.hash,
             t.schemaType, if t.identity.Some? then t.identity.value else t.hash);
  }

  lemma SplitKey(a: string, x: string, b: string, y: string)
    requires ':' !in a && ':' !in b && a + "::" + x == b + "::" + y
    ensures a == b && x == y
  {
    var key := a + "::" + x;
    FindAt(a, ':', "::" + x);
    FindAt(b, ':', "::" + y);
    assert key == a + ("::" + x) && key == b + ("::" + y);
    assert key[..|a|] == a && key[..|b|] == b && key[|a| + 2..] == x && key[|b| + 2..] == y;
  }

  /** Types have no colon, no identity is empty, and none is some entity's hash. */
  ghost predicate PlainKeys(all: seq<Summary>) {
    && (forall s <- all :: ':' !in s.schemaType && s.identity != Some("") && Distinct(Keys(s.properties)))
    && forall s <- all, t <- all :: s.identity != Some(t.hash)
  }

  lemma {:induction false} PlainIsWellKeyed(before: seq<Summary>, after: seq<Summary>)
    requires PlainKeys(before + after)
    ensures WellKeyed(before, after)
  {
    var a, b, all := IndexOfAll(before), IndexOfAll(after), before + after;
    assert forall s :: s in before || s in after ==> s in all;
    forall key: string | HasKey(a, key) && HasKey(b, key)
      ensures SameEntity(Get(a, key), Get(b, key))
    {
      IndexFrom(before, key);
      IndexFrom(after, key);
      assert Get(a, key) in all && Get(b, key) in all;
      KeysDecide(Get(a, key), Get(b, key));
    }
  }

  /** Where types, identities and hashes are plain, the reverse diff of any page is the diff the other way
      round. */
  lemma {:induction false} PlainDiffReversed(before: seq<Summary>, after: seq<Summary>)
    requires PlainKeys(before + after)
    ensures Reverse(Diff(before, after), Diff(after, before))
  {
    PlainIsWellKeyed(before, after);
    DiffReversed(before, after);
  }

  // ---------- entities that make up for each other ----------

  lemma DiffOfTwo(a: Summary, b: Summary, x: Summary, y: Summary)
    requires EntityKey(a) == EntityKey(x) != EntityKey(b) == EntityKey(y)
    ensures Diff([a, b], [x, y]) == Kept(a, x) + Kept(b, y)
  {
    IndexOfTwo(a, b);
    IndexOfTwo(x, y);
    var before, after, k, l := IndexOfAll([a, b]), IndexOfAll([x, y]), EntityKey(a), EntityKey(b);
    assert Keys(before) == [k] + [l] && Keys(after) == [k] + [l];
    assert BeforeOf(before, after)(k) == Kept(a, x) && BeforeOf(before, after)(l) == Kept(b, y);
    assert AfterOf(before, after)(k) == [] && AfterOf(before, after)(l) == [];
    FlatTwo(BeforeOf(before, after), k, l);
    FlatTwo(AfterOf(before, after), k, l);
  }

  lemma FlatTwo<T>(f: string -> seq<T>, k: string, l: string)
    ensures Flat(f, [k] + [l]) == f(k) + f(l)
  {
    FlatAppend(f, [k], l);
    FlatAppend(f, [], k);
    assert [] + [k] == [k];
  }

  lemma IndexOfTwo(a: Summary, b: Summary)
    requires EntityKey(a) != EntityKey(b)
    ensures IndexOfAll([a, b]) == [Field(EntityKey(a), a), Field(EntityKey(b), b)]
    ensures At(IndexOfAll([a, b]), EntityKey(a)) == Some(a) && At(IndexOfAll([a, b]), EntityKey(b)) == Some(b)
  {
    IndexOfOne(a);
    var two := [a, b];
    assert two[..|two| - 1] == [a];
    AppendedAt(IndexOfAll([a]), EntityKey(b), b, EntityKey(a));
    AppendedAt(IndexOfAll([a]), EntityKey(b), b, EntityKey(b));
  }

  /** An entity with no properties and the status of one profile. */
  function Rated(schemaType: string, identity: Option<string>, hash: string, profile: string, status: Status): Summary {
    Summary(schemaType, "json-ld", identity, hash, [], [Profile(profile, status)])
  }

  /** The change of status that an entity `b` is told of. */
  function Rerated(b: Summary, name: string, was: Status, now: Status): Change {
    Change(RichChanged, b.schemaType, b.identity, Some(name), Some(StatusJson(was)), Some(StatusJson(now)),
           if was == Eligible && now == Ineligible then High else Low)
  }

  lemma RatedKept(a: Summary, b: Summary, p: Profile, q: Profile)
    requires a.hash == b.hash && a.profiles == [p] && b.profiles == [q] && p.name == q.name && p.status != q.status
    ensures Kept(a, b) == [Rerated(b, p.name, p.status, q.status)]
  {
    OneStatus(p);
    OneStatus(q);
    assert [p][..0] == [] && Statuses([p]) == [Field(p.name, p.status)] && Keys(Statuses([p])) == [p.name];
    FlatAppend(RichOf(a, b), [], p.name);
    assert [] + [p.name] == [p.name];
  }

  lemma SwapRerated(b: Summary, name: string, was: Status, now: Status)
    ensures Swap(Rerated(b, name, was, now)) == Rerated(b, name, now, was)
  {
    StatusesDiffer();
  }

  lemma KeysApart(a: Summary, b: Summary)
    requires a.schemaType == b.schemaType && a.hash != b.hash
    requires a.identity in {None, Some("")} && b.identity in {None, Some("")}
    ensures EntityKey(a) != EntityKey(b)
  {
    var n := |a.schemaType| + 2;
    assert EntityKey(a)[n..] == a.hash && EntityKey(b)[n..] == b.hash;
  }

  /** One entity of a pair that changes identity, and the other. */
  lemma RatedPair(a: Summary, x: Summary, name: string)
    requires a.hash == x.hash && a.identity != x.identity
    requires a.profiles == [Profile(name, Eligible)] && x.profiles == [Profile(name, Ineligible)]
    ensures Kept(a, x) == [Rerated(x, name, Eligible, Ineligible)]
    ensures Kept(x, a) == [Rerated(a, name, Ineligible, Eligible)]
    ensures SwapAll(Kept(a, x)) == [Rerated(x, name, Ineligible, Eligible)]
    ensures !Reverse(Kept(a, x), Kept(x, a))
  {
    RatedKept(a, x, Profile(name, Eligible), Profile(name, Ineligible));
    RatedKept(x, a, Profile(name, Ineligible), Profile(name, Eligible));
    SwapOne(Kept(a, x));
    SwapRerated(x, name, Eligible, Ineligible);
    assert Rerated(x, name, Ineligible, Eligible) !in multiset(Kept(x, a));
  }

  lemma PairsReversed(a: Summary, b: Summary, x: Summary, y: Summary, name: string)
    requires EntityKey(a) == EntityKey(x) != EntityKey(b) == EntityKey(y)
    requires SameEntity(a, y) && SameEntity(b, x)
    requires SwapAll(Kept(a, x)) == [Rerated(x, name, Ineligible, Eligible)]
    requires SwapAll(Kept(b, y)) == [Rerated(y, name, Ineligible, Eligible)]
    requires Kept(x, a) == [Rerated(a, name, Ineligible, Eligible)]
    requires Kept(y, b) == [Rerated(b, name, Ineligible, Eligible)]
    ensures Reverse(Diff([a, b], [x, y]), Diff([x, y], [a, b]))
  {
    DiffOfTwo(a, b, x, y);
    DiffOfTwo(x, y, a, b);
    SwapAllSplit(Kept(a, x), Kept(b, y));
  }

  /** An empty identity and none change places in two entities whose statuses change alike: neither
      entity's changes reverse, and the page's do. */
  lemma CompensatingReversed(schemaType: string, hash: string, other: string, name: string)
    requires hash != other
    ensures
      var a, b := Rated(schemaType, Some(""), hash, name, Eligible), Rated(schemaType, None, other, name, Eligible);
      var x, y := Rated(schemaType, None, hash, name, Ineligible), Rated(schemaType, Some(""), other, name, Ineligible);
      && !Reverse(Kept(a, x), Kept(x, a)) && !Reverse(Kept(b, y), Kept(y, b))
      && Reverse(Diff([a, b], [x, y]), Diff([x, y], [a, b]))
  {
    var a, b := Rated(schemaType, Some(""), hash, name, Eligible), Rated(schemaType, None, other, name, Eligible);
    var x, y := Rated(schemaType, None, hash, name, Ineligible), Rated(schemaType, Some(""), other, name, Ineligible);
    RatedPair(a, x, name);
    RatedPair(b, y, name);
    KeysApart(a, b);
    PairsReversed(a, b, x, y, name);
  }

  lemma SwapOne(changes: seq<Change>)
    requires |changes| == 1
    ensures SwapAll(changes) == [Swap(changes[0])]
  {
    MapAt(Swap, changes, 0);
  }

  // ---------- recording the changes of a crawl ----------

  const BATCH := 50

  datatype Row = Row(pageId: string, summary: Summary)

  datatype Record = Record(pageId: string, kind: Kind, severity: Severity, before: Json, after: Json)

  function RowsOf(rows: seq<Row>, pageId: string): seq<Summary> {
    if rows == [] then []
    else (if rows[0].pageId == pageId then [rows[0].summary] else []) + RowsOf(rows[1..], pageId)
  }

  /** The rows of a batch of pages, as the query returns them. */
  function RowsIn(rows: seq<Row>, batch: seq<string>): seq<Row> {
    if rows == [] then []
    else (if rows[0].pageId in batch then [rows[0]] else []) + RowsIn(rows[1..], batch)
  }

  function ToRecord(pageId: string, c: Change): Record {
    var described := Obj([Field("entityType", Str(c.entityType)),
                          Field("property", if c.property.Some? then Str(c.property.value) else Null)]);
    Record(pageId, c.kind, c.severity, if c.before.Some? then c.before.value else described,
           if c.after.Some? then c.after.value else Null)
  }

  /** The records of one page: its diff over all the rows. */
  function PageRecords(previous: seq<Row>, current: seq<Row>, pageId: string): seq<Record> {
    Map(c => ToRecord(pageId, c), Diff(RowsOf(previous, pageId), RowsOf(current, pageId)))
  }

  function RecordsOf(previous: seq<Row>, current: seq<Row>): string -> seq<Record> {
    pageId => PageRecords(previous, current, pageId)
  }

  lemma {:induction false} RowsOfBatch(rows: seq<Row>, batch: seq<string>, pageId: string)
    requires pageId in batch
    ensures RowsOf(RowsIn(rows, batch), pageId) == RowsOf(rows, pageId)
  {
    if rows != [] {
      RowsOfBatch(rows[1..], batch, pageId);
      var rest := RowsIn(rows[1..], batch);
      if rows[0].pageId in batch {
        assert RowsIn(rows, batch)[1..] == rest;
      } else {
        assert [] + rest == rest;
      }
    }
  }

  lemma {:induction false} RowsOfAppend(rows: seq<Row>, row: Row, pageId: string)
    ensures RowsOf(rows + [row], pageId) ==
            RowsOf(rows, pageId) + if row.pageId == pageId then [row.summary] else []
  {
    if rows == [] {
      assert rows + [row] == [row];
    } else {
      RowsOfAppend(rows[1..], row, pageId);
      assert (rows + [row])[1..] == rows[1..] + [row];
    }
  }

  method GroupByPage(rows: seq<Row>) returns (grouped: map<string, seq<Summary>>)
    ensures forall pageId: string :: (if pageId in grouped then grouped[pageId] else []) == RowsOf(rows, pageId)
  {
    grouped := map[];
    for i := 0 to |rows|
      invariant forall pageId: string ::
        (if pageId in grouped then grouped[pageId] else []) == RowsOf(rows[..i], pageId)
    {
      assert rows[..i + 1] == rows[..i] + [rows[i]];
      forall pageId: string
        ensures RowsOf(rows[..i + 1], pageId) ==
                RowsOf(rows[..i], pageId) + if rows[i].pageId == pageId then [rows[i].summary] else []
      {
        RowsOfAppend(rows[..i], rows[i], pageId);
      }
      var list := if rows[i].pageId in grouped then grouped[rows[i].pageId] else [];
      grouped := grouped[rows[i].pageId := list + [rows[i].summary]];
    }
    assert rows[..|rows|] == rows;
  }

  method DiffPage(previous: map<string, seq<Summary>>, current: map<string, seq<Summary>>, pageId: string)
    returns (records: seq<Record>)
    ensures var before := if pageId in previous then previous[pageId] else [];
      var after := if pageId in current then current[pageId] else [];
      records == Map(c => ToRecord(pageId, c), Diff(before, after))
  {
    var before := if pageId in previous then previous[pageId] else [];
    var after := if pageId in current then current[pageId] else [];
    var changes := DiffPageSchema(before, after);
    records := Map(c => ToRecord(pageId, c), changes);
  }

  method DiffBatch(previous: seq<Row>, current: seq<Row>, batch: seq<string>) returns (records: seq<Record>)
    ensures records == Flat(RecordsOf(previous, current), batch)
  {
    var currentByPage := GroupByPage(RowsIn(current, batch));
    var previousByPage := GroupByPage(RowsIn(previous, batch));
    records := [];
    for i := 0 to |batch|
      invariant records == Flat(RecordsOf(previous, current), batch[..i])
    {
      var page := DiffPage(previousByPage, currentByPage, batch[i]);
      RowsOfBatch(current, batch, batch[i]);
      RowsOfBatch(previous, batch, batch[i]);
      FlatNext(RecordsOf(previous, current), batch, i);
      records := records + page;
    }
    assert batch[..|batch|] == batch;
  }

  /** In batches of fifty pages, what is recorded is one diff per page over all the rows. */
  method DetectSchemaChanges(previous: seq<Row>, current: seq<Row>, pageIds: seq<string>)
    returns (inserted: seq<Record>, total: nat)
    ensures inserted == Flat(RecordsOf(previous, current), pageIds) && total == |inserted|
  {
    inserted, total := [], 0;
    var i := 0;
    while i < |pageIds|
      invariant inserted == Flat(RecordsOf(previous, current), pageIds[..UpTo(i, |pageIds|)])
      invariant total == |inserted|
      decreases |pageIds| - i
    {
      var records := DiffSlice(previous, current, pageIds, i);
      if |records| > 0 {
        inserted := inserted + records;
        total := total + |records|;
      }
      i := i + BATCH;
    }
    assert pageIds[..|pageIds|] == pageIds;
  }

  function UpTo(i: nat, bound: nat): (n: nat)
    ensures n <= bound
  {
    if i < bound then i else bound
  }

  /** The records of the batch that begins at an index. */
  method DiffSlice(previous: seq<Row>, current: seq<Row>, pageIds: seq<string>, i: nat) returns (records: seq<Record>)
    requires i < |pageIds|
    ensures Flat(RecordsOf(previous, current), pageIds[..UpTo(i + BATCH, |pageIds|)]) ==
            Flat(RecordsOf(previous, current), pageIds[..i]) + records
  {
    var end := UpTo(i + BATCH, |pageIds|);
    records := DiffBatch(previous, current, pageIds[i..end]);
    FlatSlice(RecordsOf(previous, current), pageIds, i, end);
  }
}
