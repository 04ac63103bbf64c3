/** Normalising JSON-LD nodes into entities, with a shared counter for blank-node ids, and the
    canonical value whose hash identifies an entity's content. */
module EntityHash {
  import opened Sequences
  import opened Wrappers
  import opened Text
  import opened JsonCanon

  const TYPE := "@type"
  const ID := "@id"
  const VALUE := "@value"

  datatype SchemaValue = Scalar(json: Json) | List(items: seq<SchemaValue>) | Ref(id: Json) | Nested(entity: Entity)

  /** The canonical value stands for its SHA-256 digest. */
  datatype Entity = Entity(id: string, types: seq<string>, properties: seq<Field<SchemaValue>>,
                           identity: Option<string>, canonical: Json)

  // ---------- names ----------

  predicate StartsWithAnyCase(s: string, prefix: string) {
    StartsAt(Lower(s), 0, prefix)
  }

  function WithoutSite(t: string): string {
    if StartsWithAnyCase(t, "http://schema.org/") then t[18..]
    else if StartsWithAnyCase(t, "https://schema.org/") then t[19..]
    else t
  }

  function WithoutScheme(t: string): string {
    if StartsWithAnyCase(t, "schema:") then t[7..] else t
  }

  /** The short name of a full or prefixed IRI. */
  function ShortType(name: string): string {
    var t := WithoutScheme(WithoutSite(Trim(name)));
    var u := t[AfterLast(t, '/')..];
    u[AfterLast(u, '#')..]
  }

  predicate AtKey(key: string) {
    key != "" && key[0] == '@'
  }

  /** How names are shortened; nothing below depends on how. */
  type Short = string -> string

  function StringsOf(short: Short, items: seq<Json>): seq<string>
    decreases items
  {
    if items == [] then []
    else (if items[0].Str? then [short(items[0].s)] else []) + StringsOf(short, items[1..])
  }

  function TypesOf(short: Short, fields: seq<Field<Json>>): seq<string> {
    if !HasKey(fields, TYPE) then []
    else
      match Get(fields, TYPE)
      case Str(s) => [short(s)]
      case Arr(items) => StringsOf(short, items)
      case _ => []
  }

  function IdOf(fields: seq<Field<Json>>): Option<string> {
    if HasKey(fields, ID) && Get(fields, ID).Str? then Some(Get(fields, ID).s) else None
  }

  /** Nothing but an `@id`. */
  predicate IsReference(fields: seq<Field<Json>>) {
    HasKey(fields, ID) && forall f <- fields :: f.key == ID
  }

  // ---------- the canonical value ----------

  function TextItems(texts: seq<string>): Json {
    Arr(seq(|texts|, i requires 0 <= i < |texts| => Str(texts[i])))
  }

  /** A value without ids and sources. */
  function Clean(v: SchemaValue): Json
    decreases v, 1
  {
    match v
    case Scalar(json) => json
    case List(items) => Arr(seq(|items|, i requires 0 <= i < |items| => Clean(items[i])))
    case Ref(id) => Obj([Field("ref", id)])
    case Nested(e) => CleanEntity(e.types, e.properties)
  }

  function CleanEntity(types: seq<string>, properties: seq<Field<SchemaValue>>): Json
    decreases properties, 1
  {
    Obj([Field("types", TextItems(Sort(types))), Field("properties", CleanProps(properties))])
  }

  function CleanProps(properties: seq<Field<SchemaValue>>): Json
    decreases properties, 0
  {
    Obj(seq(|properties|, i requires 0 <= i < |properties| => Field(properties[i].key, Clean(properties[i].value))))
  }

  // ---------- building entities ----------

  function FirstString(v: SchemaValue): Option<string>
    decreases v, 1
  {
    match v
    case Scalar(Str(s)) => Some(s)
    case List(items) => FirstOf(items)
    case _ => None
  }

  /** The first text that is not empty. */
  function FirstOf(items: seq<SchemaValue>): Option<string>
    decreases items, 0
  {
    if items == [] then None
    else
      var s := FirstString(items[0]);
      if s.Some? && s.value != "" then s else FirstOf(items[1..])
  }

  function Named(properties: seq<Field<SchemaValue>>, key: string): Option<string> {
    if HasKey(properties, key) then FirstString(Get(properties, key)) else None
  }

  function OrElse(a: Option<string>, b: Option<string>): Option<string> {
    if a.Some? then a else b
  }

  /** The entity, when it has a type or a property, and the counter after it. */
  function BuildEntity(types: seq<string>, properties: seq<Field<SchemaValue>>, idRaw: Option<string>, n: nat)
    : (Option<Entity>, nat)
  {
    if types == [] && properties == [] then (None, n)
    else
      var identity := OrElse(idRaw, OrElse(Named(properties, "url"), Named(properties, "name")));
      var id := if idRaw.Some? then idRaw.value else "_:b" + Print(n, 10);
      (Some(Entity(id, types, properties, identity, SortValue(CleanEntity(types, properties)))),
       if idRaw.Some? then n else n + 1)
  }

  // ---------- normalising, with the counter threaded through ----------

  function NormalizeValue(short: Short, v: Json, n: nat): (Option<SchemaValue>, nat)
    decreases v, 2, 0
  {
    match v
    case Null => (None, n)
    case Arr(items) =>
      var (out, m) := ItemsUpTo(short, v, |items|, n);
      (Some(if |out| == 1 then out[0] else List(out)), m)
    case Obj(fields) =>
      if HasKey(fields, VALUE) then (Some(Scalar(Get(fields, VALUE))), n)
      else if IsReference(fields) then (Some(Ref(Get(fields, ID))), n)
      else
        var (e, m) := NormalizeEntity(short, v, n);
        (if e.Some? then Some(Nested(e.value)) else None, m)
    case _ => (Some(Scalar(v)), n)
  }

  /** The values of the first `k` items. */
  function ItemsUpTo(short: Short, v: Json, k: nat, n: nat): (seq<SchemaValue>, nat)
    requires v.Arr? && k <= |v.items|
    decreases v, 0, k
  {
    if k == 0 then ([], n)
    else
      var (out, m) := ItemsUpTo(short, v, k - 1, n);
      var (x, p) := NormalizeValue(short, v.items[k - 1], m);
      (if x.Some? then out + [x.value] else out, p)
  }

  /** The properties given by the first `k` fields. */
  function PropsUpTo(short: Short, node: Json, k: nat, n: nat): (seq<Field<SchemaValue>>, nat)
    requires node.Obj? && k <= |node.fields|
    decreases node, 0, k
  {
    if k == 0 then ([], n)
    else
      var (properties, m) := PropsUpTo(short, node, k - 1, n);
      var f := node.fields[k - 1];
      if AtKey(f.key) then (properties, m)
      else
        var (x, p) := NormalizeValue(short, f.value, m);
        (if x.Some? then Put(properties, short(f.key), x.value) else properties, p)
  }

  function NormalizeEntity(short: Short, node: Json, n: nat): (Option<Entity>, nat)
    requires node.Obj?
    decreases node, 1, 0
  {
    var (properties, m) := PropsUpTo(short, node, |node.fields|, n);
    BuildEntity(TypesOf(short, node.fields), properties, IdOf(node.fields), m)
  }

  class Counter {
    var n: nat

    constructor (n: nat)
      ensures this.n == n
    {
      this.n := n;
    }
  }

  method NormalizeJsonLdValue(v: Json, counter: Counter) returns (r: Option<SchemaValue>)
    modifies counter
    ensures (r, counter.n) == NormalizeValue(ShortType, v, old(counter.n))
    decreases v, 1
  {
    match v
    case Null => return None;
    case Arr(items) =>
      var out: seq<SchemaValue> := [];
      for i := 0 to |items|
        invariant (out, counter.n) == ItemsUpTo(ShortType, v, i, old(counter.n))
      {
        var x := NormalizeJsonLdValue(items[i], counter);
        if x.Some? {
          out := out + [x.value];
        }
      }
      return Some(if |out| == 1 then out[0] else List(out));
    case Obj(fields) =>
      if HasKey(fields, VALUE) {
        return Some(Scalar(Get(fields, VALUE)));
      }
      if IsReference(fields) {
        return Some(Ref(Get(fields, ID)));
      }
      var nested := NormalizeJsonLdEntity(v, counter);
      return if nested.Some? then Some(Nested(nested.value)) else None;
    case _ => return Some(Scalar(v));
  }

  method NormalizeJsonLdEntity(node: Json, counter: Counter) returns (entity: Option<Entity>)
    requires node.Obj?
    modifies counter
    ensures (entity, counter.n) == NormalizeEntity(ShortType, node, old(counter.n))
    decreases node, 0
  {
    var types := TypesOf(ShortType, node.fields);
    var properties: seq<Field<SchemaValue>> := [];
    for i := 0 to |node.fields|
      invariant (properties, counter.n) == PropsUpTo(ShortType, node, i, old(counter.n))
    {
      var f := node.fields[i];
      if !AtKey(f.key) {
        var x := NormalizeJsonLdValue(f.value, counter);
        if x.Some? {
          properties := Put(properties, ShortType(f.key), x.value);
        }
      }
    }
    entity := MakeEntity(types, properties, IdOf(node.fields), counter);
  }

  method MakeEntity(types: seq<string>, properties: seq<Field<SchemaValue>>, idRaw: Option<string>, counter: Counter)
    returns (entity: Option<Entity>)
    modifies counter
    ensures (entity, counter.n) == BuildEntity(types, properties, idRaw, old(counter.n))
  {
    if |types| == 0 && |properties| == 0 {
      return None;
    }
    var identity := OrElse(idRaw, OrElse(Named(properties, "url"), Named(properties, "name")));
    var id;
    if idRaw.Some? {
      id := idRaw.value;
    } else {
      id := "_:b" + Print(counter.n, 10);
      counter.n := counter.n + 1;
    }
    return Some(Entity(id, types, properties, identity, SortValue(CleanEntity(types, properties))));
  }

  // ---------- the hash is a content hash ----------

  predicate IsScalar(j: Json) {
    !j.Arr? && !j.Obj?
  }

  /** No property is repeated, and literals are scalars. */
  predicate Proper(v: SchemaValue) {
    match v
    case Scalar(json) => IsScalar(json)
    case List(items) => forall x <- items :: Proper(x)
    case Ref(id) => WellFormed(id)
    case Nested(e) => Distinct(Keys(e.properties)) && forall f <- e.properties :: Proper(f.value)
  }

  /** The same content: ids, counters and the order of types and properties do not matter. */
  predicate SameValue(v: SchemaValue, w: SchemaValue)
    decreases v, 1
  {
    if v.List? && w.List? then
      |v.items| == |w.items| && forall i :: 0 <= i < |v.items| ==> SameValue(v.items[i], w.items[i])
    else if v.Ref? && w.Ref? then SameJson(v.id, w.id)
    else if v.Nested? && w.Nested? then
      multiset(v.entity.types) == multiset(w.entity.types) && SameProps(v.entity.properties, w.entity.properties)
    else v == w
  }

  predicate SameProps(a: seq<Field<SchemaValue>>, b: seq<Field<SchemaValue>>)
    decreases a, 0
  {
    SameKeys(a, b) &&
    forall i :: 0 <= i < |a| ==> HasKey(b, a[i].key) && SameValue(a[i].value, Get(b, a[i].key))
  }

  lemma {:induction false} CleanPropsKeys(p: seq<Field<SchemaValue>>)
    ensures Keys(CleanProps(p).fields) == Keys(p)
    ensures forall k: string :: HasKey(CleanProps(p).fields, k) <==> HasKey(p, k)
  {
    var c := CleanProps(p).fields;
    forall k: string
      ensures HasKey(c, k) <==> HasKey(p, k)
    {
      if HasKey(c, k) {
        var i := IndexOf(c, k);
        assert p[i] in p;
      }
      if HasKey(p, k) {
        var i := IndexOf(p, k);
        assert c[i] in c;
      }
    }
  }

  lemma {:induction false} CleanGet(p: seq<Field<SchemaValue>>, k: string)
    requires HasKey(p, k)
    ensures HasKey(CleanProps(p).fields, k) && Get(CleanProps(p).fields, k) == Clean(Get(p, k))
  {
    CleanPropsKeys(p);
    var c := CleanProps(p).fields;
    var i, j := IndexOf(p, k), IndexOf(c, k);
  }

  lemma TextItemsWellFormed(texts: seq<string>)
    ensures WellFormed(TextItems(texts))
  {
  }

  lemma {:induction false} CleanWellFormed(v: SchemaValue)
    requires Proper(v)
    ensures WellFormed(Clean(v))
    decreases v
  {
    match v
    case Scalar(json) =>
    case List(items) =>
      forall x <- Clean(v).items
        ensures WellFormed(x)
      {
        var i :| 0 <= i < |items| && Clean(v).items[i] == x;
        assert items[i] in items;
        CleanWellFormed(items[i]);
      }
    case Ref(id) =>
      assert Keys(Clean(v).fields) == ["ref"];
    case Nested(e) =>
      forall f <- e.properties
        ensures WellFormed(Clean(f.value))
      {
        CleanWellFormed(f.value);
      }
      EntityWellFormed(e.types, e.properties);
  }

  lemma {:induction false} EntityWellFormed(types: seq<string>, p: seq<Field<SchemaValue>>)
    requires Distinct(Keys(p)) && forall f <- p :: WellFormed(Clean(f.value))
    ensures WellFormed(CleanEntity(types, p))
  {
    CleanPropsKeys(p);
    forall f <- CleanProps(p).fields
      ensures WellFormed(f.value)
    {
      var i :| 0 <= i < |p| && CleanProps(p).fields[i] == f;
      assert p[i] in p;
    }
    TextItemsWellFormed(Sort(types));
    assert Keys(CleanEntity(types, p).fields) == ["types", "properties"];
  }

  lemma SameTexts(a: seq<string>, b: seq<string>)
    ensures SameJson(TextItems(a), TextItems(b)) <==> a == b
  {
    if SameJson(TextItems(a), TextItems(b)) {
      forall i | 0 <= i < |a|
        ensures a[i] == b[i]
      {
        assert SameJson(TextItems(a).items[i], TextItems(b).items[i]);
      }
    }
  }

  lemma {:induction false} SameCleanProps(a: seq<Field<SchemaValue>>, b: seq<Field<SchemaValue>>)
    requires forall i :: 0 <= i < |a| && HasKey(b, a[i].key) ==>
      (SameJson(Clean(a[i].value), Clean(Get(b, a[i].key))) <==> SameValue(a[i].value, Get(b, a[i].key)))
    ensures SameJson(CleanProps(a), CleanProps(b)) <==> SameProps(a, b)
  {
    CleanPropsKeys(a);
    CleanPropsKeys(b);
    var x, y := CleanProps(a).fields, CleanProps(b).fields;
    assert SameKeys(x, y) <==> SameKeys(a, b) by {
      SameKeysIff(x, y);
      SameKeysIff(a, b);
    }
    forall i | 0 <= i < |a| && HasKey(b, a[i].key)
      ensures x[i].key == a[i].key && x[i].value == Clean(a[i].value)
      ensures HasKey(y, x[i].key) && Get(y, x[i].key) == Clean(Get(b, a[i].key))
    {
      CleanGet(b, a[i].key);
    }
  }

  lemma SameKeysIff<V>(a: seq<Field<V>>, b: seq<Field<V>>)
    ensures SameKeys(a, b) <==> forall k: string :: HasKey(a, k) <==> HasKey(b, k)
  {
    if forall k: string :: HasKey(a, k) <==> HasKey(b, k) {
      forall f <- a
        ensures HasKey(b, f.key)
      {
        assert HasKey(a, f.key);
      }
      forall f <- b
        ensures HasKey(a, f.key)
      {
        assert HasKey(b, f.key);
      }
    }
  }

  lemma TwoKeys(key: string, other: string, x: Json, y: Json)
    requires key != other
    ensures var q := [Field(key, x), Field(other, y)];
      HasKey(q, key) && HasKey(q, other) && Get(q, key) == x && Get(q, other) == y
  {
    var q := [Field(key, x), Field(other, y)];
    assert q[0] in q && q[1] in q;
  }

  lemma {:induction false} TwoFields(key: string, other: string, a: Json, b: Json, x: Json, y: Json)
    requires key != other
    ensures SameJson(Obj([Field(key, a), Field(other, b)]), Obj([Field(key, x), Field(other, y)])) <==>
            SameJson(a, x) && SameJson(b, y)
  {
    var p, q := [Field(key, a), Field(other, b)], [Field(key, x), Field(other, y)];
    TwoKeys(key, other, a, b);
    TwoKeys(key, other, x, y);
    assert SameKeys(p, q);
    assert p[0] == Field(key, a) && p[1] == Field(other, b);
    if SameJson(Obj(p), Obj(q)) {
      assert SameJson(p[0].value, Get(q, p[0].key)) && SameJson(p[1].value, Get(q, p[1].key));
    }
  }

  lemma {:induction false} SameEntityJson(t: seq<string>, p: seq<Field<SchemaValue>>, u: seq<string>,
                                          q: seq<Field<SchemaValue>>)
    requires SameJson(CleanProps(p), CleanProps(q)) <==> SameProps(p, q)
    ensures SameJson(CleanEntity(t, p), CleanEntity(u, q)) <==> multiset(t) == multiset(u) && SameProps(p, q)
  {
    SortForgetsOrder(t, u);
    SameTexts(Sort(t), Sort(u));
    assert |"types"| != |"properties"|;
    TwoFields("types", "properties", TextItems(Sort(t)), CleanProps(p), TextItems(Sort(u)), CleanProps(q));
  }

  /** Cleaned values are equal up to key order exactly when the values have the same content. */
  lemma {:induction false} CleanDecides(v: SchemaValue, w: SchemaValue)
    requires Proper(v) && Proper(w)
    ensures SameJson(Clean(v), Clean(w)) <==> SameValue(v, w)
    decreases v
  {
    if v.List? && w.List? {
      if |v.items| == |w.items| {
        forall i | 0 <= i < |v.items|
          ensures SameJson(Clean(v.items[i]), Clean(w.items[i])) <==> SameValue(v.items[i], w.items[i])
        {
          assert v.items[i] in v.items && w.items[i] in w.items;
          CleanDecides(v.items[i], w.items[i]);
        }
        SameCleanItems(v.items, w.items);
      }
    } else if v.Nested? && w.Nested? {
      var p, q := v.entity.properties, w.entity.properties;
      forall i | 0 <= i < |p| && HasKey(q, p[i].key)
        ensures SameJson(Clean(p[i].value), Clean(Get(q, p[i].key))) <==> SameValue(p[i].value, Get(q, p[i].key))
      {
        var j := IndexOf(q, p[i].key);
        assert p[i] in p && q[j] in q;
        CleanDecides(p[i].value, q[j].value);
      }
      SameCleanProps(p, q);
      SameEntityJson(v.entity.types, p, w.entity.types, q);
    } else if v.Ref? && w.Ref? {
      SameRefs(v.id, w.id);
    } else if v.Ref? && w.Nested? {
      RefIsNoEntity(v.id, w.entity.types, w.entity.properties);
    } else if v.Nested? && w.Ref? {
      RefIsNoEntity(w.id, v.entity.types, v.entity.properties);
    }
  }

  lemma SameCleanItems(a: seq<SchemaValue>, b: seq<SchemaValue>)
    requires |a| == |b|
    requires forall i :: 0 <= i < |a| ==> (SameJson(Clean(a[i]), Clean(b[i])) <==> SameValue(a[i], b[i]))
    ensures SameJson(Clean(List(a)), Clean(List(b))) <==> SameValue(List(a), List(b))
  {
    var x, y := Clean(List(a)).items, Clean(List(b)).items;
    assert forall i :: 0 <= i < |a| ==> x[i] == Clean(a[i]) && y[i] == Clean(b[i]);
    if SameJson(Arr(x), Arr(y)) {
      forall i | 0 <= i < |a|
        ensures SameValue(a[i], b[i])
      {
        assert SameJson(x[i], y[i]);
      }
    }
  }

  lemma {:induction false} SameRefs(a: Json, b: Json)
    ensures SameJson(Clean(Ref(a)), Clean(Ref(b))) <==> SameJson(a, b)
  {
    var x, y := Clean(Ref(a)).fields, Clean(Ref(b)).fields;
    assert x[0] in x && y[0] in y && IndexOf(y, "ref") == 0;
    if SameJson(Obj(x), Obj(y)) {
      assert SameJson(x[0].value, Get(y, x[0].key));
    }
  }

  lemma {:induction false} RefIsNoEntity(id: Json, types: seq<string>, p: seq<Field<SchemaValue>>)
    ensures !SameJson(Clean(Ref(id)), CleanEntity(types, p)) && !SameJson(CleanEntity(types, p), Clean(Ref(id)))
  {
    var x, y := Clean(Ref(id)).fields, CleanEntity(types, p).fields;
    assert x[0] in x && !HasKey(y, "ref");
  }

  /** The hashed value is equal exactly for entities with the same types, in any order, and the same
      properties, in any order, at every level; ids never matter. */
  lemma {:induction false} ContentHash(t: seq<string>, p: seq<Field<SchemaValue>>, u: seq<string>,
                                       q: seq<Field<SchemaValue>>)
    requires Distinct(Keys(p)) && forall f <- p :: Proper(f.value)
    requires Distinct(Keys(q)) && forall f <- q :: Proper(f.value)
    ensures SortValue(CleanEntity(t, p)) == SortValue(CleanEntity(u, q)) <==>
      multiset(t) == multiset(u) && SameProps(p, q)
  {
    var e, f := Entity("", t, p, None, Null), Entity("", u, q, None, Null);
    assert Proper(Nested(e)) && Proper(Nested(f));
    CleanWellFormed(Nested(e));
    CleanWellFormed(Nested(f));
    SortDecides(CleanEntity(t, p), CleanEntity(u, q));
    CleanDecides(Nested(e), Nested(f));
  }

  // ---------- what a JSON-LD node says ----------

  predicate PlainAt(fields: seq<Field<Json>>, i: nat) {
    i < |fields| && !AtKey(fields[i].key)
  }

  function ShortAt(short: Short, fields: seq<Field<Json>>, i: nat): string
    requires i < |fields|
  {
    short(fields[i].key)
  }

  predicate NamedAt(short: Short, fields: seq<Field<Json>>, i: nat, name: string) {
    PlainAt(fields, i) && ShortAt(short, fields, i) == name
  }

  predicate HasShort(short: Short, fields: seq<Field<Json>>, name: string) {
    exists i :: 0 <= i < |fields| && NamedAt(short, fields, i, name)
  }

  function ShortIndex(short: Short, fields: seq<Field<Json>>, name: string): (i: nat)
    requires HasShort(short, fields, name)
    ensures NamedAt(short, fields, i, name)
  {
    ShortFrom(short, fields, name, 0)
  }

  function ShortFrom(short: Short, fields: seq<Field<Json>>, name: string, from: nat): (i: nat)
    requires exists k :: from <= k < |fields| && NamedAt(short, fields, k, name)
    ensures NamedAt(short, fields, i, name)
    decreases |fields| - from
  {
    if NamedAt(short, fields, from, name) then from else ShortFrom(short, fields, name, from + 1)
  }

  /** No two property names of a node shorten to the same name. */
  ghost predicate NoCollisions(short: Short, fields: seq<Field<Json>>) {
    forall i, k ::
      PlainAt(fields, i) && PlainAt(fields, k) && ShortAt(short, fields, i) == ShortAt(short, fields, k) ==> i == k
  }

  /** At every level: no collisions, and `@value` is a scalar. */
  ghost predicate Regular(short: Short, j: Json)
    decreases j, 1
  {
    match j
    case Arr(items) => forall x <- items :: Regular(short, x)
    case Obj(fields) =>
      if HasKey(fields, VALUE) then IsScalar(Get(fields, VALUE))
      else if IsReference(fields) then WellFormed(Get(fields, ID))
      else RegularNode(short, j)
    case _ => true
  }

  ghost predicate RegularNode(short: Short, node: Json)
    requires node.Obj?
    decreases node, 0
  {
    NoCollisions(short, node.fields) &&
    forall i :: 0 <= i < |node.fields| && PlainAt(node.fields, i) ==> Regular(short, node.fields[i].value)
  }

  /** The same content up to the order of keys and types, the spelling of property names, and the
      `@id` and other `@` keys of nodes. */
  predicate SameContent(short: Short, a: Json, b: Json)
    decreases a, 1
  {
    if a.Arr? && b.Arr? then
      |a.items| == |b.items| && forall i :: 0 <= i < |a.items| ==> SameContent(short, a.items[i], b.items[i])
    else if a.Obj? && b.Obj? then
      if HasKey(a.fields, VALUE) || HasKey(b.fields, VALUE) then
        HasKey(a.fields, VALUE) && HasKey(b.fields, VALUE) && Get(a.fields, VALUE) == Get(b.fields, VALUE)
      else if IsReference(a.fields) || IsReference(b.fields) then
        IsReference(a.fields) && IsReference(b.fields) && SameJson(Get(a.fields, ID), Get(b.fields, ID))
      else SameNode(short, a, b)
    else a == b
  }

  predicate SameNode(short: Short, a: Json, b: Json)
    requires a.Obj? && b.Obj?
    decreases a, 0
  {
    && multiset(TypesOf(short, a.fields)) == multiset(TypesOf(short, b.fields))
    && (forall i :: 0 <= i < |a.fields| && PlainAt(a.fields, i) ==>
          && HasShort(short, b.fields, ShortAt(short, a.fields, i))
          && SameContent(short, a.fields[i].value,
               b.fields[ShortIndex(short, b.fields, ShortAt(short, a.fields, i))].value))
    && (forall i :: 0 <= i < |b.fields| && PlainAt(b.fields, i) ==>
         HasShort(short, a.fields, ShortAt(short, b.fields, i)))
  }

  // ---------- properties of normalised nodes ----------

  lemma {:induction false} PutProper(p: seq<Field<SchemaValue>>, key: string, v: SchemaValue)
    requires ProperProps(p) && Proper(v)
    ensures ProperProps(Put(p, key, v))
  {
    PutDistinct(p, key, v);
    forall f <- Put(p, key, v)
      ensures Proper(f.value)
    {
      assert f == Field(key, v) || f in p;
    }
  }

  ghost predicate ProperProps(p: seq<Field<SchemaValue>>) {
    Distinct(Keys(p)) && forall f <- p :: Proper(f.value)
  }

  lemma {:induction false} ValueProper(short: Short, v: Json, n: nat)
    requires Regular(short, v)
    ensures NormalizeValue(short, v, n).0.Some? ==> Proper(NormalizeValue(short, v, n).0.value)
    decreases v, 2, 0
  {
    match v
    case Arr(items) =>
      ItemsProper(short, v, |items|, n);
      var out := ItemsUpTo(short, v, |items|, n).0;
      assert |out| == 1 ==> out[0] in out;
    case Obj(fields) =>
      if !HasKey(fields, VALUE) && !IsReference(fields) {
        PropsProper(short, v, |fields|, n);
      }
    case _ =>
  }

  lemma {:induction false} ItemsProper(short: Short, v: Json, k: nat, n: nat)
    requires v.Arr? && k <= |v.items| && Regular(short, v)
    ensures forall x <- ItemsUpTo(short, v, k, n).0 :: Proper(x)
    decreases v, 0, k
  {
    if k > 0 {
      ItemsProper(short, v, k - 1, n);
      assert v.items[k - 1] in v.items;
      ValueProper(short, v.items[k - 1], ItemsUpTo(short, v, k - 1, n).1);
    }
  }

  lemma {:induction false} PropsProper(short: Short, node: Json, k: nat, n: nat)
    requires node.Obj? && k <= |node.fields| && RegularNode(short, node)
    ensures ProperProps(PropsUpTo(short, node, k, n).0)
    decreases node, 0, k
  {
    if k > 0 {
      PropsProper(short, node, k - 1, n);
      if PlainAt(node.fields, k - 1) {
        var (p, m) := PropsUpTo(short, node, k - 1, n);
        var x := NormalizeValue(short, node.fields[k - 1].value, m).0;
        ValueProper(short, node.fields[k - 1].value, m);
        if x.Some? {
          PutProper(p, ShortAt(short, node.fields, k - 1), x.value);
        }
      }
    }
  }

  /** What the field at `i` gives at its turn: nothing, for an `@` key or an empty value. */
  function GivenAt(short: Short, node: Json, i: nat, n: nat): Option<SchemaValue>
    requires node.Obj? && i < |node.fields|
  {
    if PlainAt(node.fields, i) then NormalizeValue(short, node.fields[i].value, PropsUpTo(short, node, i, n).1).0
      else None
  }

  /** Successive property lists, each adding what a name was given. */
  ghost predicate Built(ps: seq<seq<Field<SchemaValue>>>, names: seq<string>, xs: seq<Option<SchemaValue>>) {
    && |names| == |xs| && |ps| == |xs| + 1 && ps[0] == []
    && forall j :: 0 <= j < |xs| ==>
      ps[j + 1] == if xs[j].Some? then Put(ps[j], names[j], xs[j].value) else ps[j]
  }

  /** No two given names are equal. */
  ghost predicate Apart(names: seq<string>, xs: seq<Option<SchemaValue>>) {
    |names| == |xs| &&
    forall i, j :: 0 <= i < |xs| && 0 <= j < |xs| && xs[i].Some? && xs[j].Some? && names[i] == names[j] ==> i == j
  }

  lemma {:induction false} BuiltGiven(ps: seq<seq<Field<SchemaValue>>>, names: seq<string>,
                                      xs: seq<Option<SchemaValue>>, k: nat, i: nat)
    requires Built(ps, names, xs) && Apart(names, xs) && i < k <= |xs| && xs[i].Some?
    ensures HasKey(ps[k], names[i]) && Get(ps[k], names[i]) == xs[i].value
  {
    if i == k - 1 {
      PutHas(ps[i], names[i], xs[i].value, names[i]);
    } else {
      BuiltGiven(ps, names, xs, k - 1, i);
      if xs[k - 1].Some? {
        assert names[k - 1] != names[i];
        PutHas(ps[k - 1], names[k - 1], xs[k - 1].value, names[i]);
      }
    }
  }

  lemma {:induction false} BuiltOnly(ps: seq<seq<Field<SchemaValue>>>, names: seq<string>, xs: seq<Option<SchemaValue>>,
                                     k: nat, name: string)
    requires Built(ps, names, xs) && k <= |xs| && HasKey(ps[k], name)
    ensures exists i :: 0 <= i < k && xs[i].Some? && names[i] == name
  {
    if k > 0 {
      if xs[k - 1].Some? {
        PutHas(ps[k - 1], names[k - 1], xs[k - 1].value, name);
      }
      if HasKey(ps[k - 1], name) {
        BuiltOnly(ps, names, xs, k - 1, name);
      }
    }
  }

  /** A value given for the same name, with the same content. */
  ghost predicate Matched(name: string, x: SchemaValue, others: seq<string>, ys: seq<Option<SchemaValue>>)
    requires |others| == |ys|
  {
    exists j :: 0 <= j < |ys| && ys[j].Some? && others[j] == name && SameValue(x, ys[j].value)
  }

  lemma BuiltSame(ps: seq<seq<Field<SchemaValue>>>, names: seq<string>, xs: seq<Option<SchemaValue>>,
                  qs: seq<seq<Field<SchemaValue>>>, others: seq<string>, ys: seq<Option<SchemaValue>>)
    requires Built(ps, names, xs) && Apart(names, xs) && Built(qs, others, ys) && Apart(others, ys)
    requires forall i :: 0 <= i < |xs| && xs[i].Some? ==> Matched(names[i], xs[i].value, others, ys)
    requires forall j :: 0 <= j < |ys| && ys[j].Some? ==>
      exists i :: 0 <= i < |xs| && xs[i].Some? && names[i] == others[j]
    ensures SameProps(ps[|xs|], qs[|ys|])
  {
    var p, q := ps[|xs|], qs[|ys|];
    forall name: string | HasKey(p, name)
      ensures HasKey(q, name) && SameValue(Get(p, name), Get(q, name))
    {
      BuiltOnly(ps, names, xs, |xs|, name);
      var i :| 0 <= i < |xs| && xs[i].Some? && names[i] == name;
      assert Matched(names[i], xs[i].value, others, ys);
      var j :| 0 <= j < |ys| && ys[j].Some? && others[j] == name && SameValue(xs[i].value, ys[j].value);
      BuiltGiven(ps, names, xs, |xs|, i);
      BuiltGiven(qs, others, ys, |ys|, j);
    }
    forall name: string | HasKey(q, name)
      ensures HasKey(p, name)
    {
      BuiltOnly(qs, others, ys, |ys|, name);
      var j :| 0 <= j < |ys| && ys[j].Some? && others[j] == name;
      var i :| 0 <= i < |xs| && xs[i].Some? && names[i] == others[j];
      BuiltGiven(ps, names, xs, |xs|, i);
    }
    SamePropsByName(p, q, names, xs, ps);
  }

  lemma {:induction false} SamePropsByName(p: seq<Field<SchemaValue>>, q: seq<Field<SchemaValue>>, names: seq<string>,
                                           xs: seq<Option<SchemaValue>>, ps: seq<seq<Field<SchemaValue>>>)
    requires Built(ps, names, xs) && p == ps[|xs|]
    requires forall name: string :: HasKey(p, name) ==> HasKey(q, name) && SameValue(Get(p, name), Get(q, name))
    requires forall name: string :: HasKey(q, name) ==> HasKey(p, name)
    ensures SameProps(p, q)
  {
    BuiltDistinct(ps, names, xs, |xs|);
    forall i | 0 <= i < |p|
      ensures HasKey(p, p[i].key) && Get(p, p[i].key) == p[i].value
    {
      GetOf(p, i);
    }
  }

  lemma {:induction false} BuiltDistinct(ps: seq<seq<Field<SchemaValue>>>, names: seq<string>,
                                         xs: seq<Option<SchemaValue>>, k: nat)
    requires Built(ps, names, xs) && k <= |xs|
    ensures Distinct(Keys(ps[k]))
  {
    if k > 0 {
      BuiltDistinct(ps, names, xs, k - 1);
      if xs[k - 1].Some? {
        PutDistinct(ps[k - 1], names[k - 1], xs[k - 1].value);
      }
    }
  }

  // ---------- the theorem ----------

  function States(short: Short, node: Json, n: nat): seq<seq<Field<SchemaValue>>>
    requires node.Obj?
  {
    seq(|node.fields| + 1, k requires 0 <= k <= |node.fields| => PropsUpTo(short, node, k, n).0)
  }

  function ShortNames(short: Short, fields: seq<Field<Json>>): seq<string> {
    seq(|fields|, i requires 0 <= i < |fields| => ShortAt(short, fields, i))
  }

  function AllGiven(short: Short, node: Json, n: nat): seq<Option<SchemaValue>>
    requires node.Obj?
  {
    seq(|node.fields|, i requires 0 <= i < |node.fields| => GivenAt(short, node, i, n))
  }

  lemma NodeBuilt(short: Short, node: Json, n: nat)
    requires node.Obj?
    ensures Built(States(short, node, n), ShortNames(short, node.fields), AllGiven(short, node, n))
  {
    forall j | 0 <= j < |node.fields|
      ensures PropsUpTo(short, node, j + 1, n).0 ==
              if GivenAt(short, node, j, n).Some? then
                Put(PropsUpTo(short, node, j, n).0, ShortAt(short, node.fields, j), GivenAt(short, node, j, n).value)
              else PropsUpTo(short, node, j, n).0
    {
    }
  }

  lemma NodeApart(short: Short, node: Json, n: nat)
    requires node.Obj? && NoCollisions(short, node.fields)
    ensures Apart(ShortNames(short, node.fields), AllGiven(short, node, n))
  {
    forall i, j | 0 <= i < |node.fields| && 0 <= j < |node.fields| && GivenAt(short, node, i, n).Some? &&
      GivenAt(short, node, j, n).Some?
                  && ShortAt(short, node.fields, i) == ShortAt(short, node.fields, j)
      ensures i == j
    {
      assert PlainAt(node.fields, i) && PlainAt(node.fields, j);
    }
  }

  /** Both missing, or both there with the same content. */
  predicate SameResult(x: Option<SchemaValue>, y: Option<SchemaValue>) {
    x.Some? == y.Some? && (x.Some? ==> SameValue(x.value, y.value))
  }

  ghost predicate SameEntity(x: Option<Entity>, y: Option<Entity>) {
    x.Some? == y.Some? &&
    (x.Some? ==>
       && multiset(x.value.types) == multiset(y.value.types)
       && SameProps(x.value.properties, y.value.properties)
       && x.value.canonical == y.value.canonical)
  }

  lemma {:induction false} ValueSame(short: Short, a: Json, b: Json, n: nat, m: nat)
    requires Regular(short, a) && Regular(short, b) && SameContent(short, a, b)
    ensures SameResult(NormalizeValue(short, a, n).0, NormalizeValue(short, b, m).0)
    decreases a, 3, 0
  {
    if a.Arr? {
      ItemsSame(short, a, b, |a.items|, n, m);
    } else if a.Obj? && !HasKey(a.fields, VALUE) && !IsReference(a.fields) {
      NodeSame(short, a, b, n, m);
    }
  }

  lemma {:induction false} ItemsSame(short: Short, a: Json, b: Json, k: nat, n: nat, m: nat)
    requires a.Arr? && b.Arr? && Regular(short, a) && Regular(short, b) && SameContent(short, a, b) && k <= |a.items|
    ensures var x, y := ItemsUpTo(short, a, k, n).0, ItemsUpTo(short, b, k, m).0;
      |x| == |y| && forall i :: 0 <= i < |x| ==> SameValue(x[i], y[i])
    decreases a, 0, k
  {
    if k > 0 {
      ItemsSame(short, a, b, k - 1, n, m);
      assert a.items[k - 1] in a.items && b.items[k - 1] in b.items;
      ValueSame(short, a.items[k - 1], b.items[k - 1], ItemsUpTo(short, a, k - 1, n).1,
        ItemsUpTo(short, b, k - 1, m).1);
    }
  }

  lemma {:induction false} FieldSame(short: Short, a: Json, b: Json, i: nat, n: nat, m: nat)
    requires a.Obj? && b.Obj? && RegularNode(short, a) && RegularNode(short, b) && SameNode(short, a, b) &&
      PlainAt(a.fields, i)
    ensures HasShort(short, b.fields, ShortAt(short, a.fields, i))
    ensures SameResult(GivenAt(short, a, i, n),
      GivenAt(short, b, ShortIndex(short, b.fields, ShortAt(short, a.fields, i)), m))
    decreases a, 1, 0
  {
    var j := ShortIndex(short, b.fields, ShortAt(short, a.fields, i));
    ValueSame(short, a.fields[i].value, b.fields[j].value, PropsUpTo(short, a, i, n).1, PropsUpTo(short, b, j, m).1);
  }

  lemma {:induction false} NodeMatched(short: Short, a: Json, b: Json, i: nat, n: nat, m: nat)
    requires a.Obj? && b.Obj? && RegularNode(short, a) && RegularNode(short, b) && SameNode(short, a, b)
    requires i < |a.fields| && GivenAt(short, a, i, n).Some?
    ensures Matched(ShortAt(short, a.fields, i), GivenAt(short, a, i, n).value, ShortNames(short, b.fields),
      AllGiven(short, b, m))
    decreases a, 2, 0
  {
    FieldSame(short, a, b, i, n, m);
    var j := ShortIndex(short, b.fields, ShortAt(short, a.fields, i));
    assert AllGiven(short, b, m)[j] == GivenAt(short, b, j, m) &&
      ShortNames(short, b.fields)[j] == ShortAt(short, a.fields, i);
  }

  lemma {:induction false} NodeNamed(short: Short, a: Json, b: Json, j: nat, n: nat, m: nat)
    requires a.Obj? && b.Obj? && RegularNode(short, a) && RegularNode(short, b) && SameNode(short, a, b)
    requires j < |b.fields| && GivenAt(short, b, j, m).Some?
    ensures exists i ::
      0 <= i < |a.fields| && GivenAt(short, a, i, n).Some? && ShortAt(short, a.fields, i) == ShortAt(short, b.fields, j)
    decreases a, 2, 0
  {
    assert PlainAt(b.fields, j);
    var i := ShortIndex(short, a.fields, ShortAt(short, b.fields, j));
    FieldSame(short, a, b, i, n, m);
    assert ShortIndex(short, b.fields, ShortAt(short, a.fields, i)) == j;
  }

  lemma {:induction false} NodePropsSame(short: Short, a: Json, b: Json, n: nat, m: nat)
    requires a.Obj? && b.Obj? && RegularNode(short, a) && RegularNode(short, b) && SameNode(short, a, b)
    ensures SameProps(PropsUpTo(short, a, |a.fields|, n).0, PropsUpTo(short, b, |b.fields|, m).0)
    decreases a, 2, 1
  {
    var xs, ys := AllGiven(short, a, n), AllGiven(short, b, m);
    var names, others := ShortNames(short, a.fields), ShortNames(short, b.fields);
    forall i | 0 <= i < |xs| && xs[i].Some?
      ensures Matched(names[i], xs[i].value, others, ys)
    {
      NodeMatched(short, a, b, i, n, m);
    }
    forall j | 0 <= j < |ys| && ys[j].Some?
      ensures exists i :: 0 <= i < |xs| && xs[i].Some? && names[i] == others[j]
    {
      NodeNamed(short, a, b, j, n, m);
      var i :| 0 <= i < |xs| && GivenAt(short, a, i, n).Some? &&
        ShortAt(short, a.fields, i) == ShortAt(short, b.fields, j);
      assert xs[i].Some? && names[i] == others[j];
    }
    NodeBuilt(short, a, n);
    NodeBuilt(short, b, m);
    NodeApart(short, a, n);
    NodeApart(short, b, m);
    BuiltSame(States(short, a, n), names, xs, States(short, b, m), others, ys);
  }

  /** Nodes with the same content have the same hash, from any two starting counters. */
  lemma {:induction false} NodeSame(short: Short, a: Json, b: Json, n: nat, m: nat)
    requires a.Obj? && b.Obj? && RegularNode(short, a) && RegularNode(short, b) && SameNode(short, a, b)
    ensures SameEntity(NormalizeEntity(short, a, n).0, NormalizeEntity(short, b, m).0)
    decreases a, 2, 2
  {
    NodePropsSame(short, a, b, n, m);
    PropsProper(short, a, |a.fields|, n);
    PropsProper(short, b, |b.fields|, m);
    BuildSame(TypesOf(short, a.fields), PropsUpTo(short, a, |a.fields|, n).0, IdOf(a.fields),
      PropsUpTo(short, a, |a.fields|, n).1,
              TypesOf(short, b.fields), PropsUpTo(short, b, |b.fields|, m).0, IdOf(b.fields),
                PropsUpTo(short, b, |b.fields|, m).1);
  }

  lemma {:induction false} BuildSame(t: seq<string>, p: seq<Field<SchemaValue>>, id: Option<string>, n: nat,
                                     u: seq<string>, q: seq<Field<SchemaValue>>, other: Option<string>, m: nat)
    requires multiset(t) == multiset(u) && SameProps(p, q) && ProperProps(p) && ProperProps(q)
    ensures SameEntity(BuildEntity(t, p, id, n).0, BuildEntity(u, q, other, m).0)
  {
    ContentHash(t, p, u, q);
    assert |multiset(t)| == |t| && |multiset(u)| == |u|;
    if p != [] {
      assert p[0] in p;
    }
    if q != [] {
      assert q[0] in q;
    }
  }

  // ---------- documents ----------

  /** The nodes of a parsed block: lists and `@graph`s are flattened. */
  function RootNodes(parsed: Json): seq<Json>
    decreases parsed, 1, 0
  {
    match parsed
    case Arr(items) => RootsUpTo(parsed, |items|)
    case Obj(fields) =>
      if HasKey(fields, "@graph") && Get(fields, "@graph").Arr? then
        var graph := Get(fields, "@graph");
        RootsUpTo(fields[IndexOf(fields, "@graph")].value, |graph.items|)
      else [parsed]
    case _ => []
  }

  function RootsUpTo(parsed: Json, k: nat): seq<Json>
    requires parsed.Arr? && k <= |parsed.items|
    decreases parsed, 0, k
  {
    if k == 0 then [] else RootsUpTo(parsed, k - 1) + RootNodes(parsed.items[k - 1])
  }

  lemma {:induction false} RootsAreNodes(parsed: Json)
    ensures forall r <- RootNodes(parsed) :: r.Obj?
    decreases parsed, 1, 0
  {
    match parsed
    case Arr(items) => RootsUpToAreNodes(parsed, |items|);
    case Obj(fields) =>
      if HasKey(fields, "@graph") && Get(fields, "@graph").Arr? {
        var graph := fields[IndexOf(fields, "@graph")].value;
        RootsUpToAreNodes(graph, |graph.items|);
      }
    case _ =>
  }

  lemma {:induction false} RootsUpToAreNodes(parsed: Json, k: nat)
    requires parsed.Arr? && k <= |parsed.items|
    ensures forall r <- RootsUpTo(parsed, k) :: r.Obj?
    decreases parsed, 0, k
  {
    if k > 0 {
      RootsUpToAreNodes(parsed, k - 1);
      RootsAreNodes(parsed.items[k - 1]);
    }
  }

  /** The canonical values of the entities of the first `k` nodes. */
  function HashesUpTo(short: Short, roots: seq<Json>, k: nat, n: nat): (seq<Json>, nat)
    requires k <= |roots| && forall r <- roots :: r.Obj?
    decreases k
  {
    if k == 0 then ([], n)
    else
      assert roots[k - 1] in roots;
      var (out, m) := HashesUpTo(short, roots, k - 1, n);
      var (e, p) := NormalizeEntity(short, roots[k - 1], m);
      (if e.Some? then out + [e.value.canonical] else out, p)
  }

  method ExtractJsonLd(parsed: Json, counter: Counter) returns (entities: seq<Entity>, ghost hashes: seq<Json>)
    modifies counter
    ensures hashes == HashesUpTo(ShortType, Roots(parsed), |Roots(parsed)|, old(counter.n)).0
    ensures |entities| == |hashes| && forall i :: 0 <= i < |entities| ==> entities[i].canonical == hashes[i]
  {
    entities, hashes := [], [];
    var roots := Roots(parsed);
    for i := 0 to |roots|
      invariant (hashes, counter.n) == HashesUpTo(ShortType, roots, i, old(counter.n))
      invariant |entities| == |hashes| && forall k :: 0 <= k < |entities| ==> entities[k].canonical == hashes[k]
    {
      assert roots[i] in roots;
      var entity := NormalizeJsonLdEntity(roots[i], counter);
      if entity.Some? {
        entities := entities + [entity.value];
        hashes := hashes + [entity.value.canonical];
      }
    }
  }

  function Roots(parsed: Json): (roots: seq<Json>)
    ensures forall r <- roots :: r.Obj?
  {
    RootsAreNodes(parsed);
    RootNodes(parsed)
  }

  lemma {:induction false} SameContentSelf(short: Short, a: Json)
    requires Regular(short, a)
    ensures SameContent(short, a, a)
    decreases a, 1
  {
    match a
    case Arr(items) =>
      forall i | 0 <= i < |items|
        ensures SameContent(short, items[i], items[i])
      {
        assert items[i] in items;
        SameContentSelf(short, items[i]);
      }
    case Obj(fields) =>
      if !HasKey(fields, VALUE) {
        if IsReference(fields) {
          SortDecides(Get(fields, ID), Get(fields, ID));
        } else {
          SameNodeSelf(short, a);
        }
      }
    case _ =>
  }

  lemma {:induction false} SameNodeSelf(short: Short, a: Json)
    requires a.Obj? && RegularNode(short, a)
    ensures SameNode(short, a, a)
    decreases a, 0
  {
    forall i | 0 <= i < |a.fields| && PlainAt(a.fields, i)
      ensures HasShort(short, a.fields, ShortAt(short, a.fields, i))
      ensures ShortIndex(short, a.fields, ShortAt(short, a.fields, i)) == i
      ensures SameContent(short, a.fields[i].value, a.fields[i].value)
    {
      assert NamedAt(short, a.fields, i, ShortAt(short, a.fields, i));
      SameContentSelf(short, a.fields[i].value);
    }
  }

  /** A document's hashes do not depend on where the shared counter starts. */
  lemma {:induction false} HashesIgnoreCounter(short: Short, roots: seq<Json>, k: nat, n: nat, m: nat)
    requires k <= |roots| && forall r <- roots :: r.Obj? && RegularNode(short, r)
    ensures HashesUpTo(short, roots, k, n).0 == HashesUpTo(short, roots, k, m).0
    decreases k
  {
    if k > 0 {
      HashesIgnoreCounter(short, roots, k - 1, n, m);
      var root := roots[k - 1];
      assert root in roots;
      SameNodeSelf(short, root);
      NodeSame(short, root, root, HashesUpTo(short, roots, k - 1, n).1, HashesUpTo(short, roots, k - 1, m).1);
    }
  }
}
