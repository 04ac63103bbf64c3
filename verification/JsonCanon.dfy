/** Canonical JSON: values compared and hashed up to the order of object keys. */
module JsonCanon {
  import opened Sequences

  /** A parsed JSON value; an object keeps its keys in order of insertion. */
  datatype Json = Null | Bool(b: bool) | Num(n: real) | Str(s: string) | Arr(items: seq<Json>) |
    Obj(fields: seq<Field<Json>>)

  datatype Field<V> = Field(key: string, value: V)

  // ---------- sorting text ----------

  /** The order of Array.prototype.sort on strings: by character codes. */
  predicate AtMost(a: string, b: string) {
    a == "" || (b != "" && (a[0] < b[0] || (a[0] == b[0] && AtMost(a[1..], b[1..]))))
  }

  predicate Sorted(s: seq<string>) {
    forall i, j :: 0 <= i < j < |s| ==> AtMost(s[i], s[j])
  }

  function Insert(x: string, s: seq<string>): seq<string> {
    if s == [] then [x] else if AtMost(x, s[0]) then [x] + s else [s[0]] + Insert(x, s[1..])
  }

  function Sort(s: seq<string>): seq<string> {
    if s == [] then [] else Insert(s[0], Sort(s[1..]))
  }

  lemma {:induction false} AtMostTotal(a: string, b: string)
    ensures AtMost(a, b) || AtMost(b, a)
    ensures AtMost(a, b) && AtMost(b, a) ==> a == b
  {
    if a != "" && b != "" && a[0] == b[0] {
      AtMostTotal(a[1..], b[1..]);
      assert a == [a[0]] + a[1..] && b == [b[0]] + b[1..];
    }
  }

  lemma {:induction false} AtMostTransitive(a: string, b: string, c: string)
    requires AtMost(a, b) && AtMost(b, c)
    ensures AtMost(a, c)
  {
    if a != "" && a[0] == b[0] && b[0] == c[0] {
      AtMostTransitive(a[1..], b[1..], c[1..]);
    }
  }

  lemma {:induction false} InsertMultiset(x: string, s: seq<string>)
    ensures multiset(Insert(x, s)) == multiset(s) + multiset{x}
  {
    if s != [] {
      assert s == [s[0]] + s[1..];
      InsertMultiset(x, s[1..]);
    }
  }

  lemma {:induction false} AtMostAll(x: string, s: seq<string>)
    requires Sorted(s) && s != [] && AtMost(x, s[0])
    ensures Sorted([x] + s)
  {
    forall y <- s
      ensures AtMost(x, y)
    {
      if y != s[0] {
        AtMostTransitive(x, s[0], y);
      }
    }
  }

  lemma {:induction false} InsertKeeps(x: string, s: seq<string>)
    requires Sorted(s)
    ensures Sorted(Insert(x, s))
  {
    if s != [] {
      AtMostTotal(x, s[0]);
      if AtMost(x, s[0]) {
        AtMostAll(x, s);
      } else {
        var rest := Insert(x, s[1..]);
        InsertKeeps(x, s[1..]);
        InsertMultiset(x, s[1..]);
        assert rest[0] in multiset(rest);
        assert rest[0] == x || rest[0] in s[1..];
        AtMostAll(s[0], rest);
      }
    }
  }

  lemma {:induction false} SortKeeps(s: seq<string>)
    ensures Sorted(Sort(s)) && multiset(Sort(s)) == multiset(s)
  {
    if s != [] {
      SortKeeps(s[1..]);
      InsertKeeps(s[0], Sort(s[1..]));
      InsertMultiset(s[0], Sort(s[1..]));
      assert s == [s[0]] + s[1..];
    }
  }

  lemma WithoutFirst(s: seq<string>)
    requires s != []
    ensures multiset(s[1..]) == multiset(s) - multiset{s[0]} && s == [s[0]] + s[1..]
  {
    assert s == [s[0]] + s[1..];
  }

  lemma {:induction false} FirstIsLeast(s: seq<string>, x: string)
    requires Sorted(s) && x in multiset(s)
    ensures s != [] && AtMost(s[0], x)
  {
    var i :| 0 <= i < |s| && s[i] == x;
    AtMostTotal(x, x);
  }

  lemma SameFirst(a: seq<string>, b: seq<string>)
    requires Sorted(a) && Sorted(b) && multiset(a) == multiset(b) && a != []
    ensures b != [] && a[0] == b[0]
  {
    assert a[0] in multiset(a);
    FirstIsLeast(b, a[0]);
    assert b[0] in multiset(b);
    FirstIsLeast(a, b[0]);
    AtMostTotal(a[0], b[0]);
  }

  lemma {:induction false} SortedIsUnique(a: seq<string>, b: seq<string>)
    requires Sorted(a) && Sorted(b) && multiset(a) == multiset(b)
    ensures a == b
  {
    if a == [] {
      assert |multiset(b)| == 0;
    } else {
      SameFirst(a, b);
      WithoutFirst(a);
      WithoutFirst(b);
      SortedIsUnique(a[1..], b[1..]);
    }
  }

  /** Sorting forgets the order and nothing else. */
  lemma {:induction false} SortForgetsOrder(a: seq<string>, b: seq<string>)
    ensures Sort(a) == Sort(b) <==> multiset(a) == multiset(b)
  {
    SortKeeps(a);
    SortKeeps(b);
    if multiset(a) == multiset(b) {
      SortedIsUnique(Sort(a), Sort(b));
    }
  }

  // ---------- objects ----------

  predicate HasKey<V(==)>(fields: seq<Field<V>>, key: string) {
    exists f <- fields :: f.key == key
  }

  function IndexOf<V(==)>(fields: seq<Field<V>>, key: string): (i: nat)
    requires HasKey(fields, key)
    ensures i < |fields| && fields[i].key == key && forall k :: 0 <= k < i ==> fields[k].key != key
  {
    if fields[0].key == key then 0 else 1 + IndexOf(fields[1..], key)
  }

  function Get<V(==)>(fields: seq<Field<V>>, key: string): V
    requires HasKey(fields, key)
  {
    fields[IndexOf(fields, key)].value
  }

  function Keys<V>(fields: seq<Field<V>>): (keys: seq<string>)
    ensures |keys| == |fields| && forall i :: 0 <= i < |fields| ==> keys[i] == fields[i].key
  {
    seq(|fields|, i requires 0 <= i < |fields| => fields[i].key)
  }

  /** Assigning to a key: it keeps its place, or comes last. */
  function Put<V(==)>(fields: seq<Field<V>>, key: string, v: V): seq<Field<V>> {
    if HasKey(fields, key) then fields[IndexOf(fields, key) := Field(key, v)] else fields + [Field(key, v)]
  }

  lemma PutHas<V>(p: seq<Field<V>>, key: string, v: V, k: string)
    ensures HasKey(Put(p, key, v), k) <==> k == key || HasKey(p, k)
    ensures k == key ==> Get(Put(p, key, v), k) == v
    ensures k != key && HasKey(p, k) ==> Get(Put(p, key, v), k) == Get(p, k)
  {
    var q := Put(p, key, v);
    var at := if HasKey(p, key) then IndexOf(p, key) else |p|;
    assert q[at] == Field(key, v) && q[at] in q;
    assert forall i :: 0 <= i < |q| && i != at ==> q[i] == p[i];
    if HasKey(p, k) {
      var i := IndexOf(p, k);
      assert q[i].key == k && q[i] in q;
    }
    if HasKey(q, k) {
      var i := IndexOf(q, k);
      if i != at {
        assert p[i] in p;
      }
    }
  }

  lemma PutDistinct<V>(p: seq<Field<V>>, key: string, v: V)
    requires Distinct(Keys(p))
    ensures Distinct(Keys(Put(p, key, v)))
  {
    var q := Put(p, key, v);
    var at := if HasKey(p, key) then IndexOf(p, key) else |p|;
    assert forall i :: 0 <= i < |q| ==> Keys(q)[i] == if i == at then key else Keys(p)[i];
    forall i, j | 0 <= i < j < |q|
      ensures Keys(q)[i] != Keys(q)[j]
    {
      if i < |p| && !HasKey(p, key) {
        assert p[i] in p;
      }
    }
  }

  /** No object repeats a key. */
  predicate WellFormed(j: Json) {
    match j
    case Arr(items) => forall x <- items :: WellFormed(x)
    case Obj(fields) => Distinct(Keys(fields)) && forall f <- fields :: WellFormed(f.value)
    case _ => true
  }

  /** The sorted keys, each known to be one of the object's. */
  function SortedKeys(fields: seq<Field<Json>>): (keys: seq<string>)
    ensures |keys| == |fields| && forall k <- keys :: HasKey(fields, k)
  {
    var keys := Keys(fields);
    SortKeeps(keys);
    assert |multiset(Sort(keys))| == |multiset(keys)|;
    assert forall k <- Sort(keys) :: k in multiset(keys);
    Sort(keys)
  }

  /** The value with the keys of every object in order. */
  function SortValue(j: Json): Json
    decreases j
  {
    match j
    case Arr(items) => Arr(seq(|items|, i requires 0 <= i < |items| => SortValue(items[i])))
    case Obj(fields) =>
      var keys := SortedKeys(fields);
      Obj(seq(|keys|, i requires 0 <= i < |keys| =>
        assert HasKey(fields, keys[i]);
        Field(keys[i], SortValue(fields[IndexOf(fields, keys[i])].value))))
    case _ => j
  }

  method SortJson(j: Json) returns (r: Json)
    ensures r == SortValue(j)
    decreases j
  {
    match j
    case Arr(items) =>
      var out: seq<Json> := [];
      for i := 0 to |items|
        invariant |out| == i && forall k :: 0 <= k < i ==> out[k] == SortValue(items[k])
      {
        var x := SortJson(items[i]);
        out := out + [x];
      }
      return Arr(out);
    case Obj(fields) =>
      var keys := SortedKeys(fields);
      var out: seq<Field<Json>> := [];
      for i := 0 to |keys|
        invariant |out| == i
        invariant forall k :: 0 <= k < i ==>
          HasKey(fields, keys[k]) && out[k] == Field(keys[k], SortValue(Get(fields, keys[k])))
      {
        assert HasKey(fields, keys[i]);
        var x := SortJson(fields[IndexOf(fields, keys[i])].value);
        out := out + [Field(keys[i], x)];
      }
      return Obj(out);
    case _ => return j;
  }

  // ---------- equality up to the order of keys ----------

  predicate SameKeys<V(==)>(a: seq<Field<V>>, b: seq<Field<V>>) {
    (forall f <- a :: HasKey(b, f.key)) && (forall f <- b :: HasKey(a, f.key))
  }

  /** Equal but for the order of keys, at any depth. */
  predicate SameJson(a: Json, b: Json)
    decreases a
  {
    if a.Arr? && b.Arr? then
      |a.items| == |b.items| && forall i :: 0 <= i < |a.items| ==> SameJson(a.items[i], b.items[i])
    else if a.Obj? && b.Obj? then
      SameKeys(a.fields, b.fields) &&
      forall i :: 0 <= i < |a.fields| ==>
        HasKey(b.fields, a.fields[i].key) && SameJson(a.fields[i].value, Get(b.fields, a.fields[i].key))
    else a == b
  }

  lemma {:induction false} DistinctMultiset(s: seq<string>)
    requires Distinct(s)
    ensures forall x :: multiset(s)[x] == if x in s then 1 else 0
  {
    if s != [] {
      var rest := s[1..];
      DistinctMultiset(rest);
      assert s == [s[0]] + rest && multiset(s) == multiset{s[0]} + multiset(rest);
      assert s[0] !in rest;
    }
  }

  lemma SameKeysSorted(a: seq<Field<Json>>, b: seq<Field<Json>>)
    requires Distinct(Keys(a)) && Distinct(Keys(b))
    ensures SameKeys(a, b) <==> SortedKeys(a) == SortedKeys(b)
  {
    var x, y := Keys(a), Keys(b);
    SortForgetsOrder(x, y);
    assert forall k :: k in x <==> HasKey(a, k);
    assert forall k :: k in y <==> HasKey(b, k);
    if SameKeys(a, b) {
      DistinctMultiset(x);
      DistinctMultiset(y);
      assert multiset(x) == multiset(y);
    }
    if multiset(x) == multiset(y) {
      assert forall k :: k in x <==> k in multiset(x);
      assert forall k :: k in y <==> k in multiset(y);
    }
  }

  lemma {:induction false} SortItems(a: seq<Json>, b: seq<Json>)
    requires |a| == |b| && forall i :: 0 <= i < |a| ==> (SortValue(a[i]) == SortValue(b[i]) <==> SameJson(a[i], b[i]))
    ensures SortValue(Arr(a)) == SortValue(Arr(b)) <==> SameJson(Arr(a), Arr(b))
  {
    var x, y := SortValue(Arr(a)).items, SortValue(Arr(b)).items;
    assert forall i :: 0 <= i < |a| ==> x[i] == SortValue(a[i]) && y[i] == SortValue(b[i]);
    if SortValue(Arr(a)) == SortValue(Arr(b)) {
      forall i | 0 <= i < |a|
        ensures SameJson(a[i], b[i])
      {
        assert x[i] == y[i];
      }
    }
  }

  lemma GetOf<V>(fields: seq<Field<V>>, i: nat)
    requires i < |fields| && Distinct(Keys(fields))
    ensures HasKey(fields, fields[i].key) && Get(fields, fields[i].key) == fields[i].value
  {
    var k := IndexOf(fields, fields[i].key);
    assert Keys(fields)[k] == Keys(fields)[i];
  }

  lemma SortedFieldsAgree(a: seq<Field<Json>>, b: seq<Field<Json>>)
    requires SortedKeys(a) == SortedKeys(b)
    ensures SortValue(Obj(a)) == SortValue(Obj(b)) <==>
      forall k <- SortedKeys(a) :: SortValue(Get(a, k)) == SortValue(Get(b, k))
  {
    var keys := SortedKeys(a);
    var x, y := SortValue(Obj(a)).fields, SortValue(Obj(b)).fields;
    assert forall i :: 0 <= i < |keys| ==> keys[i] in keys && x[i] == Field(keys[i], SortValue(Get(a, keys[i])));
    assert forall i :: 0 <= i < |keys| ==> y[i] == Field(keys[i], SortValue(Get(b, keys[i])));
    if SortValue(Obj(a)) == SortValue(Obj(b)) {
      forall k <- keys
        ensures SortValue(Get(a, k)) == SortValue(Get(b, k))
      {
        var i :| 0 <= i < |keys| && keys[i] == k;
        assert x[i] == y[i];
      }
    }
    if forall k <- keys :: SortValue(Get(a, k)) == SortValue(Get(b, k)) {
      assert x == y;
    }
  }

  lemma SortedKeysAre(fields: seq<Field<Json>>, key: string)
    ensures key in SortedKeys(fields) <==> HasKey(fields, key)
  {
    SortKeeps(Keys(fields));
    if HasKey(fields, key) {
      assert Keys(fields)[IndexOf(fields, key)] in multiset(Keys(fields));
      assert key in multiset(Sort(Keys(fields)));
    }
  }

  lemma SameFields(a: seq<Field<Json>>, b: seq<Field<Json>>)
    requires Distinct(Keys(a)) && Distinct(Keys(b)) && SameKeys(a, b)
    ensures SameJson(Obj(a), Obj(b)) <==>
      forall k <- SortedKeys(a) :: HasKey(a, k) && HasKey(b, k) && SameJson(Get(a, k), Get(b, k))
  {
    forall k
      ensures k in SortedKeys(a) <==> HasKey(a, k)
    {
      SortedKeysAre(a, k);
    }
    forall i | 0 <= i < |a|
      ensures HasKey(a, a[i].key) && Get(a, a[i].key) == a[i].value && HasKey(b, a[i].key)
    {
      GetOf(a, i);
      assert a[i] in a;
    }
    if SameJson(Obj(a), Obj(b)) {
      forall k <- SortedKeys(a)
        ensures HasKey(b, k) && SameJson(Get(a, k), Get(b, k))
      {
        var i := IndexOf(a, k);
        assert HasKey(b, a[i].key);
      }
    }
  }

  lemma SortFields(a: seq<Field<Json>>, b: seq<Field<Json>>)
    requires Distinct(Keys(a)) && Distinct(Keys(b))
    requires forall k: string :: HasKey(a, k) && HasKey(b, k) ==>
      (SortValue(Get(a, k)) == SortValue(Get(b, k)) <==> SameJson(Get(a, k), Get(b, k)))
    ensures SortValue(Obj(a)) == SortValue(Obj(b)) <==> SameJson(Obj(a), Obj(b))
  {
    SameKeysSorted(a, b);
    SameKeyList(a, b);
    if SameKeys(a, b) {
      SortedFieldsAgree(a, b);
      SameFields(a, b);
      forall k <- SortedKeys(a)
        ensures HasKey(a, k) && HasKey(b, k)
      {
        assert k in SortedKeys(b);
      }
    }
  }

  lemma SameKeyList(a: seq<Field<Json>>, b: seq<Field<Json>>)
    ensures SortValue(Obj(a)) == SortValue(Obj(b)) ==> SortedKeys(a) == SortedKeys(b)
  {
    var x, y := SortValue(Obj(a)).fields, SortValue(Obj(b)).fields;
    assert forall i :: 0 <= i < |SortedKeys(a)| ==> x[i].key == SortedKeys(a)[i];
    assert forall i :: 0 <= i < |SortedKeys(b)| ==> y[i].key == SortedKeys(b)[i];
    if SortValue(Obj(a)) == SortValue(Obj(b)) {
      assert |x| == |y|;
    }
  }

  /** Sorting maps two values to the same result exactly when they are equal up to key order. */
  lemma {:induction false} SortDecides(a: Json, b: Json)
    requires WellFormed(a) && WellFormed(b)
    ensures SortValue(a) == SortValue(b) <==> SameJson(a, b)
    decreases a
  {
    if a.Arr? && b.Arr? {
      if |a.items| == |b.items| {
        forall i | 0 <= i < |a.items|
          ensures SortValue(a.items[i]) == SortValue(b.items[i]) <==> SameJson(a.items[i], b.items[i])
        {
          assert a.items[i] in a.items && b.items[i] in b.items;
          SortDecides(a.items[i], b.items[i]);
        }
        SortItems(a.items, b.items);
      } else {
        assert |SortValue(a).items| != |SortValue(b).items|;
      }
    } else if a.Obj? && b.Obj? {
      forall k: string | HasKey(a.fields, k) && HasKey(b.fields, k)
        ensures SortValue(Get(a.fields, k)) == SortValue(Get(b.fields, k)) <==>
          SameJson(Get(a.fields, k), Get(b.fields, k))
      {
        var i, j := IndexOf(a.fields, k), IndexOf(b.fields, k);
        assert a.fields[i] in a.fields && b.fields[j] in b.fields;
        SortDecides(a.fields[i].value, b.fields[j].value);
      }
      SortFields(a.fields, b.fields);
    }
  }
}
