/** Mapping and flattening sequences, and what permutations leave unchanged. */
module Sequences {
  predicate Distinct<T(==)>(s: seq<T>) {
    forall i, j :: 0 <= i < j < |s| ==> s[i] != s[j]
  }

  function Map<A, B>(f: A -> B, s: seq<A>): (r: seq<B>)
    ensures |r| == |s|
  {
    if s == [] then [] else [f(s[0])] + Map(f, s[1..])
  }

  lemma Associative<T>(a: seq<T>, b: seq<T>, c: seq<T>)
    ensures a + b + c == a + (b + c)
  {
  }

  lemma {:induction false} MapSplit<A, B>(f: A -> B, s: seq<A>, t: seq<A>)
    ensures Map(f, s + t) == Map(f, s) + Map(f, t)
  {
    if s == [] {
      assert s + t == t;
    } else {
      var u := s + t;
      assert u[0] == s[0] && u[1..] == s[1..] + t;
      MapSplit(f, s[1..], t);
      assert Map(f, u) == [f(s[0])] + Map(f, u[1..]);
      Associative([f(s[0])], Map(f, s[1..]), Map(f, t));
    }
  }

  lemma Without<A>(s: seq<A>, i: nat)
    requires i < |s|
    ensures multiset(s) == multiset(s[..i] + s[i + 1..]) + multiset{s[i]}
  {
    assert s == s[..i] + ([s[i]] + s[i + 1..]);
  }

  lemma {:induction false} MapWithout<A, B>(f: A -> B, s: seq<A>, i: nat)
    requires i < |s|
    ensures multiset(Map(f, s)) == multiset(Map(f, s[..i] + s[i + 1..])) + multiset{f(s[i])}
  {
    var rest := s[..i] + s[i + 1..];
    if i == 0 {
      assert rest == s[1..];
    } else {
      MapWithout(f, s[1..], i - 1);
      assert s[1..][..i - 1] + s[1..][i..] == rest[1..] && rest[0] == s[0] && s[1..][i - 1] == s[i];
    }
  }

  lemma Cancel<A>(a: multiset<A>, b: multiset<A>, x: A)
    requires a + multiset{x} == b + multiset{x}
    ensures a == b
  {
    assert a == (a + multiset{x}) - multiset{x};
    assert b == (b + multiset{x}) - multiset{x};
  }

  lemma FirstElsewhere<A>(s: seq<A>, t: seq<A>) returns (j: nat)
    requires multiset(s) == multiset(t) && s != []
    ensures j < |t| && t[j] == s[0] && multiset(s[1..]) == multiset(t[..j] + t[j + 1..])
  {
    assert s[0] in multiset(s);
    assert s[0] in multiset(t);
    j :| 0 <= j < |t| && t[j] == s[0];
    Without(t, j);
    assert multiset(s) == multiset(s[1..]) + multiset{s[0]} by {
      Without(s, 0);
      assert s[..0] + s[1..] == s[1..];
    }
    Cancel(multiset(s[1..]), multiset(t[..j] + t[j + 1..]), s[0]);
  }

  lemma {:induction false} MapPermuted<A, B>(f: A -> B, s: seq<A>, t: seq<A>)
    requires multiset(s) == multiset(t)
    ensures multiset(Map(f, s)) == multiset(Map(f, t))
    decreases |s|
  {
    if s == [] {
      assert |multiset(t)| == 0;
    } else {
      var j := FirstElsewhere(s, t);
      MapPermuted(f, s[1..], t[..j] + t[j + 1..]);
      MapWithout(f, t, j);
    }
  }

  function Flat<K, T>(f: K -> seq<T>, keys: seq<K>): seq<T> {
    if keys == [] then [] else f(keys[0]) + Flat(f, keys[1..])
  }

  lemma {:induction false} FlatAppend<K, T>(f: K -> seq<T>, keys: seq<K>, k: K)
    ensures Flat(f, keys + [k]) == Flat(f, keys) + f(k)
  {
    if keys == [] {
      assert keys + [k] == [k] && f(k) + [] == f(k) && [] + f(k) == f(k);
    } else {
      FlatAppend(f, keys[1..], k);
      assert (keys + [k])[1..] == keys[1..] + [k];
    }
  }

  lemma FlatNext<K, T>(f: K -> seq<T>, keys: seq<K>, i: nat)
    requires i < |keys|
    ensures Flat(f, keys[..i + 1]) == Flat(f, keys[..i]) + f(keys[i])
  {
    FlatAppend(f, keys[..i], keys[i]);
    assert keys[..i + 1] == keys[..i] + [keys[i]];
  }

  lemma {:induction false} FlatJoin<K, T>(f: K -> seq<T>, a: seq<K>, b: seq<K>)
    ensures Flat(f, a + b) == Flat(f, a) + Flat(f, b)
  {
    if a == [] {
      assert a + b == b;
    } else {
      var keys := a + b;
      assert keys[0] == a[0] && keys[1..] == a[1..] + b;
      FlatJoin(f, a[1..], b);
      assert Flat(f, keys) == f(a[0]) + Flat(f, keys[1..]);
      Associative(f(a[0]), Flat(f, a[1..]), Flat(f, b));
    }
  }

  lemma FlatSlice<K, T>(f: K -> seq<T>, keys: seq<K>, i: nat, j: nat)
    requires i <= j <= |keys|
    ensures Flat(f, keys[..j]) == Flat(f, keys[..i]) + Flat(f, keys[i..j])
  {
    FlatJoin(f, keys[..i], keys[i..j]);
    assert keys[..j] == keys[..i] + keys[i..j];
  }

  lemma {:induction false} FlatEmpty<K, T>(f: K -> seq<T>, keys: seq<K>)
    ensures Flat(f, keys) == [] <==> forall k <- keys :: f(k) == []
  {
    if keys != [] {
      FlatEmpty(f, keys[1..]);
      assert forall k :: k in keys <==> k == keys[0] || k in keys[1..];
      if Flat(f, keys) == [] {
        assert |f(keys[0])| == 0;
      }
    }
  }

  lemma {:induction false} FlatWithout<K, T>(f: K -> seq<T>, keys: seq<K>, i: nat)
    requires i < |keys|
    ensures multiset(Flat(f, keys)) == multiset(f(keys[i])) + multiset(Flat(f, keys[..i] + keys[i + 1..]))
  {
    var rest := keys[..i] + keys[i + 1..];
    if i == 0 {
      assert rest == keys[1..];
    } else {
      FlatWithout(f, keys[1..], i - 1);
      assert keys[1..][..i - 1] + keys[1..][i..] == rest[1..] && rest[0] == keys[0] && keys[1..][i - 1] == keys[i];
    }
  }

  lemma {:induction false} MapAt<A, B>(f: A -> B, s: seq<A>, i: nat)
    requires i < |s|
    ensures Map(f, s)[i] == f(s[i])
  {
    if i > 0 {
      MapAt(f, s[1..], i - 1);
    }
  }

  // ---------- distinct elements ----------

  /** The elements in order of first appearance. */
  function Unique<A(==)>(s: seq<A>): seq<A> {
    if s == [] then []
    else
      var before, last := s[..|s| - 1], s[|s| - 1];
      if last in before then Unique(before) else Unique(before) + [last]
  }

  lemma {:induction false} UniqueAre<A>(s: seq<A>)
    ensures forall p :: p in Unique(s) <==> p in s
    ensures forall p :: multiset(Unique(s))[p] <= 1
  {
    if s != [] {
      var before, last := s[..|s| - 1], s[|s| - 1];
      UniqueAre(before);
      assert s == before + [last];
    }
  }

  lemma {:induction false} FlatHas<K, T>(f: K -> seq<T>, keys: seq<K>, x: T)
    ensures x in Flat(f, keys) <==> exists k <- keys :: x in f(k)
  {
    if keys != [] {
      FlatHas(f, keys[1..], x);
      assert keys == [keys[0]] + keys[1..];
    }
  }

  // ---------- dropping elements ----------

  function Drop<A>(drop: A -> bool, s: seq<A>): seq<A> {
    if s == [] then [] else (if drop(s[0]) then [] else [s[0]]) + Drop(drop, s[1..])
  }

  lemma {:induction false} DropHas<A>(drop: A -> bool, s: seq<A>, x: A)
    ensures x in Drop(drop, s) <==> x in s && !drop(x)
  {
    if s != [] {
      DropHas(drop, s[1..], x);
      assert s == [s[0]] + s[1..];
    }
  }

  lemma {:induction false} DropSplit<A>(drop: A -> bool, s: seq<A>, t: seq<A>)
    ensures Drop(drop, s + t) == Drop(drop, s) + Drop(drop, t)
  {
    if s == [] {
      assert s + t == t;
    } else {
      var u := s + t;
      assert u[0] == s[0] && u[1..] == s[1..] + t;
      DropSplit(drop, s[1..], t);
      Associative(if drop(s[0]) then [] else [s[0]], Drop(drop, s[1..]), Drop(drop, t));
    }
  }

  lemma {:induction false} DropNone<A>(drop: A -> bool, s: seq<A>)
    requires forall x <- s :: !drop(x)
    ensures Drop(drop, s) == s
  {
    if s != [] {
      assert s == [s[0]] + s[1..];
      DropNone(drop, s[1..]);
    }
  }

  lemma {:induction false} DropAll<A>(drop: A -> bool, s: seq<A>)
    requires forall x <- s :: drop(x)
    ensures Drop(drop, s) == []
  {
    if s != [] {
      assert s == [s[0]] + s[1..];
      DropAll(drop, s[1..]);
    }
  }

  /** Dropping twice is dropping what either drops. */
  lemma {:induction false} DropEither<A>(first: A -> bool, second: A -> bool, either: A -> bool, s: seq<A>)
    requires forall x <- s :: either(x) <==> first(x) || second(x)
    ensures Drop(second, Drop(first, s)) == Drop(either, s)
  {
    if s != [] {
      assert s == [s[0]] + s[1..];
      DropEither(first, second, either, s[1..]);
      if !first(s[0]) {
        assert ([s[0]] + Drop(first, s[1..]))[1..] == Drop(first, s[1..]);
      } else {
        assert [] + Drop(first, s[1..]) == Drop(first, s[1..]);
      }
    }
  }

  // ---------- where elements come from ----------

  predicate Increasing(at: seq<nat>) {
    forall i, j :: 0 <= i < j < |at| ==> at[i] < at[j]
  }

  /** The indices below `n` that the test admits, in order. */
  function Where(test: nat -> bool, n: nat): (at: seq<nat>)
    ensures forall i: nat :: i in at <==> i < n && test(i)
    ensures Increasing(at)
  {
    if n == 0 then []
    else
      var before := Where(test, n - 1);
      assert forall j :: 0 <= j < |before| ==> before[j] in before;
      if test(n - 1) then before + [n - 1] else before
  }

  /** Each row is the only one that its key gives. */
  ghost predicate FromOwnKey<K, T>(f: K -> seq<T>, keys: seq<K>, rows: seq<T>, at: seq<nat>) {
    |rows| == |at| && forall j :: 0 <= j < |at| ==> at[j] < |keys| && f(keys[at[j]]) == [rows[j]]
  }

  /** Where each key gives one element or none, each element comes from its own key, in order. */
  lemma {:induction false} FlatWhere<K, T>(f: K -> seq<T>, keys: seq<K>, test: nat -> bool, n: nat)
    requires n <= |keys| && forall i: nat :: i < n ==> |f(keys[i])| == if test(i) then 1 else 0
    ensures FromOwnKey(f, keys, Flat(f, keys[..n]), Where(test, n))
  {
    if n > 0 {
      FlatWhere(f, keys, test, n - 1);
      FlatNext(f, keys, n - 1);
      var rows, at := Flat(f, keys[..n]), Where(test, n);
      if test(n - 1) {
        assert f(keys[n - 1]) == [f(keys[n - 1])[0]];
      } else {
        assert rows == Flat(f, keys[..n - 1]);
      }
    }
  }

  /** What remains of a sequence, in order and as often, when some elements are taken out. */
  ghost predicate Remains<A>(all: seq<A>, kept: seq<A>, gone: A -> bool) {
    exists at: seq<nat> :: Increasing(at) && ComesFrom(all, kept, at) && Spares(all, at, gone)
  }

  ghost predicate ComesFrom<A>(all: seq<A>, kept: seq<A>, at: seq<nat>) {
    |at| == |kept| && forall j :: 0 <= j < |at| ==> at[j] < |all| && kept[j] == all[at[j]]
  }

  ghost predicate Spares<A>(all: seq<A>, at: seq<nat>, gone: A -> bool) {
    forall i: nat :: i < |all| ==> (i in at <==> !gone(all[i]))
  }

  lemma {:induction false} DropIsFlat<A>(drop: A -> bool, s: seq<A>)
    ensures Drop(drop, s) == Flat(x => if drop(x) then [] else [x], s)
  {
    if s != [] {
      DropIsFlat(drop, s[1..]);
    }
  }

  lemma {:induction false} DropRemains<A>(drop: A -> bool, s: seq<A>)
    ensures Remains(s, Drop(drop, s), drop)
  {
    var own := x => if drop(x) then [] else [x];
    var test := (i: nat) => i < |s| && !drop(s[i]);
    DropIsFlat(drop, s);
    FlatWhere(own, s, test, |s|);
    assert s[..|s|] == s;
    var at := Where(test, |s|);
    forall j | 0 <= j < |at|
      ensures at[j] < |s| && Drop(drop, s)[j] == s[at[j]]
    {
      assert at[j] in at && own(s[at[j]]) == [Drop(drop, s)[j]];
    }
    assert ComesFrom(s, Drop(drop, s), at) && Spares(s, at, drop);
  }
}
