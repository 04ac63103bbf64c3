/** The vocabulary's type hierarchy, walked with a shared set of seen types.  The vocabulary may
    name unknown parents and may contain cycles. */
module TypeHierarchy {
  import opened Reachability

  datatype PropertySpec = PropertySpec(ranges: seq<string>, deprecated: bool)

  datatype TypeSpec = TypeSpec(parents: seq<string>, properties: seq<(string, PropertySpec)>)

  type Vocab = map<string, TypeSpec>

  function Parents(vocab: Vocab): Graph {
    t => if t in vocab then vocab[t].parents else []
  }

  ghost predicate Declares(vocab: Vocab, t: string, name: string) {
    t in vocab && exists p <- vocab[t].properties :: p.0 == name
  }

  /** Everything newly seen has its parents seen. */
  ghost predicate Explored(vocab: Vocab, nodes: set<string>, seen: set<string>) {
    forall u <- nodes :: forall p <- Parents(vocab)(u) :: p in seen
  }

  class SubtypeWalk {
    const vocab: Vocab
    const ancestor: string
    var seen: set<string>

    constructor (vocab: Vocab, ancestor: string)
      ensures this.vocab == vocab && this.ancestor == ancestor && seen == {}
    {
      this.vocab, this.ancestor, seen := vocab, ancestor, {};
    }

    method Walk(t: string) returns (found: bool)
      requires ancestor !in seen
      modifies this
      ensures old(seen) <= seen
      ensures found ==> Reaches(Parents(vocab), t, ancestor)
      ensures !found ==> t in seen && ancestor !in seen && Explored(vocab, seen - old(seen), seen)
      decreases |vocab.Keys - seen|, 0
    {
      ReachesSelf(Parents(vocab), t);
      if t == ancestor {
        return true;
      }
      if t in seen {
        return false;
      }
      ghost var before := seen;
      seen := seen + {t};
      if t !in vocab {
        return false;
      }
      Shrinks(vocab.Keys, before, seen, t);
      found := WalkParents(t, before);
    }

    /** Whether some parent of `t` leads to the ancestor. */
    method WalkParents(t: string, ghost before: set<string>) returns (found: bool)
      requires ancestor !in seen && t in vocab && seen == before + {t}
      modifies this
      ensures old(seen) <= seen
      ensures found ==> Reaches(Parents(vocab), t, ancestor)
      ensures !found ==> ancestor !in seen && Explored(vocab, seen - before, seen)
      decreases |vocab.Keys - seen|, 1
    {
      var parents := vocab[t].parents;
      for i := 0 to |parents|
        invariant old(seen) <= seen && ancestor !in seen
        invariant Explored(vocab, seen - before - {t}, seen)
        invariant forall k :: 0 <= k < i ==> parents[k] in seen
      {
        ghost var mid := seen;
        Fewer(vocab.Keys, old(seen), seen);
        found := Walk(parents[i]);
        if found {
          ReachesAfter(Parents(vocab), t, parents[i], ancestor);
          return true;
        }
        ExploredMore(vocab, before + {t}, mid, seen);
        assert seen - (before + {t}) == seen - before - {t} && mid - (before + {t}) == mid - before - {t};
      }
      assert forall u <- seen - before :: u == t || u in seen - before - {t};
      return false;
    }
  }

  lemma ExploredMore(vocab: Vocab, before: set<string>, mid: set<string>, after: set<string>)
    requires mid <= after && Explored(vocab, mid - before, mid) && Explored(vocab, after - mid, after)
    ensures Explored(vocab, after - before, after)
  {
    forall u <- after - before
      ensures forall p <- Parents(vocab)(u) :: p in after
    {
      assert u in mid - before || u in after - mid;
    }
  }

  lemma ExploredToo(vocab: Vocab, before: set<string>, t: string, seen: set<string>)
    requires t in vocab && Explored(vocab, seen - (before + {t}), seen)
    requires forall k :: 0 <= k < |vocab[t].parents| ==> vocab[t].parents[k] in seen
    ensures Explored(vocab, seen - before, seen)
  {
    assert forall u <- seen - before :: u == t || u in seen - (before + {t});
  }

  lemma Fewer(keys: set<string>, before: set<string>, after: set<string>)
    requires before <= after
    ensures |keys - after| <= |keys - before|
  {
    assert keys - before == (keys - after) + (keys * (after - before) - before);
  }

  lemma Shrinks(keys: set<string>, before: set<string>, after: set<string>, t: string)
    requires t in keys && t !in before && before + {t} <= after
    ensures |keys - after| < |keys - before|
  {
    var rest := keys - after;
    assert rest + {t} <= keys - before;
    assert keys - before == (rest + {t}) + (keys - before - rest - {t});
  }

  /** The walk decides the reflexive-transitive closure over parents, cycles or not. */
  method IsSubtypeOf(t: string, ancestor: string, vocab: Vocab) returns (b: bool)
    ensures b <==> t != "" && Reaches(Parents(vocab), t, ancestor)
  {
    if t == "" {
      return false;
    }
    if t == ancestor {
      ReachesSelf(Parents(vocab), t);
      return true;
    }
    var walk := new SubtypeWalk(vocab, ancestor);
    b := walk.Walk(t);
    if !b && Reaches(Parents(vocab), t, ancestor) {
      assert walk.seen - {} == walk.seen;
      ClosedHolds(Parents(vocab), walk.seen, t, ancestor);
    }
  }

  /** An entity satisfies an expected type when its primary type or any of its types is a subtype. */
  method EntityMatches(primary: string, types: seq<string>, expected: string, vocab: Vocab) returns (b: bool)
    ensures b <==> exists t <- [primary] + types :: t != "" && Reaches(Parents(vocab), t, expected)
  {
    var all := [primary] + types;
    for i := 0 to |all|
      invariant forall k :: 0 <= k < i ==> !(all[k] != "" && Reaches(Parents(vocab), all[k], expected))
    {
      b := IsSubtypeOf(all[i], expected, vocab);
      if b {
        assert all[i] in all;
        return;
      }
    }
    return false;
  }

  /** The spec is one that some type in the set gives the name. */
  ghost predicate Given(vocab: Vocab, types: set<string>, name: string, spec: PropertySpec) {
    exists t <- types :: t in vocab && (name, spec) in vocab[t].properties
  }

  class PropertyWalk {
    const vocab: Vocab
    var seen: set<string>
    var out: map<string, PropertySpec>

    constructor (vocab: Vocab)
      ensures this.vocab == vocab && seen == {} && out == map[]
    {
      this.vocab, seen, out := vocab, {}, map[];
    }

    /** The first type to name a property keeps it. */
    method AddProperties(t: string, ghost types: set<string>)
      requires t in vocab && t in types
      modifies this`out
      ensures out.Keys == old(out.Keys) + set p <- vocab[t].properties :: p.0
      ensures forall name <- old(out) :: out[name] == old(out)[name]
      ensures forall name <- out :: name in old(out) || (name, out[name]) in vocab[t].properties
    {
      var properties := vocab[t].properties;
      for i := 0 to |properties|
        invariant out.Keys == old(out.Keys) + set p <- properties[..i] :: p.0
        invariant forall name <- old(out) :: out[name] == old(out)[name]
        invariant forall name <- out :: name in old(out) || (name, out[name]) in properties
      {
        var (name, spec) := properties[i];
        if name !in out {
          out := out[name := spec];
        }
        assert properties[..i + 1] == properties[..i] + [properties[i]];
      }
      assert properties[..|properties|] == properties;
    }

    ghost predicate Valid()
      reads this
    {
      && (forall u <- seen :: forall name | Declares(vocab, u, name) :: name in out)
      && (forall name <- out :: Given(vocab, seen, name, out[name]))
    }

    method Walk(t: string)
      requires Valid()
      modifies this
      ensures Valid() && old(seen) <= seen && t in seen && AllReached(vocab, t, seen - old(seen))
      ensures Explored(vocab, seen - old(seen), seen)
      ensures forall name <- old(out) :: name in out && out[name] == old(out)[name]
      ensures t !in old(seen) && t in vocab ==> OwnFirst(vocab[t], old(out), out)
      decreases |vocab.Keys - seen|, 0
    {
      ReachesSelf(Parents(vocab), t);
      if t in seen {
        return;
      }
      ghost var before := seen;
      Enter(t);
      if t in vocab {
        Shrinks(vocab.Keys, before, seen, t);
        WalkParents(t, before);
      } else {
        assert seen - before == {t};
      }
    }

    /** Sees a type for the first time and takes its properties. */
    method Enter(t: string)
      requires Valid() && t !in seen
      modifies this
      ensures Valid() && seen == old(seen) + {t}
      ensures forall name <- old(out) :: name in out && out[name] == old(out)[name]
      ensures t in vocab ==> OwnFirst(vocab[t], old(out), out)
    {
      seen := seen + {t};
      if t in vocab {
        AddProperties(t, seen);
        forall p <- vocab[t].properties
          ensures p.0 in out && (p.0 in old(out) || (p.0, out[p.0]) in vocab[t].properties)
        {
          assert p.0 in set q <- vocab[t].properties :: q.0;
        }
      }
    }

    method WalkParents(t: string, ghost before: set<string>)
      requires Valid() && t in vocab && seen == before + {t}
      modifies this
      ensures Valid() && old(seen) <= seen && AllReached(vocab, t, seen - before)
      ensures Explored(vocab, seen - before, seen)
      ensures forall name <- old(out) :: name in out && out[name] == old(out)[name]
      decreases |vocab.Keys - seen|, 2
    {
      ReachesSelf(Parents(vocab), t);
      var parents := vocab[t].parents;
      for i := 0 to |parents|
        invariant Valid() && old(seen) <= seen && AllReached(vocab, t, seen - before)
        invariant Explored(vocab, seen - (before + {t}), seen)
        invariant forall k :: 0 <= k < i ==> parents[k] in seen
        invariant forall name <- old(out) :: name in out && out[name] == old(out)[name]
      {
        Fewer(vocab.Keys, old(seen), seen);
        WalkParent(t, parents[i], before);
      }
      ExploredToo(vocab, before, t, seen);
    }

    method WalkParent(t: string, parent: string, ghost before: set<string>)
      requires Valid() && parent in Parents(vocab)(t) && AllReached(vocab, t, seen - before)
      requires Explored(vocab, seen - (before + {t}), seen)
      modifies this
      ensures Valid() && old(seen) <= seen && parent in seen && AllReached(vocab, t, seen - before)
      ensures Explored(vocab, seen - (before + {t}), seen)
      ensures forall name <- old(out) :: name in out && out[name] == old(out)[name]
      decreases |vocab.Keys - seen|, 1
    {
      ghost var mid := seen;
      Walk(parent);
      ExploredMore(vocab, before + {t}, mid, seen);
      ReachedMore(vocab, t, parent, before, mid, seen);
    }
  }

  ghost predicate AllReached(vocab: Vocab, t: string, nodes: set<string>) {
    forall u <- nodes :: Reaches(Parents(vocab), t, u)
  }

  /** The type's own properties win over those of types met later. */
  ghost predicate OwnFirst(spec: TypeSpec, before: map<string, PropertySpec>, after: map<string, PropertySpec>) {
    forall p <- spec.properties :: p.0 in after && (p.0 in before || (p.0, after[p.0]) in spec.properties)
  }

  lemma ReachedMore(vocab: Vocab, t: string, parent: string, before: set<string>, mid: set<string>, after: set<string>)
    requires parent in Parents(vocab)(t) && AllReached(vocab, t, mid - before) && AllReached(vocab, parent, after - mid)
    ensures AllReached(vocab, t, after - before)
  {
    forall u <- after - before
      ensures Reaches(Parents(vocab), t, u)
    {
      if u in mid {
        assert u in mid - before;
      } else {
        assert u in after - mid;
        ReachesAfter(Parents(vocab), t, parent, u);
      }
    }
  }

  /** Exactly the properties that some reachable known type declares. */
  ghost predicate Collects(vocab: Vocab, t: string, out: map<string, PropertySpec>) {
    && (forall name :: name in out <==> exists u :: Reaches(Parents(vocab), t, u) && Declares(vocab, u, name))
    && (forall name <- out :: exists u :: Reaches(Parents(vocab), t, u) && Given(vocab, {u}, name, out[name]))
    && (t in vocab ==> OwnFirst(vocab[t], map[], out))
  }

  method CollectProperties(t: string, vocab: Vocab) returns (out: map<string, PropertySpec>)
    ensures Collects(vocab, t, out)
  {
    var walk := new PropertyWalk(vocab);
    walk.Walk(t);
    out := walk.out;
    assert walk.seen - {} == walk.seen;
    CollectedExactly(vocab, t, walk.seen, out);
  }

  lemma CollectedExactly(vocab: Vocab, t: string, seen: set<string>, out: map<string, PropertySpec>)
    requires t in seen && AllReached(vocab, t, seen) && Explored(vocab, seen, seen)
    requires forall u <- seen :: forall name | Declares(vocab, u, name) :: name in out
    requires forall name <- out :: Given(vocab, seen, name, out[name])
    ensures forall name :: name in out <==> exists u :: Reaches(Parents(vocab), t, u) && Declares(vocab, u, name)
    ensures forall name <- out :: exists u :: Reaches(Parents(vocab), t, u) && Given(vocab, {u}, name, out[name])
  {
    forall u, name | Reaches(Parents(vocab), t, u) && Declares(vocab, u, name)
      ensures name in out
    {
      ClosedHolds(Parents(vocab), seen, t, u);
    }
    forall name <- out
      ensures exists u ::
        Reaches(Parents(vocab), t, u) && Declares(vocab, u, name) && Given(vocab, {u}, name, out[name])
    {
      var u :| u in seen && u in vocab && (name, out[name]) in vocab[u].properties;
      assert Reaches(Parents(vocab), t, u);
      assert Declares(vocab, u, name) && Given(vocab, {u}, name, out[name]);
    }
  }

  /** A subtype has every property of its ancestors. */
  lemma SubtypeInherits(vocab: Vocab, sub: string, ancestor: string, own: map<string, PropertySpec>,
                        inherited: map<string, PropertySpec>)
    requires Reaches(Parents(vocab), sub, ancestor)
    requires Collects(vocab, sub, own) && Collects(vocab, ancestor, inherited)
    ensures inherited.Keys <= own.Keys
  {
    forall name <- inherited
      ensures name in own
    {
      var u :| Reaches(Parents(vocab), ancestor, u) && Declares(vocab, u, name);
      ReachesTransitive(Parents(vocab), sub, ancestor, u);
    }
  }
}
