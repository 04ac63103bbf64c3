/** Seeds of a crawl: the sources' lists merged by URL, and a category's list taken as it is. */
module SeedResolver {
  import opened Wrappers
  import opened Sequences

  datatype Seed = Seed(url: string, allowDiscovery: bool, lastmod: Option<string>)

  /** The seeds of one source, or nothing when resolving it failed. */
  type Source = Option<seq<Seed>>

  function SeedsOf(): Source -> seq<Seed> {
    (s: Source) => if s.Some? then s.value else []
  }

  function UrlOf(): Seed -> string {
    (s: Seed) => s.url
  }

  function Urls(seeds: seq<Seed>): seq<string> {
    Map(UrlOf(), seeds)
  }

  /** Adds a seed, or lets one with its URL be expanded too. */
  function Merge(seeds: seq<Seed>, seed: Seed): seq<Seed> {
    if seeds == [] then [seed]
    else if seeds[0].url == seed.url then
      [seeds[0].(allowDiscovery := seeds[0].allowDiscovery || seed.allowDiscovery)] + seeds[1..]
    else [seeds[0]] + Merge(seeds[1..], seed)
  }

  function MergeAll(all: seq<Seed>): seq<Seed> {
    if all == [] then [] else Merge(MergeAll(all[..|all| - 1]), all[|all| - 1])
  }

  method MergeSeed(seeds: seq<Seed>, seed: Seed) returns (merged: seq<Seed>)
    ensures merged == Merge(seeds, seed)
  {
    for i := 0 to |seeds|
      invariant forall k :: 0 <= k < i ==> seeds[k].url != seed.url
    {
      if seeds[i].url == seed.url {
        MergeAt(seeds, seed, i);
        return if seed.allowDiscovery then seeds[i := seeds[i].(allowDiscovery := true)] else seeds;
      }
    }
    MergeNew(seeds, seed);
    return seeds + [seed];
  }

  lemma {:induction false} MergeAt(seeds: seq<Seed>, seed: Seed, i: nat)
    requires i < |seeds| && seeds[i].url == seed.url && forall k :: 0 <= k < i ==> seeds[k].url != seed.url
    ensures Merge(seeds, seed) == seeds[i := seeds[i].(allowDiscovery := seeds[i].allowDiscovery ||
      seed.allowDiscovery)]
  {
    if i > 0 {
      MergeAt(seeds[1..], seed, i - 1);
    }
  }

  lemma {:induction false} MergeNew(seeds: seq<Seed>, seed: Seed)
    requires forall k :: 0 <= k < |seeds| ==> seeds[k].url != seed.url
    ensures Merge(seeds, seed) == seeds + [seed]
  {
    if seeds != [] {
      MergeNew(seeds[1..], seed);
    }
  }

  /** The loop over one source's seeds, after those seen before. */
  method MergeSource(ghost before: seq<Seed>, seeds: seq<Seed>, resolved: seq<Seed>) returns (merged: seq<Seed>)
    requires seeds == MergeAll(before)
    ensures merged == MergeAll(before + resolved)
  {
    merged := seeds;
    assert before + resolved[..0] == before;
    for j := 0 to |resolved|
      invariant merged == MergeAll(before + resolved[..j])
    {
      assert (before + resolved[..j + 1])[..|before| + j] == before + resolved[..j];
      merged := MergeSeed(merged, resolved[j]);
    }
    assert resolved[..|resolved|] == resolved;
  }

  method Resolve(sources: seq<Source>) returns (seeds: seq<Seed>)
    ensures seeds == MergeAll(Flat(SeedsOf(), sources))
  {
    seeds := [];
    for i := 0 to |sources|
      invariant seeds == MergeAll(Flat(SeedsOf(), sources[..i]))
    {
      ghost var before := Flat(SeedsOf(), sources[..i]);
      FlatNext(SeedsOf(), sources, i);
      if sources[i].Some? {
        seeds := MergeSource(before, seeds, sources[i].value);
      } else {
        assert before + [] == before;
      }
    }
    assert sources[..|sources|] == sources;
  }

  // ---------- what merging gives ----------

  lemma {:induction false} MergeUrls(seeds: seq<Seed>, seed: Seed)
    ensures Urls(Merge(seeds, seed)) == if seed.url in Urls(seeds) then Urls(seeds) else Urls(seeds) + [seed.url]
  {
    if seeds == [] {
      assert Urls([seed]) == [seed.url];
    } else {
      MergeUrls(seeds[1..], seed);
      assert Urls(seeds) == [seeds[0].url] + Urls(seeds[1..]);
      var merged := Merge(seeds, seed);
      assert Urls(merged) == [merged[0].url] + Urls(merged[1..]);
    }
  }

  /** The URLs of all occurrences, each where it first appears. */
  lemma {:induction false} MergedUrls(all: seq<Seed>)
    ensures Urls(MergeAll(all)) == Unique(Urls(all))
  {
    if all != [] {
      var n := |all| - 1;
      MergedUrls(all[..n]);
      MergeUrls(MergeAll(all[..n]), all[n]);
      MapSplit(UrlOf(), all[..n], [all[n]]);
      assert all == all[..n] + [all[n]] && Urls([all[n]]) == [all[n].url];
      UniqueAre(Urls(all[..n]));
      assert Urls(all)[..n] == Urls(all[..n]) && Urls(all)[n] == all[n].url;
    }
  }

  predicate Discovers(all: seq<Seed>, url: string) {
    exists s <- all :: s.url == url && s.allowDiscovery
  }

  lemma {:induction false} MergeDiscovers(seeds: seq<Seed>, seed: Seed, url: string)
    ensures Discovers(Merge(seeds, seed), url) <==> Discovers(seeds, url) || (seed.url == url && seed.allowDiscovery)
  {
    if seeds == [] {
      assert seed in [seed];
    } else {
      var merged := Merge(seeds, seed);
      DiscoversFirst(seeds, url);
      DiscoversFirst(merged, url);
      if seeds[0].url == seed.url {
        assert merged[1..] == seeds[1..];
      } else {
        MergeDiscovers(seeds[1..], seed, url);
        assert merged[1..] == Merge(seeds[1..], seed);
      }
    }
  }

  lemma DiscoversFirst(seeds: seq<Seed>, url: string)
    requires seeds != []
    ensures Discovers(seeds, url) <==> (seeds[0].url == url && seeds[0].allowDiscovery) || Discovers(seeds[1..], url)
  {
    assert seeds == [seeds[0]] + seeds[1..];
  }

  lemma {:induction false} MergedDiscovers(all: seq<Seed>, url: string)
    ensures Discovers(MergeAll(all), url) <==> Discovers(all, url)
  {
    if all != [] {
      var n := |all| - 1;
      MergedDiscovers(all[..n], url);
      MergeDiscovers(MergeAll(all[..n]), all[n], url);
      assert forall s :: s in all <==> s in all[..n] || s == all[n];
    }
  }

  /** A merged crawl has distinct seeds, one for each URL of a source that resolved, and a seed may be
      expanded exactly when some occurrence of its URL may. */
  lemma {:induction false} SeedsAreMerged(sources: seq<Source>)
    ensures var all := Flat(SeedsOf(), sources);
      && Distinct(Urls(MergeAll(all)))
      && (forall url :: url in Urls(MergeAll(all)) <==> url in Urls(all))
      && (forall url :: Discovers(MergeAll(all), url) <==> Discovers(all, url))
  {
    var all := Flat(SeedsOf(), sources);
    var urls := Urls(MergeAll(all));
    MergedUrls(all);
    UniqueAre(Urls(all));
    UniqueIsDistinct(Urls(all));
    forall url
      ensures Discovers(MergeAll(all), url) <==> Discovers(all, url)
    {
      MergedDiscovers(all, url);
    }
  }

  lemma {:induction false} UniqueIsDistinct(s: seq<string>)
    ensures Distinct(Unique(s))
  {
    if s != [] {
      var before, last := s[..|s| - 1], s[|s| - 1];
      UniqueIsDistinct(before);
      UniqueAre(before);
      if last !in before {
        assert forall i :: 0 <= i < |Unique(before)| ==> Unique(before)[i] in Unique(before);
      }
    }
  }

  // ---------- a category's list ----------

  /** The seeds of a sitemap's entries, in order; `normalize` gives nothing for an unusable URL. */
  function EntrySeeds(entries: seq<string>, normalize: string -> Option<string>): seq<Seed> {
    if entries == [] then []
    else
      var url := normalize(entries[0]);
      (if url.Some? && url.value != "" then [Seed(url.value, false, None)] else []) +
        EntrySeeds(entries[1..], normalize)
  }

  /** Both entries are usable and normalize to the same URL. */
  predicate Collide(a: string, b: string, normalize: string -> Option<string>) {
    normalize(a).Some? && normalize(a).value != "" && normalize(a) == normalize(b)
  }

  predicate NoneCollide(entries: seq<string>, normalize: string -> Option<string>) {
    forall i, j :: 0 <= i < j < |entries| ==> !Collide(entries[i], entries[j], normalize)
  }

  lemma {:induction false} EntryUrls(entries: seq<string>, normalize: string -> Option<string>, url: string)
    ensures url in Urls(EntrySeeds(entries, normalize)) <==>
      url != "" && exists i :: 0 <= i < |entries| && normalize(entries[i]) == Some(url)
  {
    if entries != [] {
      var rest := EntrySeeds(entries[1..], normalize);
      var first := if normalize(entries[0]).Some? && normalize(entries[0]).value != ""
                   then [Seed(normalize(entries[0]).value, false, None)] else [];
      EntryUrls(entries[1..], normalize, url);
      MapSplit(UrlOf(), first, rest);
      assert Urls(first) == if first == [] then [] else [first[0].url];
      if exists i :: 0 <= i < |entries[1..]| && normalize(entries[1..][i]) == Some(url) {
        var i :| 0 <= i < |entries[1..]| && normalize(entries[1..][i]) == Some(url);
        assert normalize(entries[i + 1]) == Some(url);
      }
      if exists i :: 0 <= i < |entries| && normalize(entries[i]) == Some(url) {
        var i :| 0 <= i < |entries| && normalize(entries[i]) == Some(url);
        assert i > 0 ==> normalize(entries[1..][i - 1]) == Some(url);
      }
    }
  }

  /** Distinctness of a list by its first element. */
  lemma FirstDistinct(url: string, rest: seq<string>)
    ensures Distinct([url] + rest) <==> url !in rest && Distinct(rest)
  {
    var all := [url] + rest;
    if Distinct(all) {
      assert forall i :: 0 <= i < |rest| ==> all[i + 1] == rest[i];
      assert url == all[0];
    }
  }

  lemma FirstCollides(entries: seq<string>, normalize: string -> Option<string>)
    requires entries != []
    ensures NoneCollide(entries, normalize) <==>
      NoneCollide(entries[1..], normalize) &&
      forall i :: 0 <= i < |entries[1..]| ==> !Collide(entries[0], entries[1..][i], normalize)
  {
    var tail := entries[1..];
    assert forall i :: 0 <= i < |tail| ==> tail[i] == entries[i + 1];
    if NoneCollide(tail, normalize) && forall i :: 0 <= i < |tail| ==> !Collide(entries[0], tail[i], normalize) {
      forall i, j | 0 <= i < j < |entries|
        ensures !Collide(entries[i], entries[j], normalize)
      {
        assert entries[j] == tail[j - 1] && (i > 0 ==> entries[i] == tail[i - 1]);
      }
    }
  }

  /** A category crawl is not de-duplicated: its seeds are distinct exactly when no two usable entries
      normalize to one URL. */
  lemma {:induction false} EntriesDistinct(entries: seq<string>, normalize: string -> Option<string>)
    ensures Distinct(Urls(EntrySeeds(entries, normalize))) <==> NoneCollide(entries, normalize)
  {
    if entries != [] {
      var url, rest := normalize(entries[0]), EntrySeeds(entries[1..], normalize);
      EntriesDistinct(entries[1..], normalize);
      FirstCollides(entries, normalize);
      if url.Some? && url.value != "" {
        var first := Seed(url.value, false, None);
        MapSplit(UrlOf(), [first], rest);
        assert Urls([first]) == [url.value];
        EntryUrls(entries[1..], normalize, url.value);
        FirstDistinct(url.value, Urls(rest));
      } else {
        assert [] + rest == rest;
      }
    }
  }

  /** Whatever else the normaliser does, two entries that it sends to one URL give that URL twice. */
  lemma EntriesRepeat(a: string, b: string, url: string, normalize: string -> Option<string>)
    requires url != "" && normalize(a) == normalize(b) == Some(url)
    ensures Urls(EntrySeeds([a, b], normalize)) == [url, url] && !Distinct(Urls(EntrySeeds([a, b], normalize)))
  {
    var first := Seed(url, false, None);
    assert [a, b][1..] == [b] && [b][1..] == [];
    assert EntrySeeds([b], normalize) == [first] + EntrySeeds([], normalize);
    assert EntrySeeds([a, b], normalize) == [first] + [first];
    MapSplit(UrlOf(), [first], [first]);
    assert Urls([first]) == [url];
    assert [url, url][0] == [url, url][1];
  }
}
