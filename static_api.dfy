/**
 * The static export: the dataset as loaded, sorted in place by population
 * (largest first), and grouped by region and by language code.
 */
module StaticApi {
  import opened Wrappers
  import opened Dataset

  // ---------------------------------------------------------------------
  // `data.sort((a, b) => b.population - a.population)`

  /** Largest population first. */
  predicate SortedByPopulation(s: seq<Country>) {
    forall k, l :: 0 <= k < l < |s| ==> s[k].population >= s[l].population
  }

  /** The first `n` elements of `a` are sorted, largest population first. */
  ghost predicate SortedPrefix(a: array<Country>, n: int)
    requires 0 <= n <= a.Length
    reads a
  {
    forall k, l :: 0 <= k < l < n ==> a[k].population >= a[l].population
  }

  /** Sorts the array in place, largest population first, keeping the same records. */
  method SortByPopulation(a: array<Country>)
    modifies a
    ensures SortedByPopulation(a[..])
    ensures multiset(a[..]) == multiset(old(a[..]))
  {
    for i := 0 to a.Length
      invariant SortedPrefix(a, i)
      invariant multiset(a[..]) == multiset(old(a[..]))
    {
      InsertAt(a, i);
    }
  }

  /**
   * Moves `a[i]` left past every smaller population, so that `a[..i + 1]`
   * is sorted and holds the records it held before; the rest of the array
   * is not touched.
   */
  method InsertAt(a: array<Country>, i: nat)
    requires i < a.Length && SortedPrefix(a, i)
    modifies a
    ensures SortedPrefix(a, i + 1)
    ensures multiset(a[..]) == multiset(old(a[..]))
    ensures multiset(a[..i + 1]) == multiset(old(a[..i + 1]))
    ensures a[i + 1..] == old(a[i + 1..])
  {
    var j := SiftLeft(a, i);
    forall k, l | 0 <= k < l <= i ensures a[k].population >= a[l].population {
      if l == j && k < j - 1 {
        assert a[k].population >= a[j - 1].population;
      }
    }
    assert a[i + 1..] == old(a[i + 1..]);
    PrefixMultiset(a[..], old(a[..]), i + 1);
  }

  /**
   * The swapping loop of an insertion step: `a[i]` ends at `j`, every
   * other pair of `a[..i + 1]` stays in order, and `a[j]` is in order with
   * both neighbours.
   */
  method SiftLeft(a: array<Country>, i: nat) returns (j: nat)
    requires i < a.Length && SortedPrefix(a, i)
    modifies a
    ensures j <= i
    ensures forall k, l :: 0 <= k < l <= i && k != j && l != j ==> a[k].population >= a[l].population
    ensures forall l :: j < l <= i ==> a[j].population >= a[l].population
    ensures j > 0 ==> a[j - 1].population >= a[j].population
    ensures multiset(a[..]) == multiset(old(a[..]))
    ensures forall k :: i < k < a.Length ==> a[k] == old(a[k])
  {
    j := i;
    while j > 0 && a[j - 1].population < a[j].population
      invariant 0 <= j <= i
      invariant forall k, l :: 0 <= k < l <= i && k != j && l != j ==> a[k].population >= a[l].population
      invariant forall l :: j < l <= i ==> a[j].population >= a[l].population
      invariant multiset(a[..]) == multiset(old(a[..]))
      invariant forall k :: i < k < a.Length ==> a[k] == old(a[k])
    {
      Swap(a, j - 1, j);
      j := j - 1;
    }
  }

  /** Two arrangements of the same records that agree past `n` hold the same records before `n`. */
  lemma PrefixMultiset(s: seq<Country>, t: seq<Country>, n: nat)
    requires n <= |s| == |t| && multiset(s) == multiset(t) && s[n..] == t[n..]
    ensures multiset(s[..n]) == multiset(t[..n])
  {
    var a, b, c := s[..n], t[..n], s[n..];
    assert s == a + c && t == b + c;
    forall x ensures multiset(a)[x] == multiset(b)[x] {
      assert multiset(s)[x] == multiset(a)[x] + multiset(c)[x];
      assert multiset(t)[x] == multiset(b)[x] + multiset(c)[x];
    }
    assert multiset(a) == multiset(b);
  }

  /** Exchanges two elements, keeping the same records. */
  method Swap(a: array<Country>, x: nat, y: nat)
    requires x < a.Length && y < a.Length
    modifies a
    ensures a[x] == old(a[y]) && a[y] == old(a[x])
    ensures forall k :: 0 <= k < a.Length && k != x && k != y ==> a[k] == old(a[k])
    ensures multiset(a[..]) == multiset(old(a[..]))
  {
    a[x], a[y] := a[y], a[x];
  }

  // ---------------------------------------------------------------------
  // `countries-by-region.json`

  /** `country.region || 'Unknown'`. */
  function RegionKey(c: Country): (r: string)
    ensures r != ""
    ensures c.region.Some? && c.region.value != "" ==> r == c.region.value
    ensures c.region.None? || c.region.value == "" ==> r == "Unknown"
  {
    if c.region.Some? && c.region.value != "" then c.region.value else "Unknown"
  }

  /** The records whose region key is `k`, in dataset order. */
  function InRegion(xs: seq<Country>, k: string): seq<Country>
    decreases |xs|
  {
    if xs == [] then []
    else InRegion(xs[..|xs| - 1], k) + (if RegionKey(xs[|xs| - 1]) == k then [xs[|xs| - 1]] else [])
  }

  function RegionKeys(xs: seq<Country>): set<string>
    decreases |xs|
  {
    if xs == [] then {} else RegionKeys(xs[..|xs| - 1]) + {RegionKey(xs[|xs| - 1])}
  }

  /** Building the region buckets with `reduce`, one record at a time. */
  method GroupByRegion(xs: seq<Country>) returns (m: map<string, seq<Country>>)
    ensures m.Keys == RegionKeys(xs)
    ensures forall k :: k in m ==> m[k] == InRegion(xs, k)
  {
    m := map[];
    for i := 0 to |xs|
      invariant m.Keys == RegionKeys(xs[..i])
      invariant forall k :: k in m ==> m[k] == InRegion(xs[..i], k)
    {
      var c := xs[i];
      var region := RegionKey(c);
      assert xs[..i + 1][..i] == xs[..i] && xs[..i + 1][i] == c;
      if region !in m {
        InRegionAbsent(xs[..i], region);
        m := m[region := []];
      }
      m := m[region := m[region] + [c]];
    }
    assert xs[..|xs|] == xs;
  }

  lemma {:induction false} InRegionAbsent(xs: seq<Country>, k: string)
    requires k !in RegionKeys(xs)
    ensures InRegion(xs, k) == []
    decreases |xs|
  {
    if xs != [] {
      InRegionAbsent(xs[..|xs| - 1], k);
    }
  }

  /** A bucket holds exactly the dataset's records with that region key. */
  lemma {:induction false} InRegionMembers(xs: seq<Country>, k: string, c: Country)
    ensures c in InRegion(xs, k) <==> c in xs && RegionKey(c) == k
    decreases |xs|
  {
    if xs != [] {
      var init := xs[..|xs| - 1];
      InRegionMembers(init, k, c);
      assert xs == init + [xs[|xs| - 1]];
    }
  }

  /** The keys are the region keys the records carry. */
  lemma {:induction false} RegionKeysMembers(xs: seq<Country>, k: string)
    ensures k in RegionKeys(xs) <==> exists i :: 0 <= i < |xs| && RegionKey(xs[i]) == k
    decreases |xs|
  {
    if xs != [] {
      var init := xs[..|xs| - 1];
      RegionKeysMembers(init, k);
      if exists i :: 0 <= i < |init| && RegionKey(init[i]) == k {
        var i :| 0 <= i < |init| && RegionKey(init[i]) == k;
        assert xs[i] == init[i];
      }
      if exists i :: 0 <= i < |xs| && RegionKey(xs[i]) == k {
        var i :| 0 <= i < |xs| && RegionKey(xs[i]) == k;
        if i < |init| {
          assert init[i] == xs[i];
        }
      }
    }
  }

  /** The bucket sizes add up to the number of records. */
  lemma {:induction false} RegionSizes(xs: seq<Country>)
    ensures |xs| == SumSizes(xs, RegionKeys(xs))
    decreases |xs|
  {
    if xs != [] {
      var init := xs[..|xs| - 1];
      var last := xs[|xs| - 1];
      RegionSizes(init);
      var keys := RegionKeys(init);
      var k := RegionKey(last);
      if k in keys {
        assert RegionKeys(xs) == keys;
        assert |InRegion(xs, k)| == |InRegion(init, k)| + 1;
        SumSizesSplit(xs, keys, k);
        SumSizesSplit(init, keys, k);
        SumSizesSame(xs, init, keys - {k});
      } else {
        assert RegionKeys(xs) == keys + {k};
        SumSizesSplit(xs, keys + {k}, k);
        assert (keys + {k}) - {k} == keys;
        SumSizesSame(xs, init, keys);
        InRegionAbsent(init, k);
      }
    }
  }

  /** The total size of the buckets named in `keys`. */
  ghost function SumSizes(xs: seq<Country>, keys: set<string>): nat
    decreases keys
  {
    if keys == {} then 0
    else
      var k :| k in keys;
      |InRegion(xs, k)| + SumSizes(xs, keys - {k})
  }

  lemma {:induction false} SumSizesSplit(xs: seq<Country>, keys: set<string>, k: string)
    requires k in keys
    ensures SumSizes(xs, keys) == |InRegion(xs, k)| + SumSizes(xs, keys - {k})
    decreases keys
  {
    var j :| j in keys && SumSizes(xs, keys) == |InRegion(xs, j)| + SumSizes(xs, keys - {j});
    if j != k {
      SumSizesSplit(xs, keys - {j}, k);
      SumSizesSplit(xs, keys - {k}, j);
      assert keys - {j} - {k} == keys - {k} - {j};
    }
  }

  /** Dropping the last record changes no bucket but its own. */
  lemma {:induction false} SumSizesSame(xs: seq<Country>, init: seq<Country>, keys: set<string>)
    requires xs != [] && init == xs[..|xs| - 1]
    requires RegionKey(xs[|xs| - 1]) !in keys
    ensures SumSizes(xs, keys) == SumSizes(init, keys)
    decreases keys
  {
    if keys != {} {
      var k :| k in keys;
      SumSizesSplit(xs, keys, k);
      SumSizesSplit(init, keys, k);
      SumSizesSame(xs, init, keys - {k});
    }
  }

  // ---------------------------------------------------------------------
  // `countries-by-language.json`

  /** The records that list language code `code`, in dataset order. */
  function WithLanguage(xs: seq<Country>, code: string): seq<Country>
    decreases |xs|
  {
    if xs == [] then []
    else WithLanguage(xs[..|xs| - 1], code) + (if code in LanguageCodes(xs[|xs| - 1]) then [xs[|xs| - 1]] else [])
  }

  function LanguageKeys(xs: seq<Country>): set<string>
    decreases |xs|
  {
    if xs == [] then {} else LanguageKeys(xs[..|xs| - 1]) + LanguageCodes(xs[|xs| - 1])
  }

  lemma {:induction false} WithLanguageAbsent(xs: seq<Country>, code: string)
    requires code !in LanguageKeys(xs)
    ensures WithLanguage(xs, code) == []
    decreases |xs|
  {
    if xs != [] {
      WithLanguageAbsent(xs[..|xs| - 1], code);
    }
  }

  /**
   * Building the language buckets with `reduce`: each record is pushed onto
   * the bucket of every code in its `languages` object.
   */
  method GroupByLanguage(xs: seq<Country>) returns (m: map<string, seq<Country>>)
    ensures m.Keys == LanguageKeys(xs)
    ensures forall k :: k in m ==> m[k] == WithLanguage(xs, k)
  {
    m := map[];
    for i := 0 to |xs|
      invariant m.Keys == LanguageKeys(xs[..i])
      invariant forall k :: k in m ==> m[k] == WithLanguage(xs[..i], k)
    {
      assert xs[..i + 1] == xs[..i] + [xs[i]];
      m := PushLanguages(m, xs[..i], xs[i]);
    }
    assert xs[..|xs|] == xs;
  }

  /** One more record joins the buckets of its own codes and no other. */
  lemma WithLanguageSnoc(before: seq<Country>, c: Country, code: string)
    ensures WithLanguage(before + [c], code) ==
      WithLanguage(before, code) + (if code in LanguageCodes(c) then [c] else [])
    ensures LanguageKeys(before + [c]) == LanguageKeys(before) + LanguageCodes(c)
  {
    assert (before + [c])[..|before + [c]| - 1] == before;
  }

  /** The `forEach` over one record's languages: the record joins the bucket of each of its codes. */
  method PushLanguages(m: map<string, seq<Country>>, before: seq<Country>, c: Country)
    returns (m': map<string, seq<Country>>)
    requires m.Keys == LanguageKeys(before)
    requires forall k :: k in m ==> m[k] == WithLanguage(before, k)
    ensures m'.Keys == LanguageKeys(before + [c])
    ensures forall k :: k in m' ==> m'[k] == WithLanguage(before + [c], k)
  {
    var codes := LanguageCodes(c);
    m' := m;
    var rest := codes;
    while rest != {}
      invariant rest <= codes
      invariant m'.Keys == LanguageKeys(before) + (codes - rest)
      invariant forall k :: k in m' && k in codes - rest ==> m'[k] == WithLanguage(before, k) + [c]
      invariant forall k :: k in m' && k !in codes - rest ==> m'[k] == WithLanguage(before, k)
      decreases rest
    {
      var code :| code in rest;
      var bucket: seq<Country> := [];
      if code in m' {
        bucket := m'[code];
      } else {
        WithLanguageAbsent(before, code);
      }
      m' := m'[code := bucket + [c]];
      rest := rest - {code};
    }
    WithLanguageSnoc(before, c, "");
    forall k | k in m'
      ensures m'[k] == WithLanguage(before + [c], k)
    {
      WithLanguageSnoc(before, c, k);
    }
  }

  /** A language bucket holds exactly the dataset's records listing that code. */
  lemma {:induction false} WithLanguageMembers(xs: seq<Country>, code: string, c: Country)
    ensures c in WithLanguage(xs, code) <==> c in xs && code in LanguageCodes(c)
    decreases |xs|
  {
    if xs != [] {
      var init := xs[..|xs| - 1];
      WithLanguageMembers(init, code, c);
      assert xs == init + [xs[|xs| - 1]];
    }
  }

  /** The keys are the codes some record lists. */
  lemma {:induction false} LanguageKeysMembers(xs: seq<Country>, code: string)
    ensures code in LanguageKeys(xs) <==> exists i :: 0 <= i < |xs| && code in LanguageCodes(xs[i])
    decreases |xs|
  {
    if xs != [] {
      var init := xs[..|xs| - 1];
      LanguageKeysMembers(init, code);
      if exists i :: 0 <= i < |init| && code in LanguageCodes(init[i]) {
        var i :| 0 <= i < |init| && code in LanguageCodes(init[i]);
        assert xs[i] == init[i];
      }
      if exists i :: 0 <= i < |xs| && code in LanguageCodes(xs[i]) {
        var i :| 0 <= i < |xs| && code in LanguageCodes(xs[i]);
        if i < |init| {
          assert init[i] == xs[i];
        }
      }
    }
  }

  // ---------------------------------------------------------------------
  // The four files.

  datatype Endpoints = Endpoints(
    allCountries: seq<Country>,
    byPopulation: seq<Country>,
    byRegion: map<string, seq<Country>>,
    byLanguage: map<string, seq<Country>>)

  /**
   * The `endpoints` object. `all-countries.json` is the same array that
   * `sort` reorders in place, so it is written sorted too, and both
   * groupings run over the sorted array.
   */
  method BuildEndpoints(data: array<Country>) returns (e: Endpoints)
    modifies data
    ensures multiset(data[..]) == multiset(old(data[..]))
    ensures SortedByPopulation(data[..])
    ensures e.allCountries == data[..] && e.byPopulation == data[..]
    ensures e.byRegion.Keys == RegionKeys(data[..])
    ensures forall k :: k in e.byRegion ==> e.byRegion[k] == InRegion(data[..], k)
    ensures e.byLanguage.Keys == LanguageKeys(data[..])
    ensures forall k :: k in e.byLanguage ==> e.byLanguage[k] == WithLanguage(data[..], k)
  {
    SortByPopulation(data);
    var sorted := data[..];
    var regions := GroupByRegion(sorted);
    var languages := GroupByLanguage(sorted);
    e := Endpoints(sorted, sorted, regions, languages);
  }

  /** The sorted file holds the same records as the dataset file would have before sorting. */
  lemma SortedKeepsRecords(before: seq<Country>, after: seq<Country>, c: Country)
    requires multiset(after) == multiset(before)
    ensures c in after <==> c in before
  {
    assert c in after <==> c in multiset(after);
    assert c in before <==> c in multiset(before);
  }

  /** Each record sits in exactly one region bucket: the one of its own region key. */
  lemma OneRegionBucket(xs: seq<Country>, m: map<string, seq<Country>>, c: Country, k: string)
    requires m.Keys == RegionKeys(xs)
    requires forall j :: j in m ==> m[j] == InRegion(xs, j)
    requires c in xs
    ensures RegionKey(c) in m && c in m[RegionKey(c)]
    ensures k in m && c in m[k] ==> k == RegionKey(c)
  {
    var i :| 0 <= i < |xs| && xs[i] == c;
    RegionKeysMembers(xs, RegionKey(c));
    InRegionMembers(xs, RegionKey(c), c);
    InRegionMembers(xs, k, c);
  }
}
