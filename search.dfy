/**
 * The `/api/countries/search` handler: parameter validation, the filter
 * chain and the response envelope. The handler narrows a copy of the
 * dataset through one `filter` per active parameter, in a fixed order;
 * here each active parameter becomes a `Step` and the chain is run over
 * the list of steps.
 */
module Search {
  import opened Wrappers
  import opened Text
  import opened Numbers
  import opened Dataset
  import opened Responses
  import opened Paging
  import opened Seqs

  /** The request's query string, already decoded; an absent parameter is `None`. */
  datatype SearchQuery = SearchQuery(
    name: Option<string>,
    population: Option<string>,
    areaFrom: Option<string>,
    areaTo: Option<string>,
    regions: Option<string>,
    continents: Option<string>,
    languages: Option<string>,
    currencies: Option<string>,
    independent: Option<string>,
    timezones: Option<string>,
    unMember: Option<string>,
    landlocked: Option<string>,
    page: Option<string>,
    limit: Option<string>)

  /** A query string value is truthy when present and not empty. */
  predicate Truthy(p: Option<string>) {
    p.Some? && p.value != ""
  }

  /** A numeric parameter passes when it is not truthy or reads as a non-negative number. */
  predicate NumericOk(p: Option<string>) {
    !Truthy(p) || (ParseNumber(p.value).Some? && ParseNumber(p.value).value >= 0)
  }

  /** `validateSearchParams`: the first failing field, in the order population, areaFrom, areaTo. */
  function Validate(q: SearchQuery): (r: Option<Failure>)
    ensures r.None? <==> NumericOk(q.population) && NumericOk(q.areaFrom) && NumericOk(q.areaTo)
    ensures r.Some? ==> r.value.Status() == 400
  {
    if !NumericOk(q.population) then Some(BadPopulation)
    else if !NumericOk(q.areaFrom) then Some(BadAreaFrom)
    else if !NumericOk(q.areaTo) then Some(BadAreaTo)
    else None
  }

  /**
   * A query passes exactly when each of the three numeric parameters is
   * absent, empty or a non-negative number; a failure is a 400 naming the
   * first bad parameter in the order population, areaFrom, areaTo.
   */
  lemma ValidateCases(q: SearchQuery)
    ensures Validate(q).None? <==>
      forall p :: p in [q.population, q.areaFrom, q.areaTo] && Truthy(p) ==>
        ParseNumber(p.value).Some? && ParseNumber(p.value).value >= 0
    ensures Validate(q).Some? ==> Validate(q).value.Status() == 400
    ensures Validate(q) == Some(BadPopulation) <==> !NumericOk(q.population)
    ensures Validate(q) == Some(BadAreaFrom) <==> NumericOk(q.population) && !NumericOk(q.areaFrom)
    ensures Validate(q) == Some(BadAreaTo) <==>
      NumericOk(q.population) && NumericOk(q.areaFrom) && !NumericOk(q.areaTo)
  {
    if !NumericOk(q.population) {
      assert q.population in [q.population, q.areaFrom, q.areaTo];
    } else if !NumericOk(q.areaFrom) {
      assert q.areaFrom in [q.population, q.areaFrom, q.areaTo];
    } else if !NumericOk(q.areaTo) {
      assert q.areaTo in [q.population, q.areaFrom, q.areaTo];
    }
  }

  /** `population=invalid` is rejected with status 400 and the population message. */
  lemma InvalidPopulationRejected(q: SearchQuery)
    requires q.population == Some("invalid")
    ensures Validate(q) == Some(BadPopulation)
    ensures Validate(q).value.Status() == 400
    ensures Validate(q).value.Message() == "Некорректное значение населения"
  {
    ParseRejects("invalid");
  }

  /** The `UTC HH:MM` form of a requested time zone becomes `UTC+HH:MM` (first occurrence only). */
  function NormalizeTimezone(tz: string): (r: string)
    ensures |r| == |tz|
  {
    ReplaceFirst(tz, "UTC ", "UTC+")
  }

  lemma NormalizeSpaceForm(rest: string)
    ensures NormalizeTimezone("UTC " + rest) == "UTC+" + rest
  {
    ReplaceFirstAtStart("UTC ", rest, "UTC+");
  }

  /** One `filter` of the chain, with the parameter value it was built from. */
  datatype Step =
    | ByName(query: string)             // already lower-cased
    | ByPopulation(target: int)
    | ByAreaFrom(bound: int)
    | ByAreaTo(bound: int)
    | ByRegion(regions: seq<string>)
    | ByContinent(continents: seq<string>)
    | ByLanguage(languages: seq<string>)
    | ByCurrency(currencies: seq<string>)
    | ByIndependent(independent: bool)
    | ByTimezone(timezones: seq<string>)  // already normalised
    | ByUnMember(unMember: bool)
    | ByLandlocked(landlocked: bool)

  /**
   * The callback of one `filter` on one record: `Some(keep)`, or `None`
   * where the callback throws because the record lacks `continents` or
   * `timezones`.
   */
  function Evaluate(s: Step, c: Country): (r: Option<bool>)
    ensures r.None? <==> (s.ByContinent? && c.continents.None?) || (s.ByTimezone? && c.timezones.None?)
  {
    match s
    case ByName(n) => Some(Includes(Lower(c.common), n) || Includes(Lower(c.official), n))
    case ByPopulation(t) => Some(0.9 * (t as real) <= c.population as real <= 1.1 * (t as real))
    case ByAreaFrom(b) => Some(c.area >= b as real)
    case ByAreaTo(b) => Some(c.area <= b as real)
    case ByRegion(list) => Some(c.region.Some? && c.region.value in list)
    case ByContinent(list) =>
      if c.continents.None? then None else Some(exists x :: x in c.continents.value && x in list)
    case ByLanguage(list) => Some(exists l :: l in LanguageCodes(c) && l in list)
    case ByCurrency(list) => Some(exists k :: k in CurrencyCodes(c) && k in list)
    case ByIndependent(b) => Some(c.independent == b)
    case ByTimezone(list) =>
      if c.timezones.None? then None else Some(exists t :: t in list && t in c.timezones.value)
    case ByUnMember(b) => Some(c.unMember == b)
    case ByLandlocked(b) => Some(c.landlocked == b)
  }

  predicate Holds(s: Step, c: Country) {
    Evaluate(s, c) == Some(true)
  }

  predicate HoldsAll(steps: seq<Step>, c: Country) {
    forall k :: 0 <= k < |steps| ==> Holds(steps[k], c)
  }

  function NormalizeAll(tzs: seq<string>): seq<string> {
    seq(|tzs|, i requires 0 <= i < |tzs| => NormalizeTimezone(tzs[i]))
  }

  /** The steps of a validated query, in the order the handler applies its filters. */
  function Steps(q: SearchQuery): seq<Step>
    requires Validate(q).None?
  {
    FrontSteps(q) + SetSteps(q) + BackSteps(q)
  }

  /** The name, population, areaFrom and areaTo steps. */
  function FrontSteps(q: SearchQuery): seq<Step>
    requires Validate(q).None?
  {
    NameStep(q) + NumberSteps(q)
  }

  function NumberSteps(q: SearchQuery): seq<Step>
    requires Validate(q).None?
  {
    PopulationStep(q) + AreaFromStep(q) + AreaToStep(q)
  }

  /** The independent, timezones, unMember and landlocked steps. */
  function BackSteps(q: SearchQuery): seq<Step> {
    IndependentStep(q) + TimezoneStep(q) + UnMemberStep(q) + LandlockedStep(q)
  }

  function NameStep(q: SearchQuery): seq<Step> {
    if Truthy(q.name) then [ByName(Lower(q.name.value))] else []
  }

  function PopulationStep(q: SearchQuery): seq<Step>
    requires NumericOk(q.population)
  {
    if Truthy(q.population) then [ByPopulation(ParseNumber(q.population.value).value)] else []
  }

  function AreaFromStep(q: SearchQuery): seq<Step>
    requires NumericOk(q.areaFrom)
  {
    if Truthy(q.areaFrom) then [ByAreaFrom(ParseNumber(q.areaFrom.value).value)] else []
  }

  function AreaToStep(q: SearchQuery): seq<Step>
    requires NumericOk(q.areaTo)
  {
    if Truthy(q.areaTo) then [ByAreaTo(ParseNumber(q.areaTo.value).value)] else []
  }

  /** The regions, continents, languages and currencies steps, in that order. */
  function SetSteps(q: SearchQuery): seq<Step> {
    RegionStep(q) + ContinentStep(q) + LanguageStep(q) + CurrencyStep(q)
  }

  function RegionStep(q: SearchQuery): seq<Step> {
    if Truthy(q.regions) then [ByRegion(Split(q.regions.value, ','))] else []
  }

  function ContinentStep(q: SearchQuery): seq<Step> {
    if Truthy(q.continents) then [ByContinent(Split(q.continents.value, ','))] else []
  }

  function LanguageStep(q: SearchQuery): seq<Step> {
    if Truthy(q.languages) then [ByLanguage(Split(q.languages.value, ','))] else []
  }

  function CurrencyStep(q: SearchQuery): seq<Step> {
    if Truthy(q.currencies) then [ByCurrency(Split(q.currencies.value, ','))] else []
  }

  function IndependentStep(q: SearchQuery): seq<Step> {
    if q.independent.Some? then [ByIndependent(q.independent.value == "true")] else []
  }

  function TimezoneStep(q: SearchQuery): seq<Step> {
    if Truthy(q.timezones) then [ByTimezone(NormalizeAll(Split(q.timezones.value, ',')))] else []
  }

  function UnMemberStep(q: SearchQuery): seq<Step> {
    if q.unMember.Some? then [ByUnMember(q.unMember.value == "true")] else []
  }

  function LandlockedStep(q: SearchQuery): seq<Step> {
    if q.landlocked.Some? then [ByLandlocked(q.landlocked.value == "true")] else []
  }

  // ---------------------------------------------------------------------
  // What a query asks for, stated per dimension.

  /** `needle` occurs in `hay` when both are lower-cased. */
  predicate ContainsIgnoringCase(hay: string, needle: string) {
    exists i :: 0 <= i <= |hay| && OccursAt(Lower(needle), Lower(hay), i)
  }

  /** Within ten per cent of the target, both ends included. */
  predicate NearPopulation(c: Country, target: int) {
    9 * target <= 10 * c.population && 10 * c.population <= 11 * target
  }

  predicate AdmitsName(q: SearchQuery, c: Country) {
    Truthy(q.name) ==>
      ContainsIgnoringCase(c.common, q.name.value) || ContainsIgnoringCase(c.official, q.name.value)
  }

  predicate AdmitsNumbers(q: SearchQuery, c: Country) {
    && (Truthy(q.population) ==>
          ParseNumber(q.population.value).Some? && NearPopulation(c, ParseNumber(q.population.value).value))
    && (Truthy(q.areaFrom) ==>
          ParseNumber(q.areaFrom.value).Some? && c.area >= ParseNumber(q.areaFrom.value).value as real)
    && (Truthy(q.areaTo) ==>
          ParseNumber(q.areaTo.value).Some? && c.area <= ParseNumber(q.areaTo.value).value as real)
  }

  /** The record's region is exactly one of the listed ones. */
  predicate AdmitsRegion(q: SearchQuery, c: Country) {
    Truthy(q.regions) ==> c.region.Some? && c.region.value in Split(q.regions.value, ',')
  }

  /** Continents, languages and currencies: any of the record's values is listed. */
  predicate AdmitsContinent(q: SearchQuery, c: Country) {
    Truthy(q.continents) ==>
      c.continents.Some? && exists x :: x in c.continents.value && x in Split(q.continents.value, ',')
  }

  predicate AdmitsLanguage(q: SearchQuery, c: Country) {
    Truthy(q.languages) ==> exists l :: l in LanguageCodes(c) && l in Split(q.languages.value, ',')
  }

  predicate AdmitsCurrency(q: SearchQuery, c: Country) {
    Truthy(q.currencies) ==> exists k :: k in CurrencyCodes(c) && k in Split(q.currencies.value, ',')
  }

  predicate AdmitsSets(q: SearchQuery, c: Country) {
    AdmitsRegion(q, c) && AdmitsContinent(q, c) && AdmitsLanguage(q, c) && AdmitsCurrency(q, c)
  }

  /** Some requested time zone, normalised, is one of the record's. */
  predicate AdmitsTimezone(q: SearchQuery, c: Country) {
    Truthy(q.timezones) ==>
      c.timezones.Some? &&
      exists t :: t in Split(q.timezones.value, ',') && NormalizeTimezone(t) in c.timezones.value
  }

  /** A flag parameter present with any value keeps the records whose flag is `value == "true"`. */
  predicate AdmitsFlags(q: SearchQuery, c: Country) {
    && (q.independent.Some? ==> c.independent == (q.independent.value == "true"))
    && (q.unMember.Some? ==> c.unMember == (q.unMember.value == "true"))
    && (q.landlocked.Some? ==> c.landlocked == (q.landlocked.value == "true"))
  }

  /** Every active parameter of `q` is satisfied by `c`. */
  predicate Admits(q: SearchQuery, c: Country) {
    AdmitsName(q, c) && AdmitsNumbers(q, c) && AdmitsSets(q, c) && AdmitsTimezone(q, c) && AdmitsFlags(q, c)
  }

  /** The records of `xs` that `q` admits, in their original order. */
  function Kept(xs: seq<Country>, q: SearchQuery): seq<Country>
    decreases |xs|
  {
    if xs == [] then [] else (if Admits(q, xs[0]) then [xs[0]] else []) + Kept(xs[1..], q)
  }

  /** `ys` is `xs` with some elements left out, the rest in their order. */
  predicate IsSubsequence<T(==)>(ys: seq<T>, xs: seq<T>)
    decreases |xs|
  {
    if ys == [] then true
    else if xs == [] then false
    else (ys[0] == xs[0] && IsSubsequence(ys[1..], xs[1..])) || IsSubsequence(ys, xs[1..])
  }

  lemma {:induction false} KeptMembers(xs: seq<Country>, q: SearchQuery, c: Country)
    ensures c in Kept(xs, q) <==> c in xs && Admits(q, c)
    decreases |xs|
  {
    if xs != [] {
      KeptMembers(xs[1..], q, c);
      assert xs == [xs[0]] + xs[1..];
    }
  }

  lemma {:induction false} KeptSubsequence(xs: seq<Country>, q: SearchQuery)
    ensures IsSubsequence(Kept(xs, q), xs)
    decreases |xs|
  {
    if xs != [] {
      KeptSubsequence(xs[1..], q);
      var rest := Kept(xs[1..], q);
      if Admits(q, xs[0]) {
        assert Kept(xs, q) == [xs[0]] + rest;
        assert ([xs[0]] + rest)[1..] == rest;
      } else {
        assert Kept(xs, q) == rest;
      }
    }
  }

  // ---------------------------------------------------------------------
  // The chain of filters.

  /** `xs.filter(...)` for one step: `None` when the callback throws on some record. */
  function Narrow(xs: seq<Country>, s: Step): (r: Option<seq<Country>>)
    ensures r.Some? ==> |r.value| <= |xs| && forall c :: c in r.value ==> c in xs
    decreases |xs|
  {
    if xs == [] then Some([])
    else
      match Evaluate(s, xs[0])
      case None => None
      case Some(keep) =>
        match Narrow(xs[1..], s)
        case None => None
        case Some(rest) => Some((if keep then [xs[0]] else []) + rest)
  }

  /** The steps applied one after the other; `None` once one of them throws. */
  function Chain(xs: seq<Country>, steps: seq<Step>): (r: Option<seq<Country>>)
    ensures r.Some? ==> |r.value| <= |xs| && forall c :: c in r.value ==> c in xs
    decreases |steps|
  {
    if steps == [] then Some(xs)
    else
      match Narrow(xs, steps[0])
      case None => None
      case Some(ys) => Chain(ys, steps[1..])
  }

  /** The records of `xs` that every step keeps. */
  function Selected(xs: seq<Country>, steps: seq<Step>): seq<Country>
    decreases |xs|
  {
    if xs == [] then [] else (if HoldsAll(steps, xs[0]) then [xs[0]] else []) + Selected(xs[1..], steps)
  }

  lemma {:induction false} SelectedMembers(xs: seq<Country>, steps: seq<Step>, c: Country)
    ensures c in Selected(xs, steps) <==> c in xs && HoldsAll(steps, c)
    decreases |xs|
  {
    if xs != [] {
      SelectedMembers(xs[1..], steps, c);
      assert xs == [xs[0]] + xs[1..];
    }
  }

  lemma HoldsAllAppend(a: seq<Step>, b: seq<Step>, c: Country)
    ensures HoldsAll(a + b, c) <==> HoldsAll(a, c) && HoldsAll(b, c)
  {
    if HoldsAll(a, c) && HoldsAll(b, c) {
      forall k | 0 <= k < |a + b| ensures Holds((a + b)[k], c) {
        if k >= |a| {
          assert (a + b)[k] == b[k - |a|];
        }
      }
    }
    if HoldsAll(a + b, c) {
      forall k | 0 <= k < |a| ensures Holds(a[k], c) {
        assert (a + b)[k] == a[k];
      }
      forall k | 0 <= k < |b| ensures Holds(b[k], c) {
        assert (a + b)[|a| + k] == b[k];
      }
    }
  }

  lemma HoldsAllSingle(s: Step, c: Country)
    ensures HoldsAll([s], c) <==> Holds(s, c)
  {
    assert [s][0] == s;
  }

  lemma {:induction false} NarrowSelects(xs: seq<Country>, s: Step)
    requires Narrow(xs, s).Some?
    ensures Narrow(xs, s).value == Selected(xs, [s])
    decreases |xs|
  {
    if xs != [] {
      NarrowSelects(xs[1..], s);
      HoldsAllSingle(s, xs[0]);
    }
  }

  lemma {:induction false} SelectedCompose(xs: seq<Country>, s: Step, rest: seq<Step>)
    ensures Selected(Selected(xs, [s]), rest) == Selected(xs, [s] + rest)
    decreases |xs|
  {
    if xs != [] {
      SelectedCompose(xs[1..], s, rest);
      HoldsAllAppend([s], rest, xs[0]);
      HoldsAllSingle(s, xs[0]);
      var tail := Selected(xs[1..], [s]);
      if Holds(s, xs[0]) {
        assert Selected(xs, [s]) == [xs[0]] + tail;
        assert ([xs[0]] + tail)[1..] == tail;
      } else {
        assert Selected(xs, [s]) == tail;
      }
    }
  }

  lemma {:induction false} SelectedNoSteps(xs: seq<Country>)
    ensures Selected(xs, []) == xs
    decreases |xs|
  {
    if xs != [] {
      SelectedNoSteps(xs[1..]);
      assert xs == [xs[0]] + xs[1..];
    }
  }

  /** A chain that does not throw keeps exactly the records every step keeps, in order. */
  lemma {:induction false} ChainSelects(xs: seq<Country>, steps: seq<Step>)
    requires Chain(xs, steps).Some?
    ensures Chain(xs, steps).value == Selected(xs, steps)
    decreases |steps|
  {
    if steps == [] {
      SelectedNoSteps(xs);
    } else {
      NarrowSelects(xs, steps[0]);
      var ys := Narrow(xs, steps[0]).value;
      ChainSelects(ys, steps[1..]);
      SelectedCompose(xs, steps[0], steps[1..]);
      assert [steps[0]] + steps[1..] == steps;
    }
  }

  /** No record that reaches a step makes that step throw. */
  predicate Defined(xs: seq<Country>, steps: seq<Step>) {
    forall c, k :: c in xs && 0 <= k < |steps| && HoldsAll(steps[..k], c) ==> Evaluate(steps[k], c).Some?
  }

  lemma {:induction false} NarrowDefined(xs: seq<Country>, s: Step)
    ensures Narrow(xs, s).Some? <==> forall c :: c in xs ==> Evaluate(s, c).Some?
    decreases |xs|
  {
    if xs != [] {
      NarrowDefined(xs[1..], s);
      assert xs == [xs[0]] + xs[1..];
    }
  }

  /** The chain throws exactly when some record reaches a step whose callback throws on it. */
  lemma {:induction false} ChainDefined(xs: seq<Country>, steps: seq<Step>)
    ensures Chain(xs, steps).Some? <==> Defined(xs, steps)
    decreases |steps|
  {
    if steps != [] {
      var s, rest := steps[0], steps[1..];
      assert steps == [s] + rest;
      NarrowDefined(xs, s);
      if Narrow(xs, s).None? {
        var c :| c in xs && Evaluate(s, c).None?;
        assert steps[..0] == [];
        assert HoldsAll(steps[..0], c) && Evaluate(steps[0], c).None?;
      } else {
        var ys := Narrow(xs, s).value;
        ChainDefined(ys, rest);
        if Defined(ys, rest) { DefinedForward(xs, s, rest); }
        if Defined(xs, steps) { DefinedBack(xs, s, rest); }
      }
    }
  }

  /** The records a step that does not throw keeps. */
  lemma NarrowMembers(xs: seq<Country>, s: Step, c: Country)
    requires Narrow(xs, s).Some?
    ensures c in Narrow(xs, s).value <==> c in xs && Holds(s, c)
  {
    NarrowSelects(xs, s);
    SelectedMembers(xs, [s], c);
    HoldsAllSingle(s, c);
  }

  /** A prefix of `[s] + rest` of length k + 1 is `s` followed by a prefix of `rest` of length k. */
  lemma PrefixHolds(s: Step, rest: seq<Step>, c: Country, k: nat)
    requires k <= |rest|
    ensures HoldsAll(([s] + rest)[..k + 1], c) <==> Holds(s, c) && HoldsAll(rest[..k], c)
  {
    assert ([s] + rest)[..k + 1] == [s] + rest[..k];
    HoldsAllAppend([s], rest[..k], c);
    HoldsAllSingle(s, c);
  }

  lemma DefinedForward(xs: seq<Country>, s: Step, rest: seq<Step>)
    requires Narrow(xs, s).Some?
    requires Defined(Narrow(xs, s).value, rest)
    ensures Defined(xs, [s] + rest)
  {
    var steps := [s] + rest;
    NarrowDefined(xs, s);
    forall c, k | c in xs && 0 <= k < |steps| && HoldsAll(steps[..k], c)
      ensures Evaluate(steps[k], c).Some?
    {
      if k > 0 {
        PrefixHolds(s, rest, c, k - 1);
        NarrowMembers(xs, s, c);
        assert steps[k] == rest[k - 1];
      }
    }
  }

  lemma DefinedBack(xs: seq<Country>, s: Step, rest: seq<Step>)
    requires Narrow(xs, s).Some?
    requires Defined(xs, [s] + rest)
    ensures Defined(Narrow(xs, s).value, rest)
  {
    var steps := [s] + rest;
    var ys := Narrow(xs, s).value;
    forall c, k | c in ys && 0 <= k < |rest| && HoldsAll(rest[..k], c)
      ensures Evaluate(rest[k], c).Some?
    {
      NarrowMembers(xs, s, c);
      PrefixHolds(s, rest, c, k);
      assert steps[k + 1] == rest[k];
    }
  }

  lemma NameStepAdmits(q: SearchQuery, c: Country)
    ensures HoldsAll(NameStep(q), c) <==> AdmitsName(q, c)
  {
    if Truthy(q.name) {
      HoldsAllSingle(ByName(Lower(q.name.value)), c);
    }
  }

  lemma NumberStepsAdmit(q: SearchQuery, c: Country)
    requires Validate(q).None?
    ensures HoldsAll(NumberSteps(q), c) <==> AdmitsNumbers(q, c)
  {
    var p, f, t := PopulationStep(q), AreaFromStep(q), AreaToStep(q);
    HoldsAllAppend(p + f, t, c);
    HoldsAllAppend(p, f, c);
    PopulationStepAdmits(q, c);
    AreaFromStepAdmits(q, c);
    AreaToStepAdmits(q, c);
  }

  lemma PopulationStepAdmits(q: SearchQuery, c: Country)
    requires NumericOk(q.population)
    ensures HoldsAll(PopulationStep(q), c) <==>
      (Truthy(q.population) ==> NearPopulation(c, ParseNumber(q.population.value).value))
  {
    if Truthy(q.population) { HoldsAllSingle(PopulationStep(q)[0], c); }
  }

  lemma AreaFromStepAdmits(q: SearchQuery, c: Country)
    requires NumericOk(q.areaFrom)
    ensures HoldsAll(AreaFromStep(q), c) <==>
      (Truthy(q.areaFrom) ==> c.area >= ParseNumber(q.areaFrom.value).value as real)
  {
    if Truthy(q.areaFrom) { HoldsAllSingle(AreaFromStep(q)[0], c); }
  }

  lemma AreaToStepAdmits(q: SearchQuery, c: Country)
    requires NumericOk(q.areaTo)
    ensures HoldsAll(AreaToStep(q), c) <==>
      (Truthy(q.areaTo) ==> c.area <= ParseNumber(q.areaTo.value).value as real)
  {
    if Truthy(q.areaTo) { HoldsAllSingle(AreaToStep(q)[0], c); }
  }

  lemma RegionStepAdmits(q: SearchQuery, c: Country)
    ensures HoldsAll(RegionStep(q), c) <==> AdmitsRegion(q, c)
  {
    if Truthy(q.regions) { HoldsAllSingle(RegionStep(q)[0], c); }
  }

  lemma ContinentStepAdmits(q: SearchQuery, c: Country)
    ensures HoldsAll(ContinentStep(q), c) <==> AdmitsContinent(q, c)
  {
    if Truthy(q.continents) { HoldsAllSingle(ContinentStep(q)[0], c); }
  }

  lemma LanguageStepAdmits(q: SearchQuery, c: Country)
    ensures HoldsAll(LanguageStep(q), c) <==> AdmitsLanguage(q, c)
  {
    if Truthy(q.languages) { HoldsAllSingle(LanguageStep(q)[0], c); }
  }

  lemma CurrencyStepAdmits(q: SearchQuery, c: Country)
    ensures HoldsAll(CurrencyStep(q), c) <==> AdmitsCurrency(q, c)
  {
    if Truthy(q.currencies) { HoldsAllSingle(CurrencyStep(q)[0], c); }
  }

  lemma SetStepsAdmit(q: SearchQuery, c: Country)
    ensures HoldsAll(SetSteps(q), c) <==> AdmitsSets(q, c)
  {
    var r, o, l, u := RegionStep(q), ContinentStep(q), LanguageStep(q), CurrencyStep(q);
    HoldsAllAppend(r + o + l, u, c);
    HoldsAllAppend(r + o, l, c);
    HoldsAllAppend(r, o, c);
    RegionStepAdmits(q, c);
    ContinentStepAdmits(q, c);
    LanguageStepAdmits(q, c);
    CurrencyStepAdmits(q, c);
  }

  lemma TimezoneStepAdmits(q: SearchQuery, c: Country)
    ensures HoldsAll(TimezoneStep(q), c) <==> AdmitsTimezone(q, c)
  {
    if Truthy(q.timezones) {
      var list := Split(q.timezones.value, ',');
      HoldsAllSingle(ByTimezone(NormalizeAll(list)), c);
      if c.timezones.Some? {
        NormalizedHit(list, c.timezones.value);
      }
    }
  }

  /** A normalised requested zone is among the record's exactly when some requested zone normalises to one. */
  lemma NormalizedHit(list: seq<string>, tzs: seq<string>)
    ensures (exists t :: t in NormalizeAll(list) && t in tzs) <==> (exists t :: t in list && NormalizeTimezone(t) in tzs)
  {
    var normal := NormalizeAll(list);
    if exists t :: t in normal && t in tzs {
      var t :| t in normal && t in tzs;
      var i :| 0 <= i < |normal| && normal[i] == t;
      assert list[i] in list;
    }
    if exists t :: t in list && NormalizeTimezone(t) in tzs {
      var t :| t in list && NormalizeTimezone(t) in tzs;
      var i :| 0 <= i < |list| && list[i] == t;
      assert normal[i] in normal;
    }
  }

  lemma FlagStepsAdmit(q: SearchQuery, c: Country)
    ensures HoldsAll(IndependentStep(q), c) && HoldsAll(UnMemberStep(q), c) && HoldsAll(LandlockedStep(q), c)
            <==> AdmitsFlags(q, c)
  {
    if q.independent.Some? { HoldsAllSingle(IndependentStep(q)[0], c); }
    if q.unMember.Some? { HoldsAllSingle(UnMemberStep(q)[0], c); }
    if q.landlocked.Some? { HoldsAllSingle(LandlockedStep(q)[0], c); }
  }

  lemma FrontStepsAdmit(q: SearchQuery, c: Country)
    requires Validate(q).None?
    ensures HoldsAll(FrontSteps(q), c) <==> AdmitsName(q, c) && AdmitsNumbers(q, c)
  {
    HoldsAllAppend(NameStep(q), NumberSteps(q), c);
    NameStepAdmits(q, c);
    NumberStepsAdmit(q, c);
  }

  lemma BackStepsAdmit(q: SearchQuery, c: Country)
    ensures HoldsAll(BackSteps(q), c) <==> AdmitsTimezone(q, c) && AdmitsFlags(q, c)
  {
    var i, t, u, l := IndependentStep(q), TimezoneStep(q), UnMemberStep(q), LandlockedStep(q);
    HoldsAllAppend(i + t + u, l, c);
    HoldsAllAppend(i + t, u, c);
    HoldsAllAppend(i, t, c);
    TimezoneStepAdmits(q, c);
    FlagStepsAdmit(q, c);
  }

  /** Every step of a validated query keeps a record exactly when the query admits it. */
  lemma StepsAdmit(q: SearchQuery, c: Country)
    requires Validate(q).None?
    ensures HoldsAll(Steps(q), c) <==> Admits(q, c)
  {
    HoldsAllAppend(FrontSteps(q) + SetSteps(q), BackSteps(q), c);
    HoldsAllAppend(FrontSteps(q), SetSteps(q), c);
    FrontStepsAdmit(q, c);
    SetStepsAdmit(q, c);
    BackStepsAdmit(q, c);
  }

  lemma {:induction false} SelectedKept(xs: seq<Country>, q: SearchQuery)
    requires Validate(q).None?
    ensures Selected(xs, Steps(q)) == Kept(xs, q)
    decreases |xs|
  {
    if xs != [] {
      StepsAdmit(q, xs[0]);
      SelectedKept(xs[1..], q);
    }
  }

  // ---------------------------------------------------------------------
  // The handler.

  /** What the search handler answers for a loaded dataset. */
  function SearchCountries(countries: seq<Country>, q: SearchQuery): (r: Response<Page<Country>>)
    ensures r.Fail? ==> r.failure == InternalError || Some(r.failure) == Validate(q)
    ensures r.Ok? ==> Validate(q).None? && r.body.total <= |countries|
  {
    match Validate(q)
    case Some(f) => Fail(f)
    case None =>
      match Chain(countries, Steps(q))
      case None => Fail(InternalError)
      case Some(found) => Ok(Paginate(found, q.page, q.limit))
  }

  /**
   * A search rejects an invalid numeric parameter with that parameter's
   * error, answers 500 exactly when a filter throws on a record that
   * reaches it, and otherwise pages through the records the query admits,
   * in dataset order, reporting their number as `total`.
   */
  lemma SearchCorrect(countries: seq<Country>, q: SearchQuery)
    ensures Validate(q).Some? ==> SearchCountries(countries, q) == Fail(Validate(q).value)
    ensures Validate(q).None? ==>
      (SearchCountries(countries, q) == Fail(InternalError) <==> !Defined(countries, Steps(q)))
    ensures SearchCountries(countries, q).Ok? ==>
      && SearchCountries(countries, q).body == Paginate(Kept(countries, q), q.page, q.limit)
      && SearchCountries(countries, q).body.total == |Kept(countries, q)|
      && IsSubsequence(Kept(countries, q), countries)
  {
    if Validate(q).None? {
      ChainDefined(countries, Steps(q));
      if Chain(countries, Steps(q)).Some? {
        ChainSelects(countries, Steps(q));
        SelectedKept(countries, q);
        KeptSubsequence(countries, q);
      }
    }
  }

  /** Every record on a page of results is from the dataset and satisfies every active parameter. */
  lemma SearchSound(countries: seq<Country>, q: SearchQuery, c: Country)
    requires SearchCountries(countries, q).Ok?
    requires c in SearchCountries(countries, q).body.data
    ensures c in countries && Admits(q, c)
  {
    SearchCorrect(countries, q);
    PaginateMembers(Kept(countries, q), q.page, q.limit, c);
    KeptMembers(countries, q, c);
  }

  lemma EvaluateDefined(s: Step, c: Country)
    requires c.continents.Some? && c.timezones.Some?
    ensures Evaluate(s, c).Some?
  {
  }

  /** On records that all have `continents` and `timezones`, a valid search never answers 500. */
  lemma CompleteRecordsNeverFail(countries: seq<Country>, q: SearchQuery)
    requires Validate(q).None?
    requires forall c :: c in countries ==> c.continents.Some? && c.timezones.Some?
    ensures SearchCountries(countries, q).Ok?
  {
    var steps := Steps(q);
    forall c, k | c in countries && 0 <= k < |steps| && HoldsAll(steps[..k], c)
      ensures Evaluate(steps[k], c).Some?
    {
      EvaluateDefined(steps[k], c);
    }
    ChainDefined(countries, steps);
  }

  /** A record without `continents` that survives the earlier filters turns a continents search into a 500. */
  lemma MissingContinentsFails(countries: seq<Country>, q: SearchQuery, c: Country)
    requires Validate(q).None? && Truthy(q.continents)
    requires c in countries && c.continents.None?
    requires !Truthy(q.name) && !Truthy(q.population) && !Truthy(q.areaFrom) && !Truthy(q.areaTo)
    requires !Truthy(q.regions)
    ensures SearchCountries(countries, q) == Fail(InternalError)
  {
    var steps := Steps(q);
    assert steps[0] == ByContinent(Split(q.continents.value, ','));
    assert steps[..0] == [];
    assert !Defined(countries, steps) by {
      assert HoldsAll(steps[..0], c) && Evaluate(steps[0], c).None?;
    }
    SearchCorrect(countries, q);
  }

  // ---------------------------------------------------------------------
  // The imperative chain, as the handler runs it.

  /** Filtering a list with one more record at the end: it throws when either part does. */
  lemma {:induction false} NarrowSnoc(a: seq<Country>, x: Country, s: Step)
    ensures Narrow(a + [x], s) ==
      if Narrow(a, s).None? || Evaluate(s, x).None? then None
      else Some(Narrow(a, s).value + (if Evaluate(s, x).value then [x] else []))
    decreases |a|
  {
    if a == [] {
      assert a + [x] == [x];
      assert [x][1..] == [];
      assert Narrow([x][1..], s) == Some([]);
      if Evaluate(s, x).Some? {
        var tail := if Evaluate(s, x).value then [x] else [];
        assert tail + [] == tail;
      }
    } else {
      assert (a + [x])[0] == a[0] && (a + [x])[1..] == a[1..] + [x];
      NarrowSnoc(a[1..], x, s);
      if Narrow(a, s).Some? && Evaluate(s, x).Some? {
        var here := if Evaluate(s, a[0]).value then [a[0]] else [];
        var tail := if Evaluate(s, x).value then [x] else [];
        ConcatAssoc(here, Narrow(a[1..], s).value, tail);
      }
    }
  }

  /** `xs.filter(callback)` for one step. */
  method FilterStep(xs: seq<Country>, s: Step) returns (r: Option<seq<Country>>)
    ensures r == Narrow(xs, s)
  {
    var kept: seq<Country> := [];
    var j := 0;
    while j < |xs|
      invariant 0 <= j <= |xs|
      invariant Narrow(xs[..j], s) == Some(kept)
    {
      var keep := Evaluate(s, xs[j]);
      if keep.None? {
        assert xs[j] in xs;
        NarrowDefined(xs, s);
        return None;
      }
      assert xs[..j + 1] == xs[..j] + [xs[j]];
      NarrowSnoc(xs[..j], xs[j], s);
      kept := kept + (if keep.value then [xs[j]] else []);
      j := j + 1;
    }
    assert xs[..j] == xs;
    r := Some(kept);
  }

  /** `filteredCountries` narrowed by each step in turn. */
  method RunChain(xs: seq<Country>, steps: seq<Step>) returns (r: Option<seq<Country>>)
    ensures r == Chain(xs, steps)
  {
    var filtered := xs;
    var i := 0;
    while i < |steps|
      invariant 0 <= i <= |steps|
      invariant Chain(xs, steps) == Chain(filtered, steps[i..])
    {
      assert steps[i..][0] == steps[i] && steps[i..][1..] == steps[i + 1..];
      var next := FilterStep(filtered, steps[i]);
      if next.None? {
        return None;
      }
      filtered := next.value;
      i := i + 1;
    }
    assert steps[i..] == [];
    r := Some(filtered);
  }
}
