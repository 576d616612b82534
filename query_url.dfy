/**
 * The front end's filter state (`appliedFiltersState`), the handlers that
 * update it, `buildQueryUrl`, `isEmptyFilters` and the choice of URL in
 * `applyFilters`. A URL's query is modelled as its ordered list of
 * name/value pairs, before percent-encoding.
 */
module QueryUrl {
  import opened Wrappers
  import opened Text
  import opened Numbers
  import opened Dataset
  import opened Paging
  import Search
  import opened Responses

  /**
   * `appliedFiltersState`. `name` is always a string; `population` is
   * `null` or a number; `areaFrom`/`areaTo` are `null` or the inputs'
   * text; the three flags are `null` or a string.
   */
  datatype Filters = Filters(
    name: string,
    languages: seq<string>,
    regions: seq<string>,
    continents: seq<string>,
    currencies: seq<string>,
    timezones: seq<string>,
    population: Option<nat>,
    areaFrom: Option<string>,
    areaTo: Option<string>,
    unMember: Option<string>,
    independent: Option<string>,
    landlocked: Option<string>)

  const InitialFilters := Filters("", [], [], [], [], [], None, None, None, None, None, None)

  type Param = (string, string)

  /** The fields `buildQueryUrl` may send, named as in the filter state. */
  datatype Field =
    | NameField | AreaFromField | AreaToField | PopulationField
    | RegionsField | LanguagesField | TimezonesField | ContinentsField | CurrenciesField
    | UnMemberField | IndependentField | LandlockedField
  {
    /** The query parameter name, which is also the key in the filter state. */
    function Key(): string {
      match this
      case NameField => "name"
      case AreaFromField => "areaFrom"
      case AreaToField => "areaTo"
      case PopulationField => "population"
      case RegionsField => "regions"
      case LanguagesField => "languages"
      case TimezonesField => "timezones"
      case ContinentsField => "continents"
      case CurrenciesField => "currencies"
      case UnMemberField => "unMember"
      case IndependentField => "independent"
      case LandlockedField => "landlocked"
    }
  }

  const SimpleFields: seq<Field> := [NameField, AreaFromField, AreaToField, PopulationField]
  const ArrayFields: seq<Field> := [RegionsField, LanguagesField, TimezonesField, ContinentsField, CurrenciesField]
  const BooleanFields: seq<Field> := [UnMemberField, IndependentField]
  /** Every field `buildQueryUrl` may set, in the order it sets them. */
  const QueryFields: seq<Field> := SimpleFields + ArrayFields + BooleanFields + [LandlockedField]

  lemma KeyInjective(a: Field, b: Field)
    ensures a.Key() == b.Key() ==> a == b
  {
  }

  /** A string field is truthy when present and not empty. */
  predicate TruthyText(v: Option<string>) {
    v.Some? && v.value != ""
  }

  /** The value `buildQueryUrl` sets for a field, or `None` when it leaves the field out. */
  function Emitted(f: Filters, fld: Field): Option<string> {
    match fld
    case NameField => if f.name != "" then Some(f.name) else None
    case AreaFromField => if TruthyText(f.areaFrom) then f.areaFrom else None
    case AreaToField => if TruthyText(f.areaTo) then f.areaTo else None
    case PopulationField =>
      if f.population.Some? && f.population.value != 0 then Some(Decimal(f.population.value)) else None
    case RegionsField => if f.regions != [] then Some(Join(f.regions, ',')) else None
    case LanguagesField => if f.languages != [] then Some(Join(f.languages, ',')) else None
    case TimezonesField => if f.timezones != [] then Some(Join(f.timezones, ',')) else None
    case ContinentsField => if f.continents != [] then Some(Join(f.continents, ',')) else None
    case CurrenciesField => if f.currencies != [] then Some(Join(f.currencies, ',')) else None
    case UnMemberField => f.unMember
    case IndependentField => f.independent
    case LandlockedField =>
      match f.landlocked
      case None => None
      case Some(v) => Some(if v == "true" then "false" else "true")
  }

  /** The pairs for `fields`, in order, leaving out the fields with nothing to emit. */
  function Params(f: Filters, fields: seq<Field>): seq<Param>
    decreases |fields|
  {
    if fields == [] then []
    else
      var fld := fields[|fields| - 1];
      Params(f, fields[..|fields| - 1])
        + (if Emitted(f, fld).Some? then [(fld.Key(), Emitted(f, fld).value)] else [])
  }

  /** The query of the URL that `buildQueryUrl` returns. */
  function QueryParams(f: Filters): seq<Param> {
    Params(f, QueryFields)
  }

  predicate HasKey(ps: seq<Param>, key: string) {
    exists i :: 0 <= i < |ps| && ps[i].0 == key
  }

  function RemoveKey(ps: seq<Param>, key: string): seq<Param>
    decreases |ps|
  {
    if ps == [] then [] else (if ps[0].0 == key then [] else [ps[0]]) + RemoveKey(ps[1..], key)
  }

  function SetFirst(ps: seq<Param>, key: string, value: string): seq<Param>
    decreases |ps|
  {
    if ps == [] then []
    else if ps[0].0 == key then [(key, value)] + RemoveKey(ps[1..], key)
    else [ps[0]] + SetFirst(ps[1..], key, value)
  }

  /**
   * `searchParams.set(key, value)`: the first pair named `key` takes the
   * value and the others are dropped; without one, the pair is appended.
   */
  function SetParam(ps: seq<Param>, key: string, value: string): seq<Param> {
    if HasKey(ps, key) then SetFirst(ps, key, value) else ps + [(key, value)]
  }

  /** The pairs for `fields` are named only after fields in `fields`. */
  lemma {:induction false} ParamsKeys(f: Filters, fields: seq<Field>, fld: Field)
    requires fld !in fields
    ensures !HasKey(Params(f, fields), fld.Key())
    decreases |fields|
  {
    if fields != [] {
      var init := fields[..|fields| - 1];
      var last := fields[|fields| - 1];
      assert fields == init + [last];
      ParamsKeys(f, init, fld);
      KeyInjective(fld, last);
    }
  }

  lemma {:induction false} ParamsAppend(f: Filters, a: seq<Field>, b: seq<Field>)
    ensures Params(f, a + b) == Params(f, a) + Params(f, b)
    decreases |b|
  {
    if b == [] {
      assert a + b == a;
    } else {
      var b' := b[..|b| - 1];
      assert (a + b)[..|a + b| - 1] == a + b';
      assert (a + b)[|a + b| - 1] == b[|b| - 1];
      ParamsAppend(f, a, b');
    }
  }

  /** No field is listed twice. */
  predicate Distinct(fields: seq<Field>) {
    forall i, j :: 0 <= i < j < |fields| ==> fields[i] != fields[j]
  }

  /** Without its last field a distinct list stays distinct and no longer holds that field. */
  lemma DistinctInit(fields: seq<Field>)
    requires Distinct(fields) && fields != []
    ensures Distinct(fields[..|fields| - 1])
    ensures fields[|fields| - 1] !in fields[..|fields| - 1]
  {
    var init := fields[..|fields| - 1];
    forall k | 0 <= k < |init| ensures init[k] != fields[|fields| - 1] {
      assert fields[k] == init[k];
    }
  }

  lemma QueryFieldsDistinct()
    ensures Distinct(QueryFields)
    ensures |QueryFields| == 12
  {
  }

  // ---------------------------------------------------------------------
  // What `buildQueryUrl` promises.

  /** A field is in the query exactly when it has something to emit, and with that value. */
  lemma {:induction false} ParamsMembers(f: Filters, fields: seq<Field>, fld: Field, value: string)
    requires Distinct(fields)
    ensures (fld.Key(), value) in Params(f, fields) <==> fld in fields && Emitted(f, fld) == Some(value)
    decreases |fields|
  {
    if fields != [] {
      var init := fields[..|fields| - 1];
      var last := fields[|fields| - 1];
      assert fields == init + [last];
      DistinctInit(fields);
      ParamsMembers(f, init, fld, value);
      KeyInjective(fld, last);
      if fld == last {
        ParamsKeys(f, init, fld);
      }
    }
  }

  /** Every pair of the query is named after a field of `fields`. */
  lemma {:induction false} ParamsNamed(f: Filters, fields: seq<Field>, p: Param)
    requires p in Params(f, fields)
    ensures exists fld :: fld in fields && p.0 == fld.Key() && Emitted(f, fld) == Some(p.1)
    decreases |fields|
  {
    var init := fields[..|fields| - 1];
    var last := fields[|fields| - 1];
    assert fields == init + [last];
    if p in Params(f, init) {
      ParamsNamed(f, init, p);
      var fld :| fld in init && p.0 == fld.Key() && Emitted(f, fld) == Some(p.1);
      assert fld in fields;
    } else {
      assert last in fields;
    }
  }

  lemma {:induction false} ParamsUnique(f: Filters, fields: seq<Field>)
    requires Distinct(fields)
    ensures forall i, j :: 0 <= i < j < |Params(f, fields)| ==> Params(f, fields)[i].0 != Params(f, fields)[j].0
    decreases |fields|
  {
    if fields != [] {
      var init := fields[..|fields| - 1];
      var last := fields[|fields| - 1];
      DistinctInit(fields);
      ParamsUnique(f, init);
      ParamsKeys(f, init, last);
      var ps := Params(f, fields);
      var n := |Params(f, init)|;
      forall i, j | 0 <= i < j < |ps| ensures ps[i].0 != ps[j].0 {
        assert Params(f, init)[i] == ps[i];
        if j < n {
          assert Params(f, init)[j] == ps[j];
        }
      }
    }
  }

  /**
   * Every name appears at most once and only the twelve field names appear;
   * a field is in the query exactly when it emits that value. This covers
   * simple fields only when truthy, arrays only when non-empty and as their
   * comma join, `unMember` and `independent` whenever not `null`, unchanged.
   */
  lemma QueryParamsFaithful(f: Filters, fld: Field, value: string)
    ensures (fld.Key(), value) in QueryParams(f) <==> Emitted(f, fld) == Some(value)
    ensures forall i, j :: 0 <= i < j < |QueryParams(f)| ==> QueryParams(f)[i].0 != QueryParams(f)[j].0
  {
    QueryFieldsDistinct();
    InQueryFields(fld);
    ParamsMembers(f, QueryFields, fld, value);
    ParamsUnique(f, QueryFields);
  }

  /** Every field takes part in the query. */
  lemma InQueryFields(fld: Field)
    ensures fld in QueryFields
  {
    match fld
    case NameField => assert QueryFields[0] == fld;
    case AreaFromField => assert QueryFields[1] == fld;
    case AreaToField => assert QueryFields[2] == fld;
    case PopulationField => assert QueryFields[3] == fld;
    case RegionsField => assert QueryFields[4] == fld;
    case LanguagesField => assert QueryFields[5] == fld;
    case TimezonesField => assert QueryFields[6] == fld;
    case ContinentsField => assert QueryFields[7] == fld;
    case CurrenciesField => assert QueryFields[8] == fld;
    case UnMemberField => assert QueryFields[9] == fld;
    case IndependentField => assert QueryFields[10] == fld;
    case LandlockedField => assert QueryFields[11] == fld;
  }

  /** `landlocked` is sent whenever set, inverted: `"true"` becomes `"false"` and anything else `"true"`. */
  lemma LandlockedInverted(f: Filters, value: string)
    ensures ("landlocked", value) in QueryParams(f) <==>
      f.landlocked.Some? && value == (if f.landlocked.value == "true" then "false" else "true")
  {
    QueryParamsFaithful(f, LandlockedField, value);
  }

  /** An array parameter splits back into the selected values when none of them holds a comma. */
  lemma ArrayParamRoundTrip(f: Filters, value: string)
    requires forall i :: 0 <= i < |f.regions| ==> ',' !in f.regions[i]
    requires ("regions", value) in QueryParams(f)
    ensures f.regions != [] && Split(value, ',') == f.regions
  {
    QueryParamsFaithful(f, RegionsField, value);
    SplitJoin(f.regions, ',');
  }

  /** The query is empty exactly when no field has anything to emit. */
  lemma {:induction false} ParamsEmpty(f: Filters, fields: seq<Field>)
    ensures Params(f, fields) == [] <==> forall i :: 0 <= i < |fields| ==> Emitted(f, fields[i]).None?
    decreases |fields|
  {
    if fields != [] {
      var init := fields[..|fields| - 1];
      ParamsEmpty(f, init);
      if forall i :: 0 <= i < |init| ==> Emitted(f, init[i]).None? {
        assert forall i :: 0 <= i < |init| ==> init[i] == fields[i];
      }
    }
  }

  /** The names appear in the order simple fields, array fields, booleans, `landlocked`. */
  lemma QueryOrder(f: Filters)
    ensures QueryParams(f) == Params(f, SimpleFields) + Params(f, ArrayFields)
                             + Params(f, BooleanFields) + Params(f, [LandlockedField])
  {
    ParamsAppend(f, SimpleFields + ArrayFields + BooleanFields, [LandlockedField]);
    ParamsAppend(f, SimpleFields + ArrayFields, BooleanFields);
    ParamsAppend(f, SimpleFields, ArrayFields);
  }

  /** `buildQueryUrl`: the three `forEach` loops over the field lists, then `landlocked`. */
  method BuildQuery(f: Filters) returns (ps: seq<Param>)
    ensures ps == QueryParams(f)
  {
    QueryFieldsDistinct();
    var simple := SimpleFields;
    var front := SimpleFields + ArrayFields;
    var all := front + BooleanFields;
    assert QueryFields == all + [LandlockedField];
    ps := [];
    for i := 0 to |simple|
      invariant ps == Params(f, QueryFields[..i])
    {
      ps := SetEmitted(ps, f, QueryFields, i);
    }
    for i := |simple| to |front|
      invariant ps == Params(f, QueryFields[..i])
    {
      ps := SetEmitted(ps, f, QueryFields, i);
    }
    for i := |front| to |all|
      invariant ps == Params(f, QueryFields[..i])
    {
      ps := SetEmitted(ps, f, QueryFields, i);
    }
    ps := SetEmitted(ps, f, QueryFields, |all|);
    assert QueryFields[..|all| + 1] == QueryFields;
  }

  /** One `if (...) url.searchParams.set(key, ...)` of `buildQueryUrl`, for `fields[i]`. */
  method SetEmitted(ps: seq<Param>, f: Filters, fields: seq<Field>, i: nat) returns (ps': seq<Param>)
    requires i < |fields| && Distinct(fields)
    requires ps == Params(f, fields[..i])
    ensures ps' == Params(f, fields[..i + 1])
  {
    var fld := fields[i];
    assert fields[..i + 1][..i] == fields[..i];
    var v := Emitted(f, fld);
    ps' := ps;
    if v.Some? {
      assert fld !in fields[..i] by {
        forall k | 0 <= k < i ensures fields[..i][k] != fld {
          assert fields[..i][k] == fields[k];
        }
      }
      ParamsKeys(f, fields[..i], fld);
      ps' := SetParam(ps, fld.Key(), v.value);
    }
  }

  // ---------------------------------------------------------------------
  // `isEmptyFilters` and `applyFilters`.

  predicate EmptyText(v: Option<string>) {
    v.None? || v.value == ""
  }

  /** Every array is empty and every other value is `null` or `''`. A population of 0 is not empty. */
  predicate IsEmptyFilters(f: Filters) {
    && f.languages == [] && f.regions == [] && f.continents == [] && f.currencies == [] && f.timezones == []
    && f.name == ""
    && f.population.None?
    && EmptyText(f.areaFrom) && EmptyText(f.areaTo)
    && EmptyText(f.unMember) && EmptyText(f.independent) && EmptyText(f.landlocked)
  }

  /** The handlers set a flag only to `"true"` or `null`. */
  predicate FlagsWellFormed(f: Filters) {
    && (f.unMember.None? || f.unMember == Some("true"))
    && (f.independent.None? || f.independent == Some("true"))
    && (f.landlocked.None? || f.landlocked == Some("true"))
  }

  /**
   * For the states the handlers produce, the query is empty exactly when the
   * filters are empty or the only filter set is a population of 0, which
   * `isEmptyFilters` counts as a filter but `buildQueryUrl` leaves out.
   */
  lemma EmptyQueryIff(f: Filters)
    requires FlagsWellFormed(f)
    ensures QueryParams(f) == [] <==>
      IsEmptyFilters(f) || (f.population == Some(0) && IsEmptyFilters(f.(population := None)))
  {
    ParamsEmpty(f, QueryFields);
    var qf := QueryFields;
    assert qf[0] == NameField && qf[1] == AreaFromField && qf[2] == AreaToField && qf[3] == PopulationField;
    assert qf[4] == RegionsField && qf[5] == LanguagesField && qf[6] == TimezonesField;
    assert qf[7] == ContinentsField && qf[8] == CurrenciesField;
    assert qf[9] == UnMemberField && qf[10] == IndependentField && qf[11] == LandlockedField;
    assert |qf| == 12;
  }

  datatype Request = ListingRequest | SearchRequest(params: seq<Param>)

  /** The URL `applyFilters` fetches: the listing when the filters are empty, a search otherwise. */
  function RequestFor(f: Filters): Request {
    if IsEmptyFilters(f) then ListingRequest else SearchRequest(QueryParams(f))
  }

  /** A response body as the front end receives it. */
  datatype Body = ListBody(list: seq<Country>) | EnvelopeBody(page: Page<Country>) | ErrorBody(message: string)

  /** `json.data || json`: the records to render, or `None` when the body is not a list of records. */
  function Displayed(b: Body): Option<seq<Country>> {
    match b
    case ListBody(list) => Some(list)
    case EnvelopeBody(page) => Some(page.data)
    case ErrorBody(_) => None
  }

  // ---------------------------------------------------------------------
  // The query as the server reads it.

  /** `req.query[key]`: the value of the first pair named `key`. */
  function Lookup(ps: seq<Param>, key: string): Option<string>
    decreases |ps|
  {
    if ps == [] then None else if ps[0].0 == key then Some(ps[0].1) else Lookup(ps[1..], key)
  }

  function ToQuery(ps: seq<Param>): Search.SearchQuery {
    Search.SearchQuery(
      Lookup(ps, "name"), Lookup(ps, "population"), Lookup(ps, "areaFrom"), Lookup(ps, "areaTo"),
      Lookup(ps, "regions"), Lookup(ps, "continents"), Lookup(ps, "languages"), Lookup(ps, "currencies"),
      Lookup(ps, "independent"), Lookup(ps, "timezones"), Lookup(ps, "unMember"), Lookup(ps, "landlocked"),
      Lookup(ps, "page"), Lookup(ps, "limit"))
  }

  lemma {:induction false} LookupFinds(ps: seq<Param>, key: string, value: string)
    requires forall i, j :: 0 <= i < j < |ps| ==> ps[i].0 != ps[j].0
    requires (key, value) in ps
    ensures Lookup(ps, key) == Some(value)
    decreases |ps|
  {
    if ps[0] != (key, value) {
      var j :| 0 <= j < |ps| && ps[j] == (key, value);
      assert j > 0 && ps[0].0 != ps[j].0;
      assert ps[1..][j - 1] == (key, value);
      LookupFinds(ps[1..], key, value);
    }
  }

  /**
   * After `set(key, value)` the server reads `value` under `key`, and reads
   * every other key as before.
   */
  lemma SetParamLookup(ps: seq<Param>, key: string, value: string, other: string)
    ensures Lookup(SetParam(ps, key, value), key) == Some(value)
    ensures other != key ==> Lookup(SetParam(ps, key, value), other) == Lookup(ps, other)
  {
    if HasKey(ps, key) {
      SetFirstLookup(ps, key, value, other);
    } else {
      AppendLookup(ps, key, value, other);
    }
  }

  lemma {:induction false} RemoveKeyLookup(ps: seq<Param>, key: string, other: string)
    ensures Lookup(RemoveKey(ps, key), key) == None
    ensures other != key ==> Lookup(RemoveKey(ps, key), other) == Lookup(ps, other)
    decreases |ps|
  {
    if ps != [] {
      RemoveKeyLookup(ps[1..], key, other);
      var r := RemoveKey(ps, key);
      if ps[0].0 != key {
        assert r[0] == ps[0] && r[1..] == RemoveKey(ps[1..], key);
      } else {
        assert r == [] + RemoveKey(ps[1..], key) == RemoveKey(ps[1..], key);
      }
    }
  }

  lemma {:induction false} SetFirstLookup(ps: seq<Param>, key: string, value: string, other: string)
    requires HasKey(ps, key)
    ensures Lookup(SetFirst(ps, key, value), key) == Some(value)
    ensures other != key ==> Lookup(SetFirst(ps, key, value), other) == Lookup(ps, other)
    decreases |ps|
  {
    var r := SetFirst(ps, key, value);
    if ps[0].0 == key {
      RemoveKeyLookup(ps[1..], key, other);
      assert r[0] == (key, value) && r[1..] == RemoveKey(ps[1..], key);
    } else {
      var i :| 0 <= i < |ps| && ps[i].0 == key;
      assert i > 0 && ps[1..][i - 1].0 == key;
      SetFirstLookup(ps[1..], key, value, other);
      assert r[0] == ps[0] && r[1..] == SetFirst(ps[1..], key, value);
    }
  }

  lemma {:induction false} AppendLookup(ps: seq<Param>, key: string, value: string, other: string)
    requires !HasKey(ps, key)
    ensures Lookup(ps + [(key, value)], key) == Some(value)
    ensures other != key ==> Lookup(ps + [(key, value)], other) == Lookup(ps, other)
    decreases |ps|
  {
    var r := ps + [(key, value)];
    if ps == [] {
      assert r == [(key, value)];
    } else {
      assert ps[0].0 != key;
      assert r[0] == ps[0] && r[1..] == ps[1..] + [(key, value)];
      assert !HasKey(ps[1..], key) by {
        forall i | 0 <= i < |ps[1..]| ensures ps[1..][i].0 != key {
          assert ps[1..][i] == ps[i + 1];
        }
      }
      AppendLookup(ps[1..], key, value, other);
    }
  }

  /**
   * Ticking the landlocked checkbox sends `landlocked=false`, so the server
   * then keeps only the records that are not landlocked.
   */
  lemma LandlockedCheckboxKeepsCoastal(f: Filters, c: Country)
    requires f.landlocked == Some("true")
    ensures ToQuery(QueryParams(f)).landlocked == Some("false")
    ensures Search.AdmitsFlags(ToQuery(QueryParams(f)), c) ==> !c.landlocked
  {
    LandlockedInverted(f, "false");
    QueryParamsFaithful(f, LandlockedField, "false");
    LookupFinds(QueryParams(f), "landlocked", "false");
  }

  // ---------------------------------------------------------------------
  // The handlers that update `appliedFiltersState`.

  datatype Checkbox = Checkbox(value: string, checked: bool)

  /** `Array.from(checkboxes).filter(cb => cb.checked).map(c => c.dataset.X.toLowerCase())`. */
  function CheckedValues(boxes: seq<Checkbox>): seq<string>
    decreases |boxes|
  {
    if boxes == [] then []
    else (if boxes[0].checked then [Lower(boxes[0].value)] else []) + CheckedValues(boxes[1..])
  }

  /** The selection holds the lower-cased value of each ticked box, in the boxes' order. */
  lemma {:induction false} CheckedValuesMembers(boxes: seq<Checkbox>, v: string)
    ensures v in CheckedValues(boxes) <==> exists i :: 0 <= i < |boxes| && boxes[i].checked && Lower(boxes[i].value) == v
    decreases |boxes|
  {
    if boxes != [] {
      CheckedValuesMembers(boxes[1..], v);
      if exists i :: 0 <= i < |boxes| && boxes[i].checked && Lower(boxes[i].value) == v {
        var i :| 0 <= i < |boxes| && boxes[i].checked && Lower(boxes[i].value) == v;
        if i > 0 {
          assert boxes[1..][i - 1] == boxes[i];
        }
      }
      if exists i :: 0 <= i < |boxes[1..]| && boxes[1..][i].checked && Lower(boxes[1..][i].value) == v {
        var i :| 0 <= i < |boxes[1..]| && boxes[1..][i].checked && Lower(boxes[1..][i].value) == v;
        assert boxes[i + 1] == boxes[1..][i];
      }
    }
  }

  /** `replace(/\D/g, "")`: the digits of `s`, in order. */
  function OnlyDigits(s: string): (r: string)
    ensures AllDigits(r) && |r| <= |s|
    decreases |s|
  {
    if s == [] then [] else (if IsDigit(s[0]) then [s[0]] else []) + OnlyDigits(s[1..])
  }

  /** Text that is already digits is kept as it is; text without digits becomes empty and reads as 0. */
  lemma {:induction false} OnlyDigitsCases(s: string)
    ensures AllDigits(s) ==> OnlyDigits(s) == s
    ensures (forall i :: 0 <= i < |s| ==> !IsDigit(s[i])) ==> OnlyDigits(s) == "" && DigitsValue(OnlyDigits(s)) == 0
    decreases |s|
  {
    if s != [] {
      OnlyDigitsCases(s[1..]);
      assert s == [s[0]] + s[1..];
    }
  }

  /** Removing the non-digits of a concatenation removes them from each part. */
  lemma {:induction false} OnlyDigitsAppend(a: string, b: string)
    ensures OnlyDigits(a + b) == OnlyDigits(a) + OnlyDigits(b)
    decreases |a|
  {
    if a != [] {
      assert (a + b)[0] == a[0] && (a + b)[1..] == a[1..] + b;
      OnlyDigitsAppend(a[1..], b);
    } else {
      assert a + b == b;
    }
  }

  /** Digits typed with a separator, such as `1 000`, read as the digits joined. */
  lemma SeparatedDigits(a: string, sep: char, b: string)
    requires AllDigits(a) && AllDigits(b) && !IsDigit(sep)
    ensures OnlyDigits(a + [sep] + b) == a + b
  {
    var x := a + [sep];
    OnlyDigitsCases(a);
    OnlyDigitsCases(b);
    assert OnlyDigits([sep]) == [] by {
      assert [sep][1..] == [];
    }
    assert OnlyDigits(x) == a by {
      OnlyDigitsAppend(a, [sep]);
      assert a + [] == a;
    }
    OnlyDigitsAppend(x, b);
  }

  datatype Group = RegionGroup | ContinentGroup | LanguageGroup | TimezoneGroup | CurrencyGroup
  datatype Flag = UnMemberFlag | LandlockedFlag | IndependentFlag

  function WithGroup(f: Filters, g: Group, values: seq<string>): Filters {
    match g
    case RegionGroup => f.(regions := values)
    case ContinentGroup => f.(continents := values)
    case LanguageGroup => f.(languages := values)
    case TimezoneGroup => f.(timezones := values)
    case CurrencyGroup => f.(currencies := values)
  }

  function WithFlag(f: Filters, flag: Flag, value: Option<string>): Filters {
    match flag
    case UnMemberFlag => f.(unMember := value)
    case LandlockedFlag => f.(landlocked := value)
    case IndependentFlag => f.(independent := value)
  }

  /** `appliedFiltersState` and the requests its handlers make. */
  class FilterPanel {
    var applied: Filters

    ghost predicate Valid()
      reads this
    {
      FlagsWellFormed(applied)
    }

    constructor ()
      ensures Valid() && applied == InitialFilters
    {
      applied := InitialFilters;
    }

    /** A checkbox of a group changes: the group's selection becomes the ticked values, lower-cased. */
    method OnGroupChange(g: Group, boxes: seq<Checkbox>) returns (req: Request)
      requires Valid()
      modifies this
      ensures Valid()
      ensures applied == WithGroup(old(applied), g, CheckedValues(boxes))
      ensures req == RequestFor(applied)
    {
      applied := WithGroup(applied, g, CheckedValues(boxes));
      req := ApplyFilters();
    }

    /** `setupSingleCheckboxFilter`: a ticked box sets `"true"`, an unticked one `null`. */
    method OnFlagChange(flag: Flag, checked: bool) returns (req: Request)
      requires Valid()
      modifies this
      ensures Valid()
      ensures applied == WithFlag(old(applied), flag, if checked then Some("true") else None)
      ensures req == RequestFor(applied)
    {
      applied := WithFlag(applied, flag, if checked then Some("true") else None);
      req := ApplyFilters();
    }

    /** The name input, once the debounce delay has passed: the trimmed text. */
    method OnNameInput(text: string) returns (req: Request)
      requires Valid()
      modifies this
      ensures Valid()
      ensures applied == old(applied).(name := Trim(text))
      ensures req == RequestFor(applied)
    {
      applied := applied.(name := Trim(text));
      req := ApplyFilters();
    }

    /** Either area input: both bounds take the inputs' current text. */
    method OnAreaInput(minText: string, maxText: string) returns (req: Request)
      requires Valid()
      modifies this
      ensures Valid()
      ensures applied == old(applied).(areaFrom := Some(minText), areaTo := Some(maxText))
      ensures req == RequestFor(applied)
    {
      applied := applied.(areaFrom := Some(minText), areaTo := Some(maxText));
      req := ApplyFilters();
    }

    /** The population slider moves: `+value` of its value. */
    method OnPopulationSlider(value: nat) returns (req: Request)
      requires Valid()
      modifies this
      ensures Valid()
      ensures applied == old(applied).(population := Some(value))
      ensures req == RequestFor(applied)
    {
      applied := applied.(population := Some(value));
      req := ApplyFilters();
    }

    /**
     * The population text box: the value becomes the number its digits spell
     * once everything else is removed, so text without digits gives 0.
     */
    method OnPopulationText(text: string) returns (req: Request)
      requires Valid()
      modifies this
      ensures Valid()
      ensures applied == old(applied).(population := Some(DigitsValue(OnlyDigits(text))))
      ensures req == RequestFor(applied)
    {
      applied := applied.(population := Some(DigitsValue(OnlyDigits(text))));
      req := ApplyFilters();
    }

    /** `applyFilters`: the URL it fetches for the current state. */
    method ApplyFilters() returns (req: Request)
      ensures req == RequestFor(applied)
    {
      if IsEmptyFilters(applied) {
        req := ListingRequest;
      } else {
        var ps := BuildQuery(applied);
        req := SearchRequest(ps);
      }
    }
  }

  /** Unticking every box of a group after ticking some leaves that group empty again. */
  lemma UntickedGroupIsEmpty(boxes: seq<Checkbox>)
    requires forall i :: 0 <= i < |boxes| ==> !boxes[i].checked
    ensures CheckedValues(boxes) == []
  {
    if CheckedValues(boxes) != [] {
      var v := CheckedValues(boxes)[0];
      assert v in CheckedValues(boxes);
      CheckedValuesMembers(boxes, v);
    }
  }

  /** Every value of a group's selection is already lower case. */
  lemma {:induction false} CheckedValuesLower(boxes: seq<Checkbox>)
    ensures forall i :: 0 <= i < |CheckedValues(boxes)| ==> Lower(CheckedValues(boxes)[i]) == CheckedValues(boxes)[i]
    decreases |boxes|
  {
    if boxes != [] {
      CheckedValuesLower(boxes[1..]);
      LowerIdempotent(boxes[0].value);
    }
  }

  /**
   * The selection is sent lower-cased and the server compares regions
   * exactly, so a record whose region has a capital letter is never
   * matched by a region checkbox.
   */
  lemma LowercasedRegionsMissCapitalised(f: Filters, c: Country)
    requires f.regions != []
    requires forall i :: 0 <= i < |f.regions| ==> Lower(f.regions[i]) == f.regions[i] && ',' !in f.regions[i]
    requires f.regions[0] != ""
    requires c.region.Some? && Lower(c.region.value) != c.region.value
    ensures !Search.AdmitsRegion(ToQuery(QueryParams(f)), c)
  {
    var v := Join(f.regions, ',');
    QueryParamsFaithful(f, RegionsField, v);
    LookupFinds(QueryParams(f), "regions", v);
    SplitJoin(f.regions, ',');
    assert ToQuery(QueryParams(f)).regions == Some(v);
    assert v != "" by {
      if |f.regions| > 1 {
        assert v == f.regions[0] + [','] + Join(f.regions[1..], ',');
      }
    }
  }

  /**
   * Currency codes are upper case (the server's tests look for `RUB`), but the selection
   * is sent lower-cased and compared exactly, so a currency checkbox never
   * matches a record all of whose codes have a capital letter.
   */
  lemma LowercasedCurrenciesMissCapitalised(f: Filters, c: Country)
    requires f.currencies != []
    requires forall i :: 0 <= i < |f.currencies| ==> Lower(f.currencies[i]) == f.currencies[i] && ',' !in f.currencies[i]
    requires f.currencies[0] != ""
    requires forall k :: k in CurrencyCodes(c) ==> Lower(k) != k
    ensures !Search.AdmitsCurrency(ToQuery(QueryParams(f)), c)
  {
    var v := Join(f.currencies, ',');
    QueryParamsFaithful(f, CurrenciesField, v);
    LookupFinds(QueryParams(f), "currencies", v);
    SplitJoin(f.currencies, ',');
    assert ToQuery(QueryParams(f)).currencies == Some(v);
  }

  /**
   * A population of 0 with nothing else set is not empty for
   * `isEmptyFilters`, yet `buildQueryUrl` leaves it out: the front end then
   * asks for a search with no parameters, which answers with the first 20
   * records in an envelope instead of the whole listing. Clearing the
   * population text box is one way to get there.
   */
  lemma PopulationZeroSearchesEverything(countries: seq<Country>)
    ensures RequestFor(InitialFilters.(population := Some(0))) == SearchRequest([])
    ensures Search.SearchCountries(countries, ToQuery([])) == Ok(Paginate(countries, None, None))
    ensures Displayed(EnvelopeBody(Paginate(countries, None, None))) == Some(countries[..Min(DefaultLimit, |countries|)])
    ensures RequestFor(InitialFilters) == ListingRequest && Displayed(ListBody(countries)) == Some(countries)
  {
    PaginateDefaults(countries);
    var f := InitialFilters.(population := Some(0));
    EmptyQueryIff(f);
  }
}
