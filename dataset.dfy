/** The country record as the dataset file stores it. */
module Dataset {
  import opened Wrappers

  /**
   * One country. A field that a record may lack is an `Option`:
   * `region`, `continents`, `languages`, `currencies` and `timezones`.
   * `languages` and `currencies` are the key sets of the record's
   * code-to-name objects; the names are not used by the core.
   */
  datatype Country = Country(
    cca2: string,
    cca3: string,
    common: string,
    official: string,
    region: Option<string>,
    continents: Option<seq<string>>,
    languages: Option<set<string>>,
    currencies: Option<set<string>>,
    timezones: Option<seq<string>>,
    population: int,
    area: real,
    independent: bool,
    unMember: bool,
    landlocked: bool)

  /** `Object.keys(country.languages || {})`: a record without languages has none. */
  function LanguageCodes(c: Country): (r: set<string>)
    ensures c.languages.None? ==> r == {}
    ensures c.languages.Some? ==> r == c.languages.value
  {
    c.languages.GetOr({})
  }

  /** `Object.keys(country.currencies || {})`. */
  function CurrencyCodes(c: Country): (r: set<string>)
    ensures c.currencies.None? ==> r == {}
    ensures c.currencies.Some? ==> r == c.currencies.value
  {
    c.currencies.GetOr({})
  }
}
