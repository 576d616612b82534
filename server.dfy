/**
 * The server's process state and its three routes: the listing with its
 * cache, the search, and the lookup by country code. The dataset is set
 * once by the loader; until then every route answers 503.
 */
module Server {
  import opened Wrappers
  import opened Text
  import opened Dataset
  import opened Responses
  import opened Paging
  import opened Search

  const MaxFileSize: nat := 10 * 1024 * 1024

  /** What the loader finds on disk: whether the file exists, its size, and what it parses to. */
  datatype Parsed = Malformed | NotAnArray | CountryArray(records: seq<Country>)
  datatype DataFile = DataFile(present: bool, size: nat, parsed: Parsed)

  /** Why loading failed; each one ends the process. */
  datatype LoadError = FileMissing | FileTooLarge | BadJson | BadFormat

  datatype Loaded = Loaded(records: seq<Country>) | LoadFailed(error: LoadError)

  /** The checks `loadData` makes, in its order. */
  function LoadCheck(f: DataFile): (r: Loaded)
    ensures r.Loaded? <==> f.present && f.size <= MaxFileSize && f.parsed.CountryArray? && f.parsed.records != []
    ensures r.Loaded? ==> r.records == f.parsed.records
    ensures r == LoadFailed(FileMissing) <==> !f.present
    ensures r == LoadFailed(FileTooLarge) <==> f.present && f.size > MaxFileSize
  {
    if !f.present then LoadFailed(FileMissing)
    else if f.size > MaxFileSize then LoadFailed(FileTooLarge)
    else match f.parsed
      case Malformed => LoadFailed(BadJson)
      case NotAnArray => LoadFailed(BadFormat)
      case CountryArray(rs) => if rs == [] then LoadFailed(BadFormat) else Loaded(rs)
  }

  /** A record answers to a code when either of its codes equals it, ignoring case. */
  predicate CodeMatches(c: Country, code: string) {
    Lower(c.cca2) == Lower(code) || Lower(c.cca3) == Lower(code)
  }

  /** `countries.find(...)`: the index of the first record that answers to `code`. */
  function FindByCode(countries: seq<Country>, code: string): (r: Option<nat>)
    ensures r.Some? ==> r.value < |countries| && CodeMatches(countries[r.value], code)
    ensures r.Some? ==> forall j :: 0 <= j < r.value ==> !CodeMatches(countries[j], code)
    ensures r.None? ==> forall j :: 0 <= j < |countries| ==> !CodeMatches(countries[j], code)
    decreases |countries|
  {
    if countries == [] then None
    else if CodeMatches(countries[0], code) then Some(0)
    else match FindByCode(countries[1..], code)
      case None => None
      case Some(k) => Some(k + 1)
  }

  /** The `/api/countries/:code` handler on a loaded dataset. */
  function LookupByCode(countries: seq<Country>, code: string): (r: Response<Country>)
    ensures r == Fail(BadCode) <==> |code| < 2 || |code| > 3
    ensures r == Fail(NotFound) <==>
      2 <= |code| <= 3 && forall j :: 0 <= j < |countries| ==> !CodeMatches(countries[j], code)
    ensures r.Ok? ==> exists i :: 0 <= i < |countries| && countries[i] == r.body
                               && CodeMatches(r.body, code)
                               && forall j :: 0 <= j < i ==> !CodeMatches(countries[j], code)
  {
    if |code| < 2 || |code| > 3 then Fail(BadCode)
    else match FindByCode(countries, code)
      case None => Fail(NotFound)
      case Some(i) => Ok(countries[i])
  }

  /** Two codes that agree ignoring case find the same record: `RU` and `ru` are the same lookup. */
  lemma {:induction false} LookupIgnoresCase(countries: seq<Country>, a: string, b: string)
    requires Lower(a) == Lower(b)
    ensures FindByCode(countries, a) == FindByCode(countries, b)
    ensures LookupByCode(countries, a) == LookupByCode(countries, b)
    decreases |countries|
  {
    if countries != [] {
      LookupIgnoresCase(countries[1..], a, b);
    }
  }

  /**
   * The process-wide state of the server: the dataset, the flag the loader
   * sets and the cached listing (an optional stored value; its expiry is
   * `ExpireCache`).
   */
  class Backend {
    var countries: seq<Country>
    var isDataLoaded: bool
    var cache: Option<seq<Country>>

    /** The cached listing, when present, is the dataset; nothing is cached before loading. */
    ghost predicate Valid()
      reads this
    {
      && (cache.Some? ==> isDataLoaded && cache.value == countries)
      && (isDataLoaded ==> countries != [])
    }

    constructor ()
      ensures Valid()
      ensures countries == [] && !isDataLoaded && cache == None
    {
      countries := [];
      isDataLoaded := false;
      cache := None;
    }

    /** `loadData` at start-up: on success the dataset is set and marked loaded; on failure the process exits. */
    method LoadData(file: DataFile) returns (r: Loaded)
      requires Valid() && !isDataLoaded
      modifies this
      ensures Valid()
      ensures r == LoadCheck(file)
      ensures r.Loaded? ==> countries == r.records && isDataLoaded && cache == old(cache)
      ensures r.LoadFailed? ==> countries == old(countries) && !isDataLoaded && cache == old(cache)
    {
      r := LoadCheck(file);
      if r.Loaded? {
        countries := r.records;
        isDataLoaded := true;
      }
    }

    /** `GET /api/countries`: the cached listing, storing it on a miss. Either way the answer is the dataset. */
    method ListAll() returns (r: Response<seq<Country>>)
      requires Valid()
      modifies this`cache
      ensures Valid()
      ensures r == (if isDataLoaded then Ok(countries) else Fail(NotReady))
      ensures isDataLoaded ==> cache == Some(countries)
      ensures !isDataLoaded ==> cache == old(cache)
    {
      if !isDataLoaded {
        return Fail(NotReady);
      }
      if cache.Some? {
        return Ok(cache.value);
      }
      cache := Some(countries);
      r := Ok(countries);
    }

    /** The cache entry's time to live elapsing. */
    method ExpireCache()
      requires Valid()
      modifies this`cache
      ensures Valid() && cache == None
    {
      cache := None;
    }

    /** `GET /api/countries/search`. */
    method Search(q: SearchQuery) returns (r: Response<Page<Country>>)
      requires Valid()
      ensures r == (if isDataLoaded then SearchCountries(countries, q) else Fail(NotReady))
    {
      if !isDataLoaded {
        return Fail(NotReady);
      }
      var invalid := Validate(q);
      if invalid.Some? {
        return Fail(invalid.value);
      }
      var found := RunChain(countries, Steps(q));
      if found.None? {
        return Fail(InternalError);
      }
      r := Ok(Paginate(found.value, q.page, q.limit));
    }

    /** `GET /api/countries/:code`. */
    method GetByCode(code: string) returns (r: Response<Country>)
      requires Valid()
      ensures r == (if isDataLoaded then LookupByCode(countries, code) else Fail(NotReady))
    {
      if !isDataLoaded {
        return Fail(NotReady);
      }
      r := LookupByCode(countries, code);
    }
  }

  /** Listing twice in a row answers the same content, whether or not the first call filled the cache. */
  method ListTwice(b: Backend) returns (first: Response<seq<Country>>, second: Response<seq<Country>>)
    requires b.Valid()
    modifies b
    ensures first == second
  {
    first := b.ListAll();
    second := b.ListAll();
  }
}
