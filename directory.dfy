/**
 * The country and region lookups of the address import: a linear search of the
 * store's country option list (`_searchCountriesByKeyAndValue`) and the region
 * directory, taken here as two tables keyed by (region code or name, country code).
 */
module Directory {
  import opened Wrappers

  /** One entry of the country option list: its `label` (the display name) and its
      `value` (the ISO code). */
  datatype Country = Country(name: string, code: string)

  /** A region of the directory; an id of 0 stands for a region model that was not loaded. */
  datatype Region = Region(id: nat, defaultName: string)

  /** The lookup data the address import reads. */
  datatype Env = Env(
    countries: seq<Country>,
    regionsByCode: map<(string, string), Region>,
    regionsByName: map<(string, string), Region>)

  /** The column `array_column` extracts before the search. */
  datatype CountryKey = Label | Code

  datatype LookupError = CountryNotFound(key: CountryKey, value: string)

  function Column(c: Country, key: CountryKey): string {
    match key
    case Label => c.name
    case Code => c.code
  }

  /** `array_search($value, array_column($countries, $key))`: the first index whose
      column equals the value (the loose comparison read as string equality). */
  function FirstIndex(countries: seq<Country>, key: CountryKey, value: string): (r: Option<nat>)
    ensures r.Some? ==> r.value < |countries| && Column(countries[r.value], key) == value
    ensures r.Some? ==> forall j :: 0 <= j < r.value ==> Column(countries[j], key) != value
    ensures r.None? ==> forall j :: 0 <= j < |countries| ==> Column(countries[j], key) != value
    decreases |countries|
  {
    if countries == [] then None
    else if Column(countries[0], key) == value then Some(0)
    else
      match FirstIndex(countries[1..], key, value)
      case None => None
      case Some(i) => Some(i + 1)
  }

  /** `_searchCountriesByKeyAndValue`: found key tested for truthiness, so a match at
      index 0 is reported exactly like no match. */
  function SearchCountries(countries: seq<Country>, key: CountryKey, value: string): (r: Result<Country, LookupError>)
    ensures r.Ok? ==> |countries| >= 2 && Column(r.value, key) == value && r.value in countries[1..]
    ensures r.Err? ==> r.error == CountryNotFound(key, value)
  {
    var found := FirstIndex(countries, key, value);
    if found.Some? && found.value != 0 then
      assert countries[found.value] == countries[1..][found.value - 1];
      Ok(countries[found.value])
    else
      Err(CountryNotFound(key, value))
  }

  /** The search succeeds exactly when the FIRST entry whose column holds the value
      is not the list's first entry, and then returns that entry. */
  lemma SearchCountriesFound(countries: seq<Country>, key: CountryKey, value: string)
    ensures SearchCountries(countries, key, value).Ok? <==>
      exists i :: 0 < i < |countries| && Column(countries[i], key) == value
        && forall j :: 0 <= j < i ==> Column(countries[j], key) != value
    ensures SearchCountries(countries, key, value).Ok? ==>
      exists i :: 0 < i < |countries| && SearchCountries(countries, key, value).value == countries[i]
        && forall j :: 0 <= j < i ==> Column(countries[j], key) != value
  {
    var found := FirstIndex(countries, key, value);
    if found.Some? && found.value == 0 {
      forall i | 0 < i < |countries| && Column(countries[i], key) == value
        ensures exists j :: 0 <= j < i && Column(countries[j], key) == value
      {
        assert Column(countries[0], key) == value;
      }
    }
  }

  /** The first country of the list can never be found. */
  lemma FirstCountryNeverFound(countries: seq<Country>, key: CountryKey)
    requires |countries| > 0
    ensures SearchCountries(countries, key, Column(countries[0], key)).Err?
  {
  }

  function GetCountryByName(countries: seq<Country>, name: string): Result<Country, LookupError> {
    SearchCountries(countries, Label, name)
  }

  function GetCountryByCode(countries: seq<Country>, code: string): Result<Country, LookupError> {
    SearchCountries(countries, Code, code)
  }

  /** `getRegionByCode($code, $countryName)`: the country is looked up by its LABEL,
      then the region by (code, country code); None when no region was loaded. */
  function GetRegionByCode(env: Env, code: string, countryName: string): (r: Result<Option<Region>, LookupError>)
    ensures GetCountryByName(env.countries, countryName).Err? ==> r.Err?
    ensures r.Ok? ==> GetCountryByName(env.countries, countryName).Ok?
    ensures r.Ok? ==> var key := (code, GetCountryByName(env.countries, countryName).value.code);
      r.value == if key in env.regionsByCode then Some(env.regionsByCode[key]) else None
  {
    var country :- GetCountryByName(env.countries, countryName);
    var key := (code, country.code);
    Ok(if key in env.regionsByCode then Some(env.regionsByCode[key]) else None)
  }

  /** `getRegionByName($name, $countryName)`. */
  function GetRegionByName(env: Env, name: string, countryName: string): (r: Result<Option<Region>, LookupError>)
    ensures GetCountryByName(env.countries, countryName).Err? ==> r.Err?
    ensures r.Ok? ==> GetCountryByName(env.countries, countryName).Ok?
    ensures r.Ok? ==> var key := (name, GetCountryByName(env.countries, countryName).value.code);
      r.value == if key in env.regionsByName then Some(env.regionsByName[key]) else None
  {
    var country :- GetCountryByName(env.countries, countryName);
    var key := (name, country.code);
    Ok(if key in env.regionsByName then Some(env.regionsByName[key]) else None)
  }
}
