/**
 * `mapData` of the address import: one CSV row (column name to text) becomes the
 * address attributes Magento stores, column by column in the row's order.
 */
module AddressMapping {
  import opened Wrappers
  import opened Php
  import opened PhpArray
  import opened Directory

  /** The attributes every formatted address starts with, all null, in this order. */
  const InitialKeys: seq<string> := ["firstname", "middlename", "lastname", "company", "street", "city",
    "region", "region_id", "postcode", "country_id", "telephone", "created_at", "updated_at"]

  const UsCountryValues: seq<string> := ["US", "us", "USA", "usa", "United States", "united states"]

  /** The telephone stored for an empty phone column. */
  const PhoneSentinel: string := "000-000-0000"

  /** The width of the `%'.05d` pattern applied to US zip codes. */
  const UsZipWidth: nat := 5

  function InitialAddress(): (a: Assoc<Value>)
    ensures Keys(a) == InitialKeys
  {
    seq(|InitialKeys|, i requires 0 <= i < |InitialKeys| => (InitialKeys[i], Null))
  }

  /** How the `switch` of `mapData` treats a column, by its name. */
  datatype ColumnKind =
    | NameLike      // firstname, middlename, lastname, company, city: ucwords
    | Address1      // replaces the street
    | Address2      // appends a second street line
    | Address3      // address3 and suite: append to the current line
    | PostcodeLike  // postcode, zip
    | RegionLike    // region, state
    | PhoneLike     // telephone, phone
    | CountryName   // country, looked up by its label
    | Other         // copied unchanged under its own name

  function KindOf(key: string): ColumnKind {
    if key in ["firstname", "middlename", "lastname", "company", "city"] then NameLike
    else if key == "address1" then Address1
    else if key == "address2" then Address2
    else if key in ["address3", "suite"] then Address3
    else if key in ["postcode", "zip"] then PostcodeLike
    else if key in ["region", "state"] then RegionLike
    else if key in ["telephone", "phone"] then PhoneLike
    else if key == "country" then CountryName
    else Other
  }

  datatype MapError =
    | RegionPlaceholder                  // the region column holds "--"
    | UsRegionTooShort(value: string)    // a US region shorter than two characters
    | UsRegionNotFound                   // no region (or region id 0) in the directory
    | CountryLookup(e: LookupError)      // the country label is not in the option list

  /** Zip codes are padded when the row's country, lowercased, is a US value. */
  predicate UsZipCountry(data: Assoc<string>) {
    var c := Get(data, "country");
    c.Some? && Lower(c.value) in UsCountryValues
  }

  /** Regions are looked up in the directory when the row's country, AS WRITTEN, is a US value. */
  predicate UsRegionCountry(data: Assoc<string>) {
    var c := Get(data, "country");
    c.Some? && c.value in UsCountryValues
  }

  /** PHP's string conversion of a stored value, as `.` performs it. */
  function AsString(v: Value): string {
    match v
    case Null => ""
    case Str(s) => s
    case Num(n) => FormatInt(n, 0)
    case Bool(b) => if b then "1" else ""
  }

  /** The directory region of a US row: by code for two characters, by name for more. */
  function ResolveUsRegion(env: Env, value: string, country: string): (r: Result<Region, MapError>)
    ensures r.Ok? ==> r.value.id != 0 && |value| >= 2
    ensures |value| < 2 ==> r == Err(UsRegionTooShort(value))
  {
    var found :=
      if |value| == 2 then GetRegionByCode(env, value, country)
      else if |value| > 2 then GetRegionByName(env, value, country)
      else Ok(None);
    if |value| < 2 then Err(UsRegionTooShort(value))
    else if found.Err? then Err(CountryLookup(found.error))
    else if found.value.Some? && found.value.value.id != 0 then Ok(found.value.value)
    else Err(UsRegionNotFound)
  }

  /** A US region is found by its code when the value has two characters and by its
      name when it has more, and only a loaded region (id not 0) is accepted. */
  lemma ResolveUsRegionLookup(env: Env, value: string, country: string)
    ensures var r := ResolveUsRegion(env, value, country);
      var byCode := GetRegionByCode(env, value, country);
      var byName := GetRegionByName(env, value, country);
      (|value| == 2 ==> (r.Ok? <==> byCode.Ok? && byCode.value.Some? && byCode.value.value.id != 0))
      && (|value| > 2 ==> (r.Ok? <==> byName.Ok? && byName.value.Some? && byName.value.value.id != 0))
      && (|value| == 2 && r.Ok? ==> GetRegionByCode(env, value, country) == Ok(Some(r.value)))
      && (|value| > 2 && r.Ok? ==> GetRegionByName(env, value, country) == Ok(Some(r.value)))
  {
  }

  /** What one column does to the address: the `case` of the switch it falls in. */
  datatype Effect =
    | SetField(key: string, v: Value)                 // `$formattedAddress[key] = v`
    | AppendStreet(separator: string, line: string)   // the street so far, the separator, the line
    | SetRegion(name: string, id: nat)                // region and region_id from the directory
    | NoChange

  /** The `switch ($key)` of `mapData` for one column (key, value) of the row. */
  function ColumnEffect(data: Assoc<string>, env: Env, col: (string, string)): Result<Effect, MapError> {
    var (key, value) := col;
    match KindOf(key)
    case NameLike => Ok(SetField(key, Str(UcWords(value))))
    case Address1 => Ok(SetField("street", Str(UcWords(value))))
    case Address2 => Ok(if IsEmpty(value) then NoChange else AppendStreet("\n", UcWords(value)))
    case Address3 => Ok(if IsEmpty(value) then NoChange else AppendStreet(" ", UcWords(value)))
    case PostcodeLike =>
      Ok(if IsEmpty(value) then NoChange
         else SetField("postcode", Str(if UsZipCountry(data) then FormatInt(IntVal(value), UsZipWidth) else value)))
    case RegionLike =>
      if value == "--" then Err(RegionPlaceholder)
      else if UsRegionCountry(data) then
        var region :- ResolveUsRegion(env, value, Get(data, "country").value);
        Ok(SetRegion(region.defaultName, region.id))
      else Ok(SetField("region", Str(UcWords(value))))
    case PhoneLike => Ok(SetField("telephone", Str(if IsEmpty(value) then PhoneSentinel else value)))
    case CountryName =>
      var country := GetCountryByName(env.countries, value);
      if country.Err? then Err(CountryLookup(country.error))
      else Ok(SetField("country_id", Str(country.value.code)))
    case Other => Ok(SetField(key, Str(value)))
  }

  /** The assignments of an effect, made on the address built so far. */
  function Apply(acc: Assoc<Value>, e: Effect): Assoc<Value> {
    match e
    case SetField(k, v) => Put(acc, k, v)
    case AppendStreet(sep, line) => Put(acc, "street", Str(AsString(Field(acc, "street")) + sep + line))
    case SetRegion(name, id) => Put(Put(acc, "region", Str(name)), "region_id", Num(id))
    case NoChange => acc
  }

  /** The attributes an effect assigns. */
  function EffectKeys(e: Effect): seq<string> {
    match e
    case SetField(k, _) => [k]
    case AppendStreet(_, _) => ["street"]
    case SetRegion(_, _) => ["region", "region_id"]
    case NoChange => []
  }

  /** The value an effect gives to one of the attributes it assigns. */
  function NewValue(acc: Assoc<Value>, e: Effect, k: string): Value {
    match e
    case SetField(_, v) => v
    case AppendStreet(sep, line) => Str(AsString(Field(acc, "street")) + sep + line)
    case SetRegion(name, id) => if k == "region_id" then Num(id) else Str(name)
    case NoChange => Null
  }

  /** The effects of the row's columns, in the row's order. */
  function Effects(data: Assoc<string>, env: Env): (es: seq<Result<Effect, MapError>>)
    ensures |es| == |data|
    ensures forall i {:trigger ColumnEffect(data, env, data[i])} :: 0 <= i < |data| ==> es[i] == ColumnEffect(data, env, data[i])
  {
    EffectsUpTo(data, env, |data|)
  }

  function EffectsUpTo(data: Assoc<string>, env: Env, n: nat): (es: seq<Result<Effect, MapError>>)
    requires n <= |data|
    ensures |es| == n
    ensures forall i {:trigger ColumnEffect(data, env, data[i])} :: 0 <= i < n ==> es[i] == ColumnEffect(data, env, data[i])
    decreases n
  {
    if n == 0 then [] else EffectsUpTo(data, env, n - 1) + [ColumnEffect(data, env, data[n - 1])]
  }

  /** The address after the first n effects; the first failing effect is the result. */
  function Fold(es: seq<Result<Effect, MapError>>, n: nat): Result<Assoc<Value>, MapError>
    requires n <= |es|
    decreases n
  {
    if n == 0 then Ok(InitialAddress())
    else
      var acc :- Fold(es, n - 1);
      var e :- es[n - 1];
      Ok(Apply(acc, e))
  }

  /** The address after the first n columns of the row. */
  function MapPrefix(data: Assoc<string>, env: Env, n: nat): Result<Assoc<Value>, MapError>
    requires n <= |data|
  {
    Fold(Effects(data, env), n)
  }

  /** `mapData($data)`. */
  function MapAll(data: Assoc<string>, env: Env): Result<Assoc<Value>, MapError> {
    MapPrefix(data, env, |data|)
  }

  /** `mapData` as the command runs it: a loop over the columns that stops at the
      first column that throws. */
  method MapData(data: Assoc<string>, env: Env) returns (r: Result<Assoc<Value>, MapError>)
    ensures r == MapAll(data, env)
  {
    var acc := InitialAddress();
    ghost var es := Effects(data, env);
    for n := 0 to |data|
      invariant Fold(es, n) == Ok(acc)
    {
      var e := ColumnEffect(data, env, data[n]);
      FoldStep(es, n, acc, e);
      if e.Err? {
        FoldErrorPropagates(es, n + 1, |data|);
        return Err(e.error);
      }
      acc := Apply(acc, e.value);
    }
    r := Ok(acc);
  }

  // ---------------------------------------------------------------------------
  // The fold, whatever the effects
  // ---------------------------------------------------------------------------

  /** One more effect: its error, or the address with its assignments made. */
  lemma FoldStep(es: seq<Result<Effect, MapError>>, n: nat, acc: Assoc<Value>, e: Result<Effect, MapError>)
    requires n < |es| && Fold(es, n) == Ok(acc) && es[n] == e
    ensures Fold(es, n + 1) == if e.Err? then Err(e.error) else Ok(Apply(acc, e.value))
  {
  }

  lemma {:induction false} FoldErrorPropagates(es: seq<Result<Effect, MapError>>, m: nat, n: nat)
    requires m <= n <= |es|
    requires Fold(es, m).Err?
    ensures Fold(es, n) == Fold(es, m)
    decreases n
  {
    if n > m {
      FoldErrorPropagates(es, m, n - 1);
    }
  }

  lemma {:induction false} FoldErrIff(es: seq<Result<Effect, MapError>>, n: nat)
    requires n <= |es|
    ensures Fold(es, n).Err? <==> exists i :: 0 <= i < n && es[i].Err?
    decreases n
  {
    if n > 0 {
      FoldErrIff(es, n - 1);
    }
  }

  lemma {:induction false} FoldPrefixOk(es: seq<Result<Effect, MapError>>, m: nat, n: nat)
    requires m <= n <= |es|
    requires Fold(es, n).Ok?
    ensures Fold(es, m).Ok?
    ensures forall i :: 0 <= i < n ==> es[i].Ok?
    decreases n
  {
    FoldErrIff(es, n);
    FoldErrIff(es, m);
  }

  /** Effects m..n that do not assign k leave k as effect m found it. */
  lemma {:induction false} FoldFrame(es: seq<Result<Effect, MapError>>, m: nat, n: nat, k: string)
    requires m <= n <= |es|
    requires Fold(es, n).Ok?
    requires forall j :: m <= j < n && es[j].Ok? ==> k !in EffectKeys(es[j].value)
    ensures Fold(es, m).Ok?
    ensures Get(Fold(es, n).value, k) == Get(Fold(es, m).value, k)
    decreases n
  {
    if n > m {
      FoldFrame(es, m, n - 1, k);
      ApplyGet(Fold(es, n - 1).value, es[n - 1].value, k);
    }
  }

  lemma {:induction false} FoldShape(es: seq<Result<Effect, MapError>>, n: nat)
    requires n <= |es|
    requires Fold(es, n).Ok?
    ensures var a := Fold(es, n).value;
      WellShaped(a) && forall k :: k in Keys(a) ==>
        k in InitialKeys || exists i :: 0 <= i < n && es[i].Ok? && k in EffectKeys(es[i].value)
    decreases n
  {
    if n == 0 {
      InitialUnique();
    } else {
      FoldPrefixOk(es, n - 1, n);
      FoldShape(es, n - 1);
      var acc := Fold(es, n - 1).value;
      ApplyKeys(acc, es[n - 1].value);
      ApplyShape(acc, es[n - 1].value);
    }
  }

  // ---------------------------------------------------------------------------
  // Which columns throw
  // ---------------------------------------------------------------------------

  /** A region or state column of "--", a US region the directory does not have, and
      a country label missing from the option list throw. */
  predicate ColumnFails(data: Assoc<string>, env: Env, col: (string, string)) {
    (KindOf(col.0) == RegionLike &&
      (col.1 == "--" || (UsRegionCountry(data) && ResolveUsRegion(env, col.1, Get(data, "country").value).Err?)))
    || (KindOf(col.0) == CountryName && GetCountryByName(env.countries, col.1).Err?)
  }

  lemma EffectFails(data: Assoc<string>, env: Env, col: (string, string))
    ensures ColumnEffect(data, env, col).Err? <==> ColumnFails(data, env, col)
  {
  }

  /** `mapData` throws exactly when some column of the row throws. */
  lemma MapAllErrIff(data: Assoc<string>, env: Env)
    ensures MapAll(data, env).Err? <==> exists i :: 0 <= i < |data| && ColumnFails(data, env, data[i])
  {
    var es := Effects(data, env);
    FoldErrIff(es, |data|);
    forall i | 0 <= i < |data| ensures es[i].Err? <==> ColumnFails(data, env, data[i]) {
      EffectFails(data, env, data[i]);
    }
  }

  // ---------------------------------------------------------------------------
  // What an effect does to the address
  // ---------------------------------------------------------------------------

  lemma ApplyGet(acc: Assoc<Value>, e: Effect, k: string)
    ensures Get(Apply(acc, e), k) == if k in EffectKeys(e) then Some(NewValue(acc, e, k)) else Get(acc, k)
  {
    match e
    case SetField(k0, v) => GetPut(acc, k0, v, k);
    case AppendStreet(sep, line) => GetPut(acc, "street", Str(AsString(Field(acc, "street")) + sep + line), k);
    case SetRegion(name, id) =>
      GetPut(Put(acc, "region", Str(name)), "region_id", Num(id), k);
      GetPut(acc, "region", Str(name), k);
    case NoChange =>
  }

  lemma ApplyKeys(acc: Assoc<Value>, e: Effect)
    requires UniqueKeys(acc)
    ensures var r := Apply(acc, e);
      UniqueKeys(r) && |r| >= |acc| && Keys(r)[..|acc|] == Keys(acc)
      && forall k :: k in Keys(r) ==> k in Keys(acc) || k in EffectKeys(e)
  {
    match e
    case SetField(k0, v) =>
      PutUnique(acc, k0, v);
      PutKeys(acc, k0, v);
    case AppendStreet(sep, line) =>
      PutUnique(acc, "street", Str(AsString(Field(acc, "street")) + sep + line));
      PutKeys(acc, "street", Str(AsString(Field(acc, "street")) + sep + line));
    case SetRegion(name, id) =>
      PutUnique(acc, "region", Str(name));
      PutKeys(acc, "region", Str(name));
      PutUnique(Put(acc, "region", Str(name)), "region_id", Num(id));
      PutKeys(Put(acc, "region", Str(name)), "region_id", Num(id));
    case NoChange =>
  }

  // ---------------------------------------------------------------------------
  // The shape of the result
  // ---------------------------------------------------------------------------

  /** The column may change the attribute k (an empty second or third street line,
      and an empty postcode, change nothing). */
  predicate Writes(data: Assoc<string>, col: (string, string), k: string) {
    match KindOf(col.0)
    case NameLike => k == col.0
    case Address1 => k == "street"
    case Address2 => k == "street" && !IsEmpty(col.1)
    case Address3 => k == "street" && !IsEmpty(col.1)
    case PostcodeLike => k == "postcode" && !IsEmpty(col.1)
    case RegionLike => k == "region" || (k == "region_id" && UsRegionCountry(data))
    case PhoneLike => k == "telephone"
    case CountryName => k == "country_id"
    case Other => k == col.0
  }

  /** The column at position i writes the attribute k. */
  predicate WritesAt(data: Assoc<string>, i: nat, k: string)
    requires i < |data|
  {
    Writes(data, data[i], k)
  }

  lemma EffectWrites(data: Assoc<string>, env: Env, col: (string, string), k: string)
    requires ColumnEffect(data, env, col).Ok?
    requires k in EffectKeys(ColumnEffect(data, env, col).value)
    ensures Writes(data, col, k)
    ensures k in InitialKeys || k == col.0
  {
  }

  lemma InitialUnique()
    ensures UniqueKeys(InitialAddress())
  {
    var a := InitialAddress();
    forall i, j | 0 <= i < j < |a| ensures a[i].0 != a[j].0 {
      assert a[i].0 == InitialKeys[i] && a[j].0 == InitialKeys[j];
    }
  }

  /** The 13 initial attributes at the head of the address, and no attribute twice. */
  predicate WellShaped(a: Assoc<Value>) {
    UniqueKeys(a) && |a| >= |InitialKeys| && Keys(a)[..|InitialKeys|] == InitialKeys
  }

  lemma ApplyShape(acc: Assoc<Value>, e: Effect)
    requires WellShaped(acc)
    ensures WellShaped(Apply(acc, e))
  {
    ApplyKeys(acc, e);
    var r := Apply(acc, e);
    assert Keys(r)[..|InitialKeys|] == Keys(r)[..|acc|][..|InitialKeys|];
  }

  /** The 13 initial attributes keep their places at the head of the address, no
      attribute appears twice, and every other attribute is the name of a column. */
  lemma Shape(data: Assoc<string>, env: Env)
    requires MapAll(data, env).Ok?
    ensures var a := MapAll(data, env).value;
      WellShaped(a) && forall k :: k in Keys(a) ==> k in InitialKeys || k in Keys(data)
  {
    var es := Effects(data, env);
    FoldShape(es, |data|);
    var a := MapAll(data, env).value;
    forall k | k in Keys(a) && k !in InitialKeys ensures k in Keys(data) {
      var i :| 0 <= i < |data| && es[i].Ok? && k in EffectKeys(es[i].value);
      EffectWrites(data, env, data[i], k);
      assert Keys(data)[i] == k;
    }
  }

  // ---------------------------------------------------------------------------
  // Which column decides each attribute
  // ---------------------------------------------------------------------------

  /** Columns m..n that do not write k leave k as column m found it. */
  lemma SuffixFrame(data: Assoc<string>, env: Env, m: nat, n: nat, k: string)
    requires m <= n <= |data|
    requires MapPrefix(data, env, n).Ok?
    requires forall j :: m <= j < n ==> !Writes(data, data[j], k)
    ensures MapPrefix(data, env, m).Ok?
    ensures Get(MapPrefix(data, env, n).value, k) == Get(MapPrefix(data, env, m).value, k)
  {
    var es := Effects(data, env);
    forall j | m <= j < n && es[j].Ok? ensures k !in EffectKeys(es[j].value) {
      if k in EffectKeys(es[j].value) {
        EffectWrites(data, env, data[j], k);
      }
    }
    FoldFrame(es, m, n, k);
  }

  /** The column at j, whose effect is e, as it leaves the attribute k. */
  lemma StepAt(data: Assoc<string>, env: Env, j: nat, k: string, e: Effect)
    requires j < |data| && MapPrefix(data, env, j + 1).Ok?
    requires ColumnEffect(data, env, data[j]) == Ok(e)
    ensures MapPrefix(data, env, j).Ok?
    ensures var acc := MapPrefix(data, env, j).value;
      Get(MapPrefix(data, env, j + 1).value, k) == if k in EffectKeys(e) then Some(NewValue(acc, e, k)) else Get(acc, k)
  {
    var es := Effects(data, env);
    FoldPrefixOk(es, j, j + 1);
    ApplyGet(Fold(es, j).value, e, k);
  }

  /** The attribute k of the address is what the LAST column writing k made of it. */
  lemma LastWriter(data: Assoc<string>, env: Env, j: nat, k: string, e: Effect)
    requires j < |data| && MapAll(data, env).Ok?
    requires ColumnEffect(data, env, data[j]) == Ok(e)
    requires forall i :: j < i < |data| ==> !Writes(data, data[i], k)
    ensures MapPrefix(data, env, j).Ok?
    ensures var acc := MapPrefix(data, env, j).value;
      Get(MapAll(data, env).value, k) == if k in EffectKeys(e) then Some(NewValue(acc, e, k)) else Get(acc, k)
  {
    SuffixFrame(data, env, j + 1, |data|, k);
    StepAt(data, env, j, k, e);
  }

  /** An attribute no column writes keeps its initial value: null for the 13 initial
      attributes, absent otherwise. */
  lemma NoWriter(data: Assoc<string>, env: Env, k: string)
    requires MapAll(data, env).Ok?
    requires forall i :: 0 <= i < |data| ==> !Writes(data, data[i], k)
    ensures Get(MapAll(data, env).value, k) == if k in InitialKeys then Some(Null) else None
  {
    SuffixFrame(data, env, 0, |data|, k);
    GetUniform(InitialAddress(), Null, k);
  }

  // The effect of each kind of column, one case of the switch at a time.

  lemma NameEffect(data: Assoc<string>, env: Env, col: (string, string))
    requires KindOf(col.0) == NameLike
    ensures ColumnEffect(data, env, col) == Ok(SetField(col.0, Str(UcWords(col.1))))
  {
  }

  lemma OtherEffect(data: Assoc<string>, env: Env, col: (string, string))
    requires KindOf(col.0) == Other
    ensures ColumnEffect(data, env, col) == Ok(SetField(col.0, Str(col.1)))
  {
  }

  lemma PhoneEffect(data: Assoc<string>, env: Env, col: (string, string))
    requires KindOf(col.0) == PhoneLike
    ensures ColumnEffect(data, env, col) == Ok(SetField("telephone", Str(if IsEmpty(col.1) then PhoneSentinel else col.1)))
  {
  }

  lemma PostcodeEffect(data: Assoc<string>, env: Env, col: (string, string))
    requires KindOf(col.0) == PostcodeLike && !IsEmpty(col.1)
    ensures ColumnEffect(data, env, col)
         == Ok(SetField("postcode", Str(if UsZipCountry(data) then FormatInt(IntVal(col.1), UsZipWidth) else col.1)))
  {
  }

  lemma Address1Effect(data: Assoc<string>, env: Env, col: (string, string))
    requires KindOf(col.0) == Address1
    ensures ColumnEffect(data, env, col) == Ok(SetField("street", Str(UcWords(col.1))))
  {
  }

  lemma Address2Effect(data: Assoc<string>, env: Env, col: (string, string))
    requires KindOf(col.0) == Address2 && !IsEmpty(col.1)
    ensures ColumnEffect(data, env, col) == Ok(AppendStreet("\n", UcWords(col.1)))
  {
  }

  lemma Address3Effect(data: Assoc<string>, env: Env, col: (string, string))
    requires KindOf(col.0) == Address3 && !IsEmpty(col.1)
    ensures ColumnEffect(data, env, col) == Ok(AppendStreet(" ", UcWords(col.1)))
  {
  }

  lemma RegionEffect(data: Assoc<string>, env: Env, col: (string, string))
    requires KindOf(col.0) == RegionLike && ColumnEffect(data, env, col).Ok?
    ensures col.1 != "--"
    ensures !UsRegionCountry(data) ==> ColumnEffect(data, env, col) == Ok(SetField("region", Str(UcWords(col.1))))
    ensures UsRegionCountry(data) ==>
      var region := ResolveUsRegion(env, col.1, Get(data, "country").value);
      region.Ok? && ColumnEffect(data, env, col) == Ok(SetRegion(region.value.defaultName, region.value.id))
  {
  }

  lemma UsRegionEffect(data: Assoc<string>, env: Env, col: (string, string))
    requires KindOf(col.0) == RegionLike && ColumnEffect(data, env, col).Ok? && UsRegionCountry(data)
    ensures var region := ResolveUsRegion(env, col.1, Get(data, "country").value);
      region.Ok? && ColumnEffect(data, env, col) == Ok(SetRegion(region.value.defaultName, region.value.id))
  {
  }

  lemma CountryEffect(data: Assoc<string>, env: Env, col: (string, string))
    requires KindOf(col.0) == CountryName && ColumnEffect(data, env, col).Ok?
    ensures var c := GetCountryByName(env.countries, col.1);
      c.Ok? && ColumnEffect(data, env, col) == Ok(SetField("country_id", Str(c.value.code)))
  {
  }

  /** MapAll succeeds only if every shorter prefix of the row does. */
  lemma PrefixOk(data: Assoc<string>, env: Env, m: nat)
    requires m < |data| && MapAll(data, env).Ok?
    ensures MapPrefix(data, env, m).Ok? && MapPrefix(data, env, m + 1).Ok?
  {
    FoldPrefixOk(Effects(data, env), m, |data|);
    FoldPrefixOk(Effects(data, env), m + 1, |data|);
  }

  /** MapAll succeeds only if every column's effect does. */
  lemma ColumnOk(data: Assoc<string>, env: Env, j: nat)
    requires j < |data| && MapAll(data, env).Ok?
    ensures ColumnEffect(data, env, data[j]).Ok?
  {
    FoldPrefixOk(Effects(data, env), |data|, |data|);
  }

  // What each attribute of the formatted address holds.

  /** firstname, middlename, lastname, company and city are the column's text with
      every word capitalised. */
  lemma NameField(data: Assoc<string>, env: Env, j: nat)
    requires UniqueKeys(data) && j < |data| && MapAll(data, env).Ok?
    requires KindOf(data[j].0) == NameLike
    ensures Get(MapAll(data, env).value, data[j].0) == Some(Str(UcWords(data[j].1)))
  {
    var k := data[j].0;
    forall i | j < i < |data| ensures !Writes(data, data[i], k) {
      assert data[i].0 != k;
    }
    NameEffect(data, env, data[j]);
    LastWriter(data, env, j, k, SetField(k, Str(UcWords(data[j].1))));
  }

  /** A column the switch does not recognise is copied unchanged under its own name
      (save for street, region_id and country_id, which other columns also write). */
  lemma PassThrough(data: Assoc<string>, env: Env, j: nat)
    requires UniqueKeys(data) && j < |data| && MapAll(data, env).Ok?
    requires KindOf(data[j].0) == Other && data[j].0 !in ["street", "region_id", "country_id"]
    ensures Get(MapAll(data, env).value, data[j].0) == Some(Str(data[j].1))
  {
    var k := data[j].0;
    forall i | j < i < |data| ensures !Writes(data, data[i], k) {
      assert data[i].0 != k;
    }
    OtherEffect(data, env, data[j]);
    LastWriter(data, env, j, k, SetField(k, Str(data[j].1)));
  }

  /** The telephone is the last phone column's text, or the sentinel number when that
      text is empty. */
  lemma TelephoneField(data: Assoc<string>, env: Env, j: nat)
    requires j < |data| && MapAll(data, env).Ok?
    requires KindOf(data[j].0) == PhoneLike
    requires forall i :: j < i < |data| ==> KindOf(data[i].0) != PhoneLike
    ensures Get(MapAll(data, env).value, "telephone")
         == Some(Str(if IsEmpty(data[j].1) then PhoneSentinel else data[j].1))
  {
    PhoneEffect(data, env, data[j]);
    LastWriter(data, env, j, "telephone", SetField("telephone", Str(if IsEmpty(data[j].1) then PhoneSentinel else data[j].1)));
  }

  /** Without a phone column the telephone stays null. */
  lemma NoTelephone(data: Assoc<string>, env: Env)
    requires MapAll(data, env).Ok?
    requires forall i :: 0 <= i < |data| ==> KindOf(data[i].0) != PhoneLike
    ensures Get(MapAll(data, env).value, "telephone") == Some(Null)
  {
    NoWriter(data, env, "telephone");
  }

  /** The postcode is the last non-empty postcode or zip column, zero-padded to five
      digits when the row's country (lowercased) is a US value. */
  lemma PostcodeField(data: Assoc<string>, env: Env, j: nat)
    requires j < |data| && MapAll(data, env).Ok?
    requires KindOf(data[j].0) == PostcodeLike && !IsEmpty(data[j].1)
    requires forall i :: j < i < |data| && KindOf(data[i].0) == PostcodeLike ==> IsEmpty(data[i].1)
    ensures Get(MapAll(data, env).value, "postcode")
         == Some(Str(if UsZipCountry(data) then FormatInt(IntVal(data[j].1), UsZipWidth) else data[j].1))
  {
    var v := data[j].1;
    PostcodeEffect(data, env, data[j]);
    LastWriter(data, env, j, "postcode",
      SetField("postcode", Str(if UsZipCountry(data) then FormatInt(IntVal(v), UsZipWidth) else v)));
  }

  /** When every postcode and zip column is empty, the postcode stays null. */
  lemma NoPostcode(data: Assoc<string>, env: Env)
    requires MapAll(data, env).Ok?
    requires forall i :: 0 <= i < |data| && KindOf(data[i].0) == PostcodeLike ==> IsEmpty(data[i].1)
    ensures Get(MapAll(data, env).value, "postcode") == Some(Null)
  {
    NoWriter(data, env, "postcode");
  }

  /** A US zip code of one to five digits becomes exactly five digits: the code with
      zeros in front ("501" is stored as "00501"). */
  lemma UsZipPadded(data: Assoc<string>, env: Env, j: nat)
    requires j < |data| && MapAll(data, env).Ok? && UsZipCountry(data)
    requires KindOf(data[j].0) == PostcodeLike && !IsEmpty(data[j].1)
    requires forall i :: j < i < |data| && KindOf(data[i].0) == PostcodeLike ==> IsEmpty(data[i].1)
    requires AllDigits(data[j].1) && 1 <= |data[j].1| <= UsZipWidth
    ensures Get(MapAll(data, env).value, "postcode") == Some(Str(Zeros(UsZipWidth - |data[j].1|) + data[j].1))
  {
    PostcodeField(data, env, j);
    ShortDigitsFit(data[j].1);
    FormatIntOfDigits(data[j].1, UsZipWidth);
  }

  /** A US zip code whose number does not fit in 64 bits, but does fit in a
      double, is stored as the digits of PHP_INT_MAX, the integer
      `sprintf('%05d', ...)` saturates it to. */
  lemma UsZipSaturates(data: Assoc<string>, env: Env, j: nat)
    requires j < |data| && MapAll(data, env).Ok? && UsZipCountry(data)
    requires KindOf(data[j].0) == PostcodeLike
    requires forall i :: j < i < |data| && KindOf(data[i].0) == PostcodeLike ==> IsEmpty(data[i].1)
    requires AllDigits(data[j].1) && |data[j].1| >= 1
    requires PhpIntMax < DigitValue(data[j].1) < DoubleOverflow
    ensures Get(MapAll(data, env).value, "postcode") == Some(Str(DigitsOf(PhpIntMax)))
  {
    var v := data[j].1;
    assert !IsEmpty(v);
    PostcodeField(data, env, j);
    IntValSaturates(v);
    assert Pow10(5) == 100000;
    DigitsOfLonger(PhpIntMax, UsZipWidth);
  }

  /** A US zip code whose number is beyond the range of a double reads as an
      infinite double, which PHP turns into 0, so it is stored as five zeros. */
  lemma UsZipOverflowsDouble(data: Assoc<string>, env: Env, j: nat)
    requires j < |data| && MapAll(data, env).Ok? && UsZipCountry(data)
    requires KindOf(data[j].0) == PostcodeLike
    requires forall i :: j < i < |data| && KindOf(data[i].0) == PostcodeLike ==> IsEmpty(data[i].1)
    requires AllDigits(data[j].1) && |data[j].1| >= 1 && DigitValue(data[j].1) >= DoubleOverflow
    ensures Get(MapAll(data, env).value, "postcode") == Some(Str(Zeros(UsZipWidth)))
  {
    var v := data[j].1;
    assert !IsEmpty(v);
    PostcodeField(data, env, j);
    IntValOverflowsDouble(v);
    assert FormatInt(0, UsZipWidth) == Zeros(UsZipWidth) by {
      assert DigitsOf(0) == "0";
      FormatDigitValue("0", UsZipWidth);
    }
  }

  /** A zip code whose first five characters are digits followed by a non-digit (a
      ZIP+4 code such as 12345-6789) keeps only those five digits. */
  lemma ZipPlusFour(v: string)
    requires |v| > UsZipWidth && AllDigits(v[..UsZipWidth]) && !IsDigit(v[UsZipWidth])
    ensures FormatInt(IntVal(v), UsZipWidth) == v[..UsZipWidth]
  {
    assert IsDigit(v[..UsZipWidth][0]);
    DecimalUnsigned(v);
    DigitPrefixStops(v, UsZipWidth);
    ShortDigitsFit(v[..UsZipWidth]);
    IntValOfDigits(v[..UsZipWidth]);
    FormatIntOfDigits(v[..UsZipWidth], UsZipWidth);
  }

  /** The region is the directory's name for a US row and the capitalised text
      otherwise; the last region or state column decides it. */
  lemma RegionField(data: Assoc<string>, env: Env, j: nat)
    requires j < |data| && MapAll(data, env).Ok?
    requires KindOf(data[j].0) == RegionLike
    requires forall i :: j < i < |data| ==> KindOf(data[i].0) != RegionLike
    ensures data[j].1 != "--"
    ensures !UsRegionCountry(data) ==>
      Get(MapAll(data, env).value, "region") == Some(Str(UcWords(data[j].1)))
    ensures UsRegionCountry(data) ==>
      var region := ResolveUsRegion(env, data[j].1, Get(data, "country").value);
      region.Ok? && Get(MapAll(data, env).value, "region") == Some(Str(region.value.defaultName))
  {
    ColumnOk(data, env, j);
    RegionEffect(data, env, data[j]);
    LastWriter(data, env, j, "region", ColumnEffect(data, env, data[j]).value);
  }

  /** For a US row the region id is the directory region's id (never 0), unless a
      later column named region_id overwrites it. */
  lemma UsRegionIdField(data: Assoc<string>, env: Env, j: nat)
    requires j < |data| && MapAll(data, env).Ok? && UsRegionCountry(data)
    requires KindOf(data[j].0) == RegionLike
    requires forall i :: j < i < |data| ==> KindOf(data[i].0) != RegionLike && data[i].0 != "region_id"
    ensures var region := ResolveUsRegion(env, data[j].1, Get(data, "country").value);
      region.Ok? && region.value.id != 0
      && Get(MapAll(data, env).value, "region_id") == Some(Num(region.value.id))
  {
    NoLaterRegionId(data, j);
    UsRegionIdFrom(data, env, j);
  }

  lemma NoLaterRegionId(data: Assoc<string>, j: nat)
    requires j < |data|
    requires forall i :: j < i < |data| ==> KindOf(data[i].0) != RegionLike && data[i].0 != "region_id"
    ensures forall i :: j < i < |data| ==> !Writes(data, data[i], "region_id")
  {
  }

  lemma UsRegionIdFrom(data: Assoc<string>, env: Env, j: nat)
    requires j < |data| && MapAll(data, env).Ok? && UsRegionCountry(data)
    requires KindOf(data[j].0) == RegionLike
    requires forall i :: j < i < |data| ==> !Writes(data, data[i], "region_id")
    ensures var region := ResolveUsRegion(env, data[j].1, Get(data, "country").value);
      region.Ok? && region.value.id != 0
      && Get(MapAll(data, env).value, "region_id") == Some(Num(region.value.id))
  {
    ColumnOk(data, env, j);
    UsRegionEffect(data, env, data[j]);
    var region := ResolveUsRegion(env, data[j].1, Get(data, "country").value).value;
    LastWriter(data, env, j, "region_id", SetRegion(region.defaultName, region.id));
  }

  /** Outside the US the region id stays null, unless a column named region_id sets it. */
  lemma NonUsRegionId(data: Assoc<string>, env: Env)
    requires MapAll(data, env).Ok? && !UsRegionCountry(data)
    requires forall i :: 0 <= i < |data| ==> data[i].0 != "region_id"
    ensures Get(MapAll(data, env).value, "region_id") == Some(Null)
  {
    NoWriter(data, env, "region_id");
  }

  /** The country id is the ISO code of the option-list entry whose label is the
      country column's text (never the first entry of the list). */
  lemma CountryField(data: Assoc<string>, env: Env, j: nat)
    requires j < |data| && MapAll(data, env).Ok?
    requires KindOf(data[j].0) == CountryName
    requires forall i :: j < i < |data| ==> !Writes(data, data[i], "country_id")
    ensures var c := GetCountryByName(env.countries, data[j].1);
      c.Ok? && c.value in env.countries[1..] && c.value.name == data[j].1
      && Get(MapAll(data, env).value, "country_id") == Some(Str(c.value.code))
  {
    ColumnOk(data, env, j);
    CountryEffect(data, env, data[j]);
    var c := GetCountryByName(env.countries, data[j].1).value;
    LastWriter(data, env, j, "country_id", SetField("country_id", Str(c.code)));
  }

  /** An address1 column replaces the whole street: street lines written before it are lost. */
  lemma Address1Replaces(data: Assoc<string>, env: Env, j: nat)
    requires j < |data| && MapAll(data, env).Ok?
    requires KindOf(data[j].0) == Address1
    requires forall i :: j < i < |data| ==> !Writes(data, data[i], "street")
    ensures Get(MapAll(data, env).value, "street") == Some(Str(UcWords(data[j].1)))
  {
    Address1Effect(data, env, data[j]);
    LastWriter(data, env, j, "street", SetField("street", Str(UcWords(data[j].1))));
  }

  // The street, column by column.

  /** What one column makes of the street `prev`: address1 replaces it, a non-empty
      address2 starts a new line, a non-empty address3 or suite continues the line
      after a space, and a column named street replaces it with its raw text. */
  function StreetStep(prev: Value, col: (string, string)): Value {
    var (key, value) := col;
    if key == "address1" then Str(UcWords(value))
    else if key == "address2" then (if IsEmpty(value) then prev else Str(AsString(prev) + "\n" + UcWords(value)))
    else if key == "address3" || key == "suite" then (if IsEmpty(value) then prev else Str(AsString(prev) + " " + UcWords(value)))
    else if key == "street" then Str(value)
    else prev
  }

  /** The three street columns, one at a time. */
  lemma StreetLine(prev: Value, col: (string, string))
    ensures KindOf(col.0) == Address1 ==> StreetStep(prev, col) == Str(UcWords(col.1))
    ensures KindOf(col.0) == Address2 && !IsEmpty(col.1) ==>
      StreetStep(prev, col) == Str(AsString(prev) + "\n" + UcWords(col.1))
    ensures KindOf(col.0) == Address3 && !IsEmpty(col.1) ==>
      StreetStep(prev, col) == Str(AsString(prev) + " " + UcWords(col.1))
  {
  }

  /** The street after the first n columns, starting from null. */
  function StreetAfter(data: Assoc<string>, n: nat): Value
    requires n <= |data|
    decreases n
  {
    if n == 0 then Null else StreetStep(StreetAfter(data, n - 1), data[n - 1])
  }

  /** The effect of a column on the street is what StreetStep says. */
  lemma EffectStreet(data: Assoc<string>, env: Env, col: (string, string), acc: Assoc<Value>, prev: Value)
    requires ColumnEffect(data, env, col).Ok? && Field(acc, "street") == prev
    ensures var e := ColumnEffect(data, env, col).value;
      if "street" in EffectKeys(e) then NewValue(acc, e, "street") == StreetStep(prev, col)
      else StreetStep(prev, col) == prev
  {
    var (key, value) := col;
    match KindOf(key)
    case NameLike =>
      NameEffect(data, env, col);
      assert key != "street";
    case Address1 => Address1Effect(data, env, col);
    case Address2 => if !IsEmpty(value) { Address2Effect(data, env, col); }
    case Address3 => if !IsEmpty(value) { Address3Effect(data, env, col); }
    case PostcodeLike => if !IsEmpty(value) { PostcodeEffect(data, env, col); }
    case RegionLike => RegionEffect(data, env, col);
    case PhoneLike => PhoneEffect(data, env, col);
    case CountryName => CountryEffect(data, env, col);
    case Other => OtherEffect(data, env, col);
  }

  /** Column j takes the street from StreetAfter(j) to StreetAfter(j + 1). */
  lemma StreetStepAt(data: Assoc<string>, env: Env, j: nat)
    requires j < |data| && MapPrefix(data, env, j + 1).Ok?
    ensures MapPrefix(data, env, j).Ok?
    ensures Get(MapPrefix(data, env, j).value, "street") == Some(StreetAfter(data, j)) ==>
      Get(MapPrefix(data, env, j + 1).value, "street") == Some(StreetAfter(data, j + 1))
  {
    ColumnOkAt(data, env, j);
    var e := ColumnEffect(data, env, data[j]).value;
    StepAt(data, env, j, "street", e);
    if Get(MapPrefix(data, env, j).value, "street") == Some(StreetAfter(data, j)) {
      EffectStreet(data, env, data[j], MapPrefix(data, env, j).value, StreetAfter(data, j));
    }
  }

  /** A prefix that does not throw ends with a column whose effect does not throw. */
  lemma ColumnOkAt(data: Assoc<string>, env: Env, j: nat)
    requires j < |data| && MapPrefix(data, env, j + 1).Ok?
    ensures ColumnEffect(data, env, data[j]).Ok?
  {
    FoldPrefixOk(Effects(data, env), j + 1, j + 1);
  }

  /** The street starts out null. */
  lemma InitialStreet()
    ensures Get(InitialAddress(), "street") == Some(Null)
  {
    InitialUnique();
    GetAt(InitialAddress(), 4);
  }

  /** After any prefix of the row that does not throw, the street is StreetAfter. */
  lemma {:induction false} StreetPrefix(data: Assoc<string>, env: Env, n: nat)
    requires n <= |data| && MapPrefix(data, env, n).Ok?
    ensures Get(MapPrefix(data, env, n).value, "street") == Some(StreetAfter(data, n))
    decreases n
  {
    if n == 0 {
      InitialStreet();
    } else {
      StreetStepAt(data, env, n - 1);
      StreetPrefix(data, env, n - 1);
    }
  }

  /** The street of the formatted address is StreetAfter of the whole row. */
  lemma StreetField(data: Assoc<string>, env: Env)
    requires MapAll(data, env).Ok?
    ensures Get(MapAll(data, env).value, "street") == Some(StreetAfter(data, |data|))
  {
    StreetPrefix(data, env, |data|);
  }

  /** When no column after j and before n writes the street, the street after n
      columns is what column j made of it. */
  lemma {:induction false} StreetThen(data: Assoc<string>, j: nat, n: nat)
    requires j < n <= |data|
    requires forall i :: j < i < n ==> !WritesAt(data, i, "street")
    ensures StreetAfter(data, n) == StreetStep(StreetAfter(data, j), data[j])
    decreases n
  {
    if n > j + 1 {
      StreetThen(data, j, n - 1);
      assert !WritesAt(data, n - 1, "street");
    }
  }

  /** address1, address2 and address3 in this order and no other street column: the
      first address line, then the second with the third after a space. */
  lemma StreetAfterLines(data: Assoc<string>, a: nat, b: nat, c: nat)
    requires a < b < c < |data|
    requires KindOf(data[a].0) == Address1 && KindOf(data[b].0) == Address2 && KindOf(data[c].0) == Address3
    requires !IsEmpty(data[b].1) && !IsEmpty(data[c].1)
    requires forall i :: a < i < |data| && i != b && i != c ==> !WritesAt(data, i, "street")
    ensures StreetAfter(data, |data|) == Str(UcWords(data[a].1) + "\n" + UcWords(data[b].1) + " " + UcWords(data[c].1))
  {
    var s1, s2 := UcWords(data[a].1), UcWords(data[b].1);
    assert StreetAfter(data, b) == Str(s1) by {
      StreetThen(data, a, b);
      StreetLine(StreetAfter(data, a), data[a]);
    }
    assert StreetAfter(data, c) == Str(s1 + "\n" + s2) by {
      StreetThen(data, b, c);
      StreetLine(StreetAfter(data, b), data[b]);
    }
    StreetThen(data, c, |data|);
    StreetLine(StreetAfter(data, c), data[c]);
  }

  /** With address1, address2 and address3 (or suite) in this order and no other
      street column, the street is two lines: the first address line, then the second
      with the third appended after a space. */
  lemma StreetLines(data: Assoc<string>, env: Env, a: nat, b: nat, c: nat)
    requires a < b < c < |data| && MapAll(data, env).Ok?
    requires KindOf(data[a].0) == Address1 && KindOf(data[b].0) == Address2 && KindOf(data[c].0) == Address3
    requires !IsEmpty(data[b].1) && !IsEmpty(data[c].1)
    requires forall i :: a < i < |data| && i != b && i != c ==> !WritesAt(data, i, "street")
    ensures Get(MapAll(data, env).value, "street")
         == Some(Str(UcWords(data[a].1) + "\n" + UcWords(data[b].1) + " " + UcWords(data[c].1)))
  {
    StreetAfterLines(data, a, b, c);
    StreetField(data, env);
  }

  /** The zip check lowercases the country and the region check does not: a row whose
      country is "Usa" has its zip padded but its region taken as plain text. */
  lemma UsaMixedCase(data: Assoc<string>)
    requires Get(data, "country") == Some("Usa")
    ensures UsZipCountry(data) && !UsRegionCountry(data)
  {
    assert Lower("Usa") == "usa";
  }
}
