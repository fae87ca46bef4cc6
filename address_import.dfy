/**
 * The row loop of the address import (`execute`): each CSV row is matched to a
 * customer, formatted by `mapData`, compared with the customer's stored addresses
 * on a natural key, and then skipped, counted as existing, saved, or recorded as
 * a row with errors.
 */
module AddressImport {
  import opened Wrappers
  import opened PhpArray
  import opened Directory
  import opened CustomerLookup
  import opened AddressMapping
  import opened RowLoop

  /** The command's options, after their defaults are applied. */
  datatype Config = Config(
    websiteId: nat,
    customerIdColumn: string,          // the CSV column holding the values to search by
    findCustomerByAttribute: string,   // the customer attributes searched, comma-separated
    customAttributes: seq<string>)     // `getCustomAttributes()`: the command has no option
                                       // for it, so from the command line it is always []

  /** What the command reads and writes besides the CSV file: the customers, the
      country and region directory, the stored addresses (the attribute arrays
      saved before the run), and the rows whose `save()` throws. */
  datatype Db = Db(
    customers: seq<Customer>,
    directory: Env,
    addresses: seq<Assoc<Value>>,
    failingSaves: set<nat>)

  /** The attributes the existence check compares, besides the customer. */
  const NaturalKeys: seq<string> := ["firstname", "lastname", "street", "city", "region", "postcode", "country_id"]

  /** The attributes that must all be set before an address is saved. */
  const RequiredKeys: seq<string> := NaturalKeys + ["telephone"]

  /** The attributes copied once more after `is_active` and `parent_id` are set. */
  const OptionalKeys: seq<string> := ["created_at", "updated_at"]

  // ---------------------------------------------------------------------------
  // checkIfCustomerAddressExists
  // ---------------------------------------------------------------------------

  /** The stored address belongs to the customer and agrees with the formatted
      address on every natural-key attribute. */
  predicate SameAddress(stored: Assoc<Value>, customerId: nat, formatted: Assoc<Value>) {
    Field(stored, "parent_id") == Num(customerId) &&
    forall k :: k in NaturalKeys ==> Field(stored, k) == Field(formatted, k)
  }

  /** The first stored address the query returns. */
  function FirstAddress(store: seq<Assoc<Value>>, customerId: nat, formatted: Assoc<Value>): (r: Option<nat>)
    ensures r.Some? ==> r.value < |store| && SameAddress(store[r.value], customerId, formatted)
    ensures r.Some? ==> forall j :: 0 <= j < r.value ==> !SameAddress(store[j], customerId, formatted)
    ensures r.None? ==> forall i :: 0 <= i < |store| ==> !SameAddress(store[i], customerId, formatted)
    decreases |store|
  {
    if store == [] then None
    else if SameAddress(store[0], customerId, formatted) then Some(0)
    else
      match FirstAddress(store[1..], customerId, formatted)
      case None => None
      case Some(i) => Some(i + 1)
  }

  /** `checkIfCustomerAddressExists($customerId, $formatted)`: some stored address of
      the customer has the same natural key. */
  function AddressExists(store: seq<Assoc<Value>>, customerId: nat, formatted: Assoc<Value>): (r: bool)
    ensures r <==> exists i :: 0 <= i < |store| && SameAddress(store[i], customerId, formatted)
  {
    FirstAddress(store, customerId, formatted).Some?
  }

  /** The telephone, and every other attribute outside the natural key, plays no
      part in the existence check. */
  lemma ExistsIgnoresOtherFields(store: seq<Assoc<Value>>, customerId: nat, f: Assoc<Value>, g: Assoc<Value>)
    requires forall k :: k in NaturalKeys ==> Field(f, k) == Field(g, k)
    ensures AddressExists(store, customerId, f) == AddressExists(store, customerId, g)
  {
    forall i | 0 <= i < |store| ensures SameAddress(store[i], customerId, f) == SameAddress(store[i], customerId, g) {
    }
  }

  /** The required-field gate: the eight attributes are all set. */
  predicate HasRequired(f: Assoc<Value>) {
    forall k :: k in RequiredKeys ==> IsSet(f, k)
  }

  // ---------------------------------------------------------------------------
  // The attributes of the saved address
  // ---------------------------------------------------------------------------

  /** `setData($key, $value)` for the first n pairs, in order. */
  function SetPrefix(a: Assoc<Value>, pairs: Assoc<Value>, n: nat): Assoc<Value>
    requires n <= |pairs|
    decreases n
  {
    if n == 0 then a else Put(SetPrefix(a, pairs, n - 1), pairs[n - 1].0, pairs[n - 1].1)
  }

  /** `if (isset($from[$attr])) setData($attr, $from[$attr])` for the first n attributes. */
  function CopySet(a: Assoc<Value>, from: Assoc<Value>, attrs: seq<string>, n: nat): Assoc<Value>
    requires n <= |attrs|
    decreases n
  {
    if n == 0 then a
    else
      var prev := CopySet(a, from, attrs, n - 1);
      if IsSet(from, attrs[n - 1]) then Put(prev, attrs[n - 1], Field(from, attrs[n - 1])) else prev
  }

  /** The attributes of the new address model before `save()`: the formatted
      address, `is_active` and `parent_id`, then the optional and the custom
      attributes copied once more. */
  function AddressRecord(f: Assoc<Value>, customerId: nat, custom: seq<string>): Assoc<Value> {
    var copied := SetPrefix([], f, |f|);
    var marked := Put(Put(copied, "is_active", Bool(true)), "parent_id", Num(customerId));
    var optional := CopySet(marked, f, OptionalKeys, |OptionalKeys|);
    CopySet(optional, f, custom, |custom|)
  }

  /** Copying the pairs of an array without repeated keys into an empty model
      reproduces the array. */
  lemma {:induction false} SetPrefixCopies(f: Assoc<Value>, n: nat)
    requires UniqueKeys(f) && n <= |f|
    ensures SetPrefix([], f, n) == f[..n]
    decreases n
  {
    if n > 0 {
      SetPrefixCopies(f, n - 1);
      var prev := f[..n - 1];
      assert IndexOf(prev, f[n - 1].0).None? by {
        forall j | 0 <= j < |prev| ensures prev[j].0 != f[n - 1].0 {
          assert prev[j] == f[j];
        }
      }
      assert prev + [f[n - 1]] == f[..n];
    }
  }

  lemma {:induction false} CopySetGet(a: Assoc<Value>, from: Assoc<Value>, attrs: seq<string>, n: nat, k: string)
    requires n <= |attrs|
    ensures Get(CopySet(a, from, attrs, n), k) ==
      if k in attrs[..n] && IsSet(from, k) then Some(Field(from, k)) else Get(a, k)
    decreases n
  {
    if n > 0 {
      CopySetGet(a, from, attrs, n - 1, k);
      assert attrs[..n] == attrs[..n - 1] + [attrs[n - 1]];
      var prev := CopySet(a, from, attrs, n - 1);
      if IsSet(from, attrs[n - 1]) {
        GetPut(prev, attrs[n - 1], Field(from, attrs[n - 1]), k);
      }
    }
  }

  /** `is_active` is true and `parent_id` is the customer's id, unless the attribute
      is a custom attribute the formatted address sets, whose value then wins; every
      other attribute is the formatted address's. */
  lemma AddressRecordGet(f: Assoc<Value>, customerId: nat, custom: seq<string>, k: string)
    requires UniqueKeys(f)
    ensures Get(AddressRecord(f, customerId, custom), k) ==
      if k == "parent_id" && !(k in custom && IsSet(f, k)) then Some(Num(customerId))
      else if k == "is_active" && !(k in custom && IsSet(f, k)) then Some(Bool(true))
      else Get(f, k)
  {
    SetPrefixCopies(f, |f|);
    assert f[..|f|] == f;
    var marked := Put(Put(f, "is_active", Bool(true)), "parent_id", Num(customerId));
    var optional := CopySet(marked, f, OptionalKeys, |OptionalKeys|);
    assert OptionalKeys[..|OptionalKeys|] == OptionalKeys;
    assert custom[..|custom|] == custom;
    CopySetGet(optional, f, custom, |custom|, k);
    CopySetGet(marked, f, OptionalKeys, |OptionalKeys|, k);
    GetPut(Put(f, "is_active", Bool(true)), "parent_id", Num(customerId), k);
    GetPut(f, "is_active", Bool(true), k);
  }

  /** The saved address has the formatted address's required attributes. */
  lemma RecordRequired(f: Assoc<Value>, customerId: nat, custom: seq<string>)
    requires UniqueKeys(f)
    ensures forall k :: k in RequiredKeys ==> Field(AddressRecord(f, customerId, custom), k) == Field(f, k)
    ensures HasRequired(f) ==> HasRequired(AddressRecord(f, customerId, custom))
  {
    forall k | k in RequiredKeys ensures Field(AddressRecord(f, customerId, custom), k) == Field(f, k) {
      AddressRecordGet(f, customerId, custom, k);
    }
  }

  /** The `setData` loops of `execute`. The first loop reuses the row loop's
      variable `$key`, so after it `key` holds the last attribute name of the
      formatted address, or the row's key when that address is empty. */
  method BuildAddress(f: Assoc<Value>, customerId: nat, custom: seq<string>, rowKey: Key)
    returns (a: Assoc<Value>, key: Key)
    ensures a == AddressRecord(f, customerId, custom)
    ensures key == if f == [] then rowKey else Name(f[|f| - 1].0)
  {
    a := [];
    key := rowKey;
    for j := 0 to |f|
      invariant a == SetPrefix([], f, j)
      invariant key == if j == 0 then rowKey else Name(f[j - 1].0)
    {
      key := Name(f[j].0);
      a := Put(a, f[j].0, f[j].1);
    }
    a := Put(a, "is_active", Bool(true));
    a := Put(a, "parent_id", Num(customerId));
    ghost var marked := a;
    for j := 0 to |OptionalKeys|
      invariant a == CopySet(marked, f, OptionalKeys, j)
    {
      if IsSet(f, OptionalKeys[j]) {
        a := Put(a, OptionalKeys[j], Field(f, OptionalKeys[j]));
      }
    }
    ghost var optional := a;
    for j := 0 to |custom|
      invariant a == CopySet(optional, f, custom, j)
    {
      if IsSet(f, custom[j]) {
        a := Put(a, custom[j], Field(f, custom[j]));
      }
    }
  }

  // ---------------------------------------------------------------------------
  // One row
  // ---------------------------------------------------------------------------

  /** The key a failing `save()` records the row under: the loop variable after the
      first `setData` loop. */
  function SaveErrorKey(i: nat, f: Assoc<Value>): Key {
    if f == [] then Index(i) else Name(f[|f| - 1].0)
  }

  /** The body of the row loop for row i, whose combined columns are `data`,
      against the addresses stored so far. A missing customer-id column, a
      customer search or a `mapData` that throws, and a failed gate record the row
      under its index; a failing save records it under SaveErrorKey. */
  function RowOutcome(cfg: Config, db: Db, store: seq<Assoc<Value>>, i: nat, data: Assoc<string>): Outcome<Assoc<Value>> {
    var idValue := Get(data, cfg.customerIdColumn);
    if idValue.None? then Failed(Index(i))
    else
      match FindCustomer(db.customers, cfg.findCustomerByAttribute, idValue.value, cfg.websiteId)
      case Err(_) => Failed(Index(i))
      case Ok(None) => Skipped
      case Ok(Some(c)) =>
        match MapAll(data, db.directory)
        case Err(_) => Failed(Index(i))
        case Ok(f) => ReconcileOutcome(cfg, db, store, i, c, f)
  }

  /** The row body of the loop, given the addresses the run has saved so far. */
  function Body(cfg: Config, db: Db): (seq<Assoc<Value>>, nat, Assoc<string>) -> Outcome<Assoc<Value>> {
    (created: seq<Assoc<Value>>, i: nat, data: Assoc<string>) => RowOutcome(cfg, db, db.addresses + created, i, data)
  }

  /** The body of the row loop, up to the bookkeeping: the outcome of row i. */
  method ImportRow(cfg: Config, db: Db, addresses: seq<Assoc<Value>>, i: nat, data: Assoc<string>)
    returns (o: Outcome<Assoc<Value>>)
    ensures o == RowOutcome(cfg, db, addresses, i, data)
  {
    var idValue := Get(data, cfg.customerIdColumn);
    if idValue.None? {
      return Failed(Index(i));
    }
    var found := GetCustomerByAttribute(db.customers, cfg.findCustomerByAttribute, idValue.value, cfg.websiteId);
    if found.Err? {
      return Failed(Index(i));
    }
    if found.value.None? {
      return Skipped;
    }
    var customer := found.value.value;
    var formatted := MapData(data, db.directory);
    if formatted.Err? {
      return Failed(Index(i));
    }
    o := Reconcile(cfg, db, addresses, i, customer, formatted.value);
  }

  /** The outcome of a row whose customer is found and whose address is formatted. */
  function ReconcileOutcome(cfg: Config, db: Db, store: seq<Assoc<Value>>, i: nat, c: Customer, f: Assoc<Value>): Outcome<Assoc<Value>> {
    if AddressExists(store, c.id, f) then Existing
    else if !HasRequired(f) then Failed(Index(i))
    else if i in db.failingSaves then Failed(SaveErrorKey(i, f))
    else Created(AddressRecord(f, c.id, cfg.customAttributes))
  }

  method Reconcile(cfg: Config, db: Db, addresses: seq<Assoc<Value>>, i: nat, c: Customer, f: Assoc<Value>)
    returns (o: Outcome<Assoc<Value>>)
    ensures o == ReconcileOutcome(cfg, db, addresses, i, c, f)
  {
    if AddressExists(addresses, c.id, f) {
      o := Existing;
    } else if HasRequired(f) {
      var a, key := BuildAddress(f, c.id, cfg.customAttributes, Index(i));
      if i in db.failingSaves {
        o := Failed(key);
      } else {
        o := Created(a);
      }
    } else {
      o := Failed(Index(i));
    }
  }

  /** `execute`: the loop over the CSV rows. */
  method Execute(cfg: Config, db: Db, headers: seq<string>, rows: seq<seq<string>>)
    returns (existing: map<Key, Assoc<string>>, errors: map<Key, Assoc<string>>, created: seq<Assoc<Value>>,
             addresses: seq<Assoc<Value>>)
    requires RowsFit(headers, rows)
    ensures Buckets(existing, errors, created) == Run(Body(cfg, db), headers, rows, |rows|)
    ensures addresses == db.addresses + created
  {
    existing, errors, created, addresses := map[], map[], [], db.addresses;
    for i := 0 to |rows|
      invariant Buckets(existing, errors, created) == Run(Body(cfg, db), headers, rows, i)
      invariant addresses == db.addresses + created
    {
      var data := Combine(headers, rows[i]);
      var o := ImportRow(cfg, db, addresses, i, data);
      RunStep(Body(cfg, db), headers, rows, i);
      OutcomeOfRow(cfg, db, headers, rows, i);
      existing, errors, created := FileRow(existing, errors, created, i, data, o);
      addresses := db.addresses + created;
    }
  }

  // ---------------------------------------------------------------------------
  // What a row's outcome tells
  // ---------------------------------------------------------------------------

  /** A saved address belongs to a customer the search found, was absent from the
      store, passed the gate, holds the formatted address's eight required
      attributes, and is active and attached to that customer unless a custom
      attribute of the same name overrides this. */
  lemma CreatedAddress(cfg: Config, db: Db, store: seq<Assoc<Value>>, i: nat, data: Assoc<string>)
    requires RowOutcome(cfg, db, store, i, data).Created?
    ensures var rec := RowOutcome(cfg, db, store, i, data).item;
      var id := Get(data, cfg.customerIdColumn);
      id.Some? &&
      var found := FindCustomer(db.customers, cfg.findCustomerByAttribute, id.value, cfg.websiteId);
      found.Ok? && found.value.Some? && MapAll(data, db.directory).Ok? &&
      var c := found.value.value;
      var f := MapAll(data, db.directory).value;
      i !in db.failingSaves && !AddressExists(store, c.id, f) && HasRequired(f) && HasRequired(rec)
      && (forall k :: k in RequiredKeys ==> Field(rec, k) == Field(f, k))
      && ("parent_id" !in cfg.customAttributes ==> Field(rec, "parent_id") == Num(c.id))
      && ("is_active" !in cfg.customAttributes ==> Field(rec, "is_active") == Bool(true))
  {
    var id := Get(data, cfg.customerIdColumn);
    var c := FindCustomer(db.customers, cfg.findCustomerByAttribute, id.value, cfg.websiteId).value.value;
    var f := MapAll(data, db.directory).value;
    assert RowOutcome(cfg, db, store, i, data) == ReconcileOutcome(cfg, db, store, i, c, f);
    Shape(data, db.directory);
    ReconcileCreated(cfg, db, store, i, c, f);
  }

  lemma ReconcileCreated(cfg: Config, db: Db, store: seq<Assoc<Value>>, i: nat, c: Customer, f: Assoc<Value>)
    requires UniqueKeys(f) && ReconcileOutcome(cfg, db, store, i, c, f).Created?
    ensures var rec := ReconcileOutcome(cfg, db, store, i, c, f).item;
      i !in db.failingSaves && !AddressExists(store, c.id, f) && HasRequired(f) && HasRequired(rec)
      && (forall k :: k in RequiredKeys ==> Field(rec, k) == Field(f, k))
      && ("parent_id" !in cfg.customAttributes ==> Field(rec, "parent_id") == Num(c.id))
      && ("is_active" !in cfg.customAttributes ==> Field(rec, "is_active") == Bool(true))
  {
    RecordRequired(f, c.id, cfg.customAttributes);
    AddressRecordGet(f, c.id, cfg.customAttributes, "parent_id");
    AddressRecordGet(f, c.id, cfg.customAttributes, "is_active");
  }

  /** A row whose saved address is in the store is an existing address, wherever it
      comes again, as long as no custom attribute overrides `parent_id`. */
  lemma SavedThenExisting(cfg: Config, db: Db, store: seq<Assoc<Value>>, i: nat, data: Assoc<string>,
                          db': Db, store': seq<Assoc<Value>>, j: nat)
    requires RowOutcome(cfg, db, store, i, data).Created? && "parent_id" !in cfg.customAttributes
    requires RowOutcome(cfg, db, store, i, data).item in store'
    requires db'.customers == db.customers && db'.directory == db.directory
    ensures RowOutcome(cfg, db', store', j, data) == Existing
  {
    CreatedAddress(cfg, db, store, i, data);
    var id := Get(data, cfg.customerIdColumn);
    var c := FindCustomer(db.customers, cfg.findCustomerByAttribute, id.value, cfg.websiteId).value.value;
    var f := MapAll(data, db.directory).value;
    var rec := RowOutcome(cfg, db, store, i, data).item;
    assert SameAddress(rec, c.id, f) by {
      forall k | k in NaturalKeys ensures Field(rec, k) == Field(f, k) {
        assert k in RequiredKeys;
      }
    }
    var n :| 0 <= n < |store'| && store'[n] == rec;
    assert AddressExists(store', c.id, f);
  }

  /** A failing `save()` records the row under an attribute name, never under its
      index: one of the 13 initial attributes or the name of one of its columns. */
  lemma SaveFailureKey(cfg: Config, db: Db, store: seq<Assoc<Value>>, i: nat, data: Assoc<string>)
    requires RowOutcome(cfg, db, store, i, data).Failed?
    requires RowOutcome(cfg, db, store, i, data).key != Index(i)
    ensures i in db.failingSaves
    ensures MapAll(data, db.directory).Ok?
    ensures var k := RowOutcome(cfg, db, store, i, data).key;
      k.Name? && (k.name in InitialKeys || k.name in Keys(data))
      && k.name == Keys(MapAll(data, db.directory).value)[|MapAll(data, db.directory).value| - 1]
  {
    Shape(data, db.directory);
    var f := MapAll(data, db.directory).value;
    assert Keys(f)[|f| - 1] == f[|f| - 1].0;
  }


  /** A row the body files as an error is filed under its own index or under an
      attribute name. */
  lemma FailedKey(cfg: Config, db: Db, created: seq<Assoc<Value>>, i: nat, data: Assoc<string>)
    requires Body(cfg, db)(created, i, data).Failed?
    ensures Body(cfg, db)(created, i, data).key == Index(i) || Body(cfg, db)(created, i, data).key.Name?
  {
    var store := db.addresses + created;
    assert Body(cfg, db)(created, i, data) == RowOutcome(cfg, db, store, i, data);
    if RowOutcome(cfg, db, store, i, data).key != Index(i) {
      SaveFailureKey(cfg, db, store, i, data);
    }
  }

  // ---------------------------------------------------------------------------
  // The run
  // ---------------------------------------------------------------------------

  /** The outcome of row i within the run: the body against the addresses stored
      before the run and those the earlier rows saved. */
  lemma OutcomeOfRow(cfg: Config, db: Db, headers: seq<string>, rows: seq<seq<string>>, i: nat)
    requires RowsFit(headers, rows) && i < |rows|
    ensures OutcomeAt(Body(cfg, db), headers, rows, i) ==
      RowOutcome(cfg, db, db.addresses + Run(Body(cfg, db), headers, rows, i).created, i, Combine(headers, rows[i]))
  {
  }

  /** The address body never files a row under another row's index. */
  lemma AddressFailsUnderOwnIndex(cfg: Config, db: Db, headers: seq<string>, rows: seq<seq<string>>)
    requires RowsFit(headers, rows)
    ensures FailsUnderOwnIndex(Body(cfg, db), headers, rows)
  {
    var body := Body(cfg, db);
    forall j | 0 <= j < |rows| && OutcomeAt(body, headers, rows, j).Failed?
      ensures OutcomeAt(body, headers, rows, j).key == Index(j) || OutcomeAt(body, headers, rows, j).key.Name?
    {
      FailedKey(cfg, db, Run(body, headers, rows, j).created, j, Combine(headers, rows[j]));
    }
  }

  /** A row is in the error bucket under its index exactly when it failed before
      reaching `save()`, and a row without a matching customer is counted in
      neither bucket. */
  lemma ErrorAndSkippedRows(cfg: Config, db: Db, headers: seq<string>, rows: seq<seq<string>>, i: nat)
    requires RowsFit(headers, rows) && i < |rows|
    ensures Index(i) in Run(Body(cfg, db), headers, rows, |rows|).errors <==>
      OutcomeAt(Body(cfg, db), headers, rows, i) == Failed(Index(i))
    ensures OutcomeAt(Body(cfg, db), headers, rows, i) == Skipped ==>
      Index(i) !in Run(Body(cfg, db), headers, rows, |rows|).existing
      && Index(i) !in Run(Body(cfg, db), headers, rows, |rows|).errors
  {
    var body := Body(cfg, db);
    var o := OutcomeAt(body, headers, rows, i);
    assert !o.ExistingThenFailed? && !o.CreatedThenFailed? by {
      OutcomeOfRow(cfg, db, headers, rows, i);
    }
    AddressFailsUnderOwnIndex(cfg, db, headers, rows);
    ErrorRow(body, headers, rows, i);
    if o == Skipped {
      SkippedUncounted(body, headers, rows, i);
    }
  }

  /** A later row with the same fields as a row that was saved is an existing
      address. */
  lemma RepeatedRow(cfg: Config, db: Db, headers: seq<string>, rows: seq<seq<string>>, i: nat, j: nat)
    requires RowsFit(headers, rows) && i < j < |rows| && rows[j] == rows[i]
    requires OutcomeAt(Body(cfg, db), headers, rows, i).Created? && "parent_id" !in cfg.customAttributes
    ensures OutcomeAt(Body(cfg, db), headers, rows, j) == Existing
  {
    var body := Body(cfg, db);
    var data := Combine(headers, rows[i]);
    OutcomeOfRow(cfg, db, headers, rows, i);
    OutcomeOfRow(cfg, db, headers, rows, j);
    SavedBefore(body, headers, rows, i, j);
    var later := db.addresses + Run(body, headers, rows, j).created;
    assert OutcomeAt(body, headers, rows, i).item in later;
    SavedThenExisting(cfg, db, db.addresses + Run(body, headers, rows, i).created, i, data, db, later, j);
  }

  /** Running the import a second time, over the addresses the first run saved,
      saves none of them again: each row saved the first time is an existing
      address the second time. */
  lemma RerunFindsSaved(cfg: Config, db: Db, headers: seq<string>, rows: seq<seq<string>>, i: nat)
    requires RowsFit(headers, rows) && i < |rows| && "parent_id" !in cfg.customAttributes
    requires OutcomeAt(Body(cfg, db), headers, rows, i).Created?
    ensures var db2 := db.(addresses := db.addresses + Run(Body(cfg, db), headers, rows, |rows|).created);
      OutcomeAt(Body(cfg, db2), headers, rows, i) == Existing
  {
    var body := Body(cfg, db);
    var data := Combine(headers, rows[i]);
    var first := Run(body, headers, rows, |rows|).created;
    var db2 := db.(addresses := db.addresses + first);
    var o := OutcomeAt(body, headers, rows, i);
    var store := db.addresses + Run(body, headers, rows, i).created;
    var store2 := db2.addresses + Run(Body(cfg, db2), headers, rows, i).created;
    assert o == RowOutcome(cfg, db, store, i, data) by {
      OutcomeOfRow(cfg, db, headers, rows, i);
    }
    assert OutcomeAt(Body(cfg, db2), headers, rows, i) == RowOutcome(cfg, db2, store2, i, data) by {
      OutcomeOfRow(cfg, db2, headers, rows, i);
    }
    assert o.item in first by {
      SavedBefore(body, headers, rows, i, |rows|);
    }
    assert o.item in store2 by {
      var n :| 0 <= n < |first| && first[n] == o.item;
      assert store2[|db.addresses| + n] == o.item;
    }
    SavedThenExisting(cfg, db, store, i, data, db2, store2, i);
  }
}
