/**
 * The customer import (`customer:import`): each CSV row is either a customer the
 * website already has, which is counted as existing and patched with the row's
 * `old_customer_id`, or a new customer built from the row and saved, or a row
 * with errors.
 */
module CustomerImport {
  import opened Wrappers
  import opened Php
  import opened PhpArray
  import opened Flags
  import opened CustomerLookup
  import opened RowLoop

  /** The options as the console hands them to `execute`: None for an option that
      was given without a value (it reads as null); an option that was not given
      carries its declared default, which for the two flags is `false` and reads
      as "" through `strtolower`. The id options are taken as already parsed
      natural numbers; text that is not a decimal number is not modelled. */
  datatype Options = Options(
    generatePasswords: Option<string>,
    sendWelcomeEmail: Option<string>,
    customAttributes: Option<string>,
    websiteId: Option<nat>,
    storeId: Option<nat>)

  /** The settings the row loop uses. */
  datatype Config = Config(
    generatePasswords: bool,
    sendWelcomeEmail: bool,
    websiteId: nat,
    storeId: nat,
    customAttributes: seq<string>)

  /** The command's own fallbacks, used when an option reads as null. */
  const DefaultGeneratePasswords := true
  const DefaultSendWelcomeEmail := false
  const DefaultWebsiteId: nat := 1
  const DefaultStoreId: nat := 1

  /** The options to the settings: a flag is `isTruthy` of its value when it has
      one and the fallback otherwise; custom attributes are split on commas. */
  function ConfigOf(opts: Options): (cfg: Config)
    ensures cfg.generatePasswords <==>
      (opts.generatePasswords.None? || Lower(opts.generatePasswords.value) in ["true", "yes", "y", "1"])
    ensures cfg.sendWelcomeEmail <==>
      (opts.sendWelcomeEmail.Some? && Lower(opts.sendWelcomeEmail.value) in ["true", "yes", "y", "1"])
    ensures opts.customAttributes.None? ==> cfg.customAttributes == []
    ensures opts.customAttributes.Some? ==>
      |cfg.customAttributes| >= 1 && Implode(cfg.customAttributes) == opts.customAttributes.value
    ensures forall a :: a in cfg.customAttributes ==> ',' !in a
    ensures cfg.websiteId == opts.websiteId.GetOr(DefaultWebsiteId) && cfg.storeId == opts.storeId.GetOr(DefaultStoreId)
  {
    var custom := if opts.customAttributes.Some? then Explode(opts.customAttributes.value) else [];
    assert opts.customAttributes.Some? ==>
        |custom| >= 1 && Implode(custom) == opts.customAttributes.value && forall a :: a in custom ==> ',' !in a by {
      if opts.customAttributes.Some? {
        ImplodeExplode(opts.customAttributes.value);
      }
    }
    Config(
      FlagOption(opts.generatePasswords, DefaultGeneratePasswords),
      FlagOption(opts.sendWelcomeEmail, DefaultSendWelcomeEmail),
      opts.websiteId.GetOr(DefaultWebsiteId),
      opts.storeId.GetOr(DefaultStoreId),
      custom)
  }

  /** The flags' declared default `false` turns password generation off, while the
      option given without a value falls back to the command's `true`. */
  lemma PasswordFlagDefaults()
    ensures !ConfigOf(Options(Some(""), None, None, None, None)).generatePasswords
    ensures ConfigOf(Options(None, None, None, None, None)).generatePasswords
  {
    assert Lower("") == "";
  }

  // ---------------------------------------------------------------------------
  // The customers and what a row writes
  // ---------------------------------------------------------------------------

  /** How the new customer's password is chosen: a fresh random string of ten
      characters (its value is not modelled), the row's `password`, or none. */
  datatype Password = RandomPassword | RowPassword(password: string) | NoPassword

  /** A new customer model as it is saved: the attributes set with `setData`, in
      the order set, the password, and the entity id forced by `wcsid`. */
  datatype NewCustomer = NewCustomer(data: Assoc<Value>, password: Password, entityId: Option<string>)

  /** An existing customer's `old_customer_id` rewritten: the customer of the
      website loaded by this email gets the value. */
  datatype Patch = Patch(email: string, websiteId: nat, oldCustomerId: Value)

  /** The customers stored before the run, the rows whose `save()` throws, and the
      rows whose welcome email throws. */
  datatype Db = Db(customers: seq<Customer>, failingSaves: set<nat>, failingEmails: set<nat>)

  /** The text that a `'NULL'`-checked column treats as absent. */
  const NullText := "NULL"

  /** The row columns copied when present. */
  const OptionalValues: seq<string> := ["group_id", "created_at"]

  // ---------------------------------------------------------------------------
  // checkIfCustomerExists
  // ---------------------------------------------------------------------------

  /** A stored customer that `loadByEmail` finds for the website. */
  predicate StoredMatch(c: Customer, email: string, websiteId: nat) {
    c.id != 0 && c.websiteId == websiteId && "email" in c.attributes && c.attributes["email"] == email
  }

  /** A customer saved earlier in the run that `loadByEmail` finds for the website. */
  predicate CreatedMatch(n: NewCustomer, email: string, websiteId: nat) {
    Field(n.data, "email") == Str(email) && Field(n.data, "website_id") == Num(websiteId)
  }

  function FindStored(customers: seq<Customer>, email: string, websiteId: nat): (r: Option<nat>)
    ensures r.Some? ==> r.value < |customers| && StoredMatch(customers[r.value], email, websiteId)
    ensures r.Some? ==> forall j :: 0 <= j < r.value ==> !StoredMatch(customers[j], email, websiteId)
    ensures r.None? ==> forall i :: 0 <= i < |customers| ==> !StoredMatch(customers[i], email, websiteId)
    decreases |customers|
  {
    if customers == [] then None
    else if StoredMatch(customers[0], email, websiteId) then Some(0)
    else
      match FindStored(customers[1..], email, websiteId)
      case None => None
      case Some(i) => Some(i + 1)
  }

  function FindCreated(created: seq<NewCustomer>, email: string, websiteId: nat): (r: Option<nat>)
    ensures r.Some? ==> r.value < |created| && CreatedMatch(created[r.value], email, websiteId)
    ensures r.Some? ==> forall j :: 0 <= j < r.value ==> !CreatedMatch(created[j], email, websiteId)
    ensures r.None? ==> forall i :: 0 <= i < |created| ==> !CreatedMatch(created[i], email, websiteId)
    decreases |created|
  {
    if created == [] then None
    else if CreatedMatch(created[0], email, websiteId) then Some(0)
    else
      match FindCreated(created[1..], email, websiteId)
      case None => None
      case Some(i) => Some(i + 1)
  }

  /** `checkIfCustomerExists($email, $websiteId)`: a customer of the website has
      this email, among those stored before the run or saved by it. */
  function CheckIfCustomerExists(customers: seq<Customer>, created: seq<NewCustomer>, email: string, websiteId: nat)
    : (found: bool)
    ensures found <==>
      (exists i :: 0 <= i < |customers| && StoredMatch(customers[i], email, websiteId))
      || (exists i :: 0 <= i < |created| && CreatedMatch(created[i], email, websiteId))
  {
    FindStored(customers, email, websiteId).Some? || FindCreated(created, email, websiteId).Some?
  }

  // ---------------------------------------------------------------------------
  // The new customer's attributes
  // ---------------------------------------------------------------------------

  /** A column read as it is, null when the row has no such column. */
  function TextOrNull(v: Option<string>): (r: Value)
    ensures r == Null <==> v.None?
    ensures r != Null ==> r == Str(v.value)
  {
    if v.Some? then Str(v.value) else Null
  }

  /** A column read with `isset($v) && $v !== 'NULL' ? $v : null`. */
  function NullUnlessText(v: Option<string>): (r: Value)
    ensures r == Null <==> v.None? || v.value == NullText
    ensures r != Null ==> r == Str(v.value)
  {
    if v.Some? && v.value != NullText then Str(v.value) else Null
  }

  /** What the eight `setData` calls leave on the new customer model: the pairs in
      the order set. */
  function CoreAttributes(cfg: Config, email: string, data: Assoc<string>): Assoc<Value> {
    [("email", Str(Lower(email))),
     ("firstname", TextOrNull(Get(data, "firstname"))),
     ("middlename", NullUnlessText(Get(data, "middlename"))),
     ("lastname", TextOrNull(Get(data, "lastname"))),
     ("is_active", Bool(true)),
     ("website_id", Num(cfg.websiteId)),
     ("store_id", Num(cfg.storeId)),
     ("old_customer_id", NullUnlessText(Get(data, "old_customer_id")))]
  }

  /** `if (isset($data[$attr]) [&& $data[$attr] !== 'NULL']) setData($attr, $data[$attr])`
      for the first n attributes. */
  function CopyColumns(a: Assoc<Value>, data: Assoc<string>, attrs: seq<string>, n: nat, checkNull: bool): Assoc<Value>
    requires n <= |attrs|
    decreases n
  {
    if n == 0 then a
    else
      var prev := CopyColumns(a, data, attrs, n - 1, checkNull);
      var v := Get(data, attrs[n - 1]);
      if v.Some? && (!checkNull || v.value != NullText) then Put(prev, attrs[n - 1], Str(v.value)) else prev
  }

  /** The password policy. */
  function PasswordOf(cfg: Config, data: Assoc<string>): Password {
    if cfg.generatePasswords then RandomPassword
    else match Get(data, "password")
      case Some(p) => RowPassword(p)
      case None => NoPassword
  }

  /** The new customer of a row whose email is `email`. */
  function NewCustomerOf(cfg: Config, email: string, data: Assoc<string>): NewCustomer {
    var core := CoreAttributes(cfg, email, data);
    var optional := CopyColumns(core, data, OptionalValues, |OptionalValues|, false);
    var attrs := CopyColumns(optional, data, cfg.customAttributes, |cfg.customAttributes|, true);
    NewCustomer(attrs, PasswordOf(cfg, data), Get(data, "wcsid"))
  }

  /** The core attributes: the email lower-cased, the two names as given, the
      middle name and the old customer id null when absent or `'NULL'`, the
      customer active and placed in the configured website and store. */
  lemma CoreGet(cfg: Config, email: string, data: Assoc<string>, k: string)
    ensures Get(CoreAttributes(cfg, email, data), k) ==
      if k == "email" then Some(Str(Lower(email)))
      else if k == "firstname" || k == "lastname" then Some(TextOrNull(Get(data, k)))
      else if k == "middlename" || k == "old_customer_id" then Some(NullUnlessText(Get(data, k)))
      else if k == "is_active" then Some(Bool(true))
      else if k == "website_id" then Some(Num(cfg.websiteId))
      else if k == "store_id" then Some(Num(cfg.storeId))
      else None
  {
    var a := CoreAttributes(cfg, email, data);
    CoreNames(cfg, email, data);
    if m :| 0 <= m < |a| && a[m].0 == k {
      GetAt(a, m);
    } else {
      assert k !in Keys(a);
    }
  }

  /** The core attribute names, all distinct. */
  lemma CoreNames(cfg: Config, email: string, data: Assoc<string>)
    ensures var a := CoreAttributes(cfg, email, data);
      UniqueKeys(a) && Keys(a) == ["email", "firstname", "middlename", "lastname", "is_active", "website_id", "store_id", "old_customer_id"]
  {
    var a := CoreAttributes(cfg, email, data);
    forall i, j | 0 <= i < j < |a| ensures a[i].0 != a[j].0 {
      assert a[i].0[0] != a[j].0[0];
    }
  }

  lemma {:induction false} CopyColumnsGet(a: Assoc<Value>, data: Assoc<string>, attrs: seq<string>, n: nat,
                                          checkNull: bool, k: string)
    requires n <= |attrs|
    ensures Get(CopyColumns(a, data, attrs, n, checkNull), k) ==
      if k in attrs[..n] && Get(data, k).Some? && (!checkNull || Get(data, k).value != NullText)
      then Some(Str(Get(data, k).value)) else Get(a, k)
    decreases n
  {
    if n > 0 {
      CopyColumnsGet(a, data, attrs, n - 1, checkNull, k);
      assert attrs[..n] == attrs[..n - 1] + [attrs[n - 1]];
      var prev := CopyColumns(a, data, attrs, n - 1, checkNull);
      var v := Get(data, attrs[n - 1]);
      if v.Some? && (!checkNull || v.value != NullText) {
        GetPut(prev, attrs[n - 1], Str(v.value), k);
      }
    }
  }

  /** A custom attribute the row sets (and not to `'NULL'`) wins; otherwise an
      optional column the row has wins; otherwise the core attribute stands. */
  lemma NewCustomerGet(cfg: Config, email: string, data: Assoc<string>, k: string)
    ensures Get(NewCustomerOf(cfg, email, data).data, k) ==
      if k in cfg.customAttributes && Get(data, k).Some? && Get(data, k).value != NullText then Some(Str(Get(data, k).value))
      else if k in OptionalValues && Get(data, k).Some? then Some(Str(Get(data, k).value))
      else Get(CoreAttributes(cfg, email, data), k)
  {
    var core := CoreAttributes(cfg, email, data);
    var optional := CopyColumns(core, data, OptionalValues, |OptionalValues|, false);
    assert OptionalValues[..|OptionalValues|] == OptionalValues;
    assert cfg.customAttributes[..|cfg.customAttributes|] == cfg.customAttributes;
    CopyColumnsGet(optional, data, cfg.customAttributes, |cfg.customAttributes|, true, k);
    CopyColumnsGet(core, data, OptionalValues, |OptionalValues|, false, k);
  }

  /** The value of each core attribute. */
  lemma CoreFields(cfg: Config, email: string, data: Assoc<string>)
    ensures var a := CoreAttributes(cfg, email, data);
      Field(a, "email") == Str(Lower(email))
      && Field(a, "middlename") == NullUnlessText(Get(data, "middlename"))
      && Field(a, "old_customer_id") == NullUnlessText(Get(data, "old_customer_id"))
      && Field(a, "is_active") == Bool(true)
      && Field(a, "website_id") == Num(cfg.websiteId)
      && Field(a, "store_id") == Num(cfg.storeId)
  {
    var a := CoreAttributes(cfg, email, data);
    CoreNames(cfg, email, data);
    GetAt(a, 0);
    GetAt(a, 2);
    GetAt(a, 7);
    GetAt(a, 4);
    GetAt(a, 5);
    GetAt(a, 6);
  }

  /** An attribute that is neither optional nor custom keeps its core value: with
      no custom attribute among them, the saved email is the row's email
      lower-cased, the middle name and old customer id are null exactly when the
      row has none or `'NULL'`, and the customer is active in the configured
      website and store (CoreFields). */
  lemma KeepsCore(cfg: Config, email: string, data: Assoc<string>, k: string)
    requires k !in cfg.customAttributes && k !in OptionalValues
    ensures Field(NewCustomerOf(cfg, email, data).data, k) == Field(CoreAttributes(cfg, email, data), k)
  {
    NewCustomerGet(cfg, email, data, k);
  }

  /** The password is random when generation is on, else the row's password when
      it has one, else none; a row's `wcsid` becomes the entity id. */
  lemma NewCustomerPassword(cfg: Config, email: string, data: Assoc<string>)
    ensures var c := NewCustomerOf(cfg, email, data);
      (cfg.generatePasswords ==> c.password == RandomPassword)
      && (!cfg.generatePasswords && "password" in Keys(data) ==> c.password == RowPassword(Get(data, "password").value))
      && (!cfg.generatePasswords && "password" !in Keys(data) ==> c.password == NoPassword)
      && (c.entityId.Some? <==> "wcsid" in Keys(data))
      && (c.entityId.Some? ==> c.entityId.value == Get(data, "wcsid").value)
  {
  }

  /** Setting the next pair of an array without repeated keys onto its prefix
      extends the prefix. */
  lemma PutStep(c: Assoc<Value>, n: nat, a: Assoc<Value>)
    requires UniqueKeys(c) && n < |c| && a == c[..n]
    ensures Put(a, c[n].0, c[n].1) == c[..n + 1]
  {
    assert c[n].0 !in Keys(a) by {
      forall m | 0 <= m < n ensures Keys(a)[m] != c[n].0 {
        assert a[m] == c[m];
      }
    }
    PutNew(a, c[n].0, c[n].1);
    assert c[..n] + [c[n]] == c[..n + 1];
  }

  /** On a fresh model, each of the eight `setData` calls appends its pair. */
  lemma CorePuts(cfg: Config, email: string, data: Assoc<string>)
    ensures var a := Put([], "email", Str(Lower(email)));
      var a := Put(a, "firstname", TextOrNull(Get(data, "firstname")));
      var a := Put(a, "middlename", NullUnlessText(Get(data, "middlename")));
      var a := Put(a, "lastname", TextOrNull(Get(data, "lastname")));
      var a := Put(a, "is_active", Bool(true));
      var a := Put(a, "website_id", Num(cfg.websiteId));
      var a := Put(a, "store_id", Num(cfg.storeId));
      Put(a, "old_customer_id", NullUnlessText(Get(data, "old_customer_id"))) == CoreAttributes(cfg, email, data)
  {
    var c := CoreAttributes(cfg, email, data);
    CoreNames(cfg, email, data);
    var a1 := Put([], "email", c[0].1);
    PutNew([], "email", c[0].1);
    assert a1 == c[..1];
    var a2 := Put(a1, "firstname", c[1].1);
    PutStep(c, 1, a1);
    var a3 := Put(a2, "middlename", c[2].1);
    PutStep(c, 2, a2);
    var a4 := Put(a3, "lastname", c[3].1);
    PutStep(c, 3, a3);
    var a5 := Put(a4, "is_active", c[4].1);
    PutStep(c, 4, a4);
    var a6 := Put(a5, "website_id", c[5].1);
    PutStep(c, 5, a5);
    var a7 := Put(a6, "store_id", c[6].1);
    PutStep(c, 6, a6);
    var a8 := Put(a7, "old_customer_id", c[7].1);
    PutStep(c, 7, a7);
    assert a8 == c;
  }

  /** The eight `setData` calls on a fresh customer model. */
  method SetCoreData(cfg: Config, email: string, data: Assoc<string>) returns (a: Assoc<Value>)
    ensures a == CoreAttributes(cfg, email, data)
  {
    a := [];
    a := Put(a, "email", Str(Lower(email)));
    a := Put(a, "firstname", TextOrNull(Get(data, "firstname")));
    a := Put(a, "middlename", NullUnlessText(Get(data, "middlename")));
    a := Put(a, "lastname", TextOrNull(Get(data, "lastname")));
    a := Put(a, "is_active", Bool(true));
    a := Put(a, "website_id", Num(cfg.websiteId));
    a := Put(a, "store_id", Num(cfg.storeId));
    a := Put(a, "old_customer_id", NullUnlessText(Get(data, "old_customer_id")));
    CorePuts(cfg, email, data);
  }

  /** One of the two copy loops: set each listed attribute the row has a column
      for (and, with `checkNull`, whose text is not `'NULL'`). */
  method CopyLoop(a0: Assoc<Value>, data: Assoc<string>, attrs: seq<string>, checkNull: bool) returns (a: Assoc<Value>)
    ensures a == CopyColumns(a0, data, attrs, |attrs|, checkNull)
  {
    a := a0;
    for j := 0 to |attrs|
      invariant a == CopyColumns(a0, data, attrs, j, checkNull)
    {
      var v := Get(data, attrs[j]);
      if v.Some? && (!checkNull || v.value != NullText) {
        a := Put(a, attrs[j], Str(v.value));
      }
    }
  }

  /** The new-customer branch of `execute`: the `setData` calls, the two loops over
      the optional and the custom attributes, the password and the id. */
  method BuildCustomer(cfg: Config, email: string, data: Assoc<string>) returns (c: NewCustomer)
    ensures c == NewCustomerOf(cfg, email, data)
  {
    var a := SetCoreData(cfg, email, data);
    a := CopyLoop(a, data, OptionalValues, false);
    a := CopyLoop(a, data, cfg.customAttributes, true);
    var password := NoPassword;
    if cfg.generatePasswords {
      password := RandomPassword;
    } else if "password" in Keys(data) {
      password := RowPassword(Get(data, "password").value);
    }
    c := NewCustomer(a, password, Get(data, "wcsid"));
  }


  // ---------------------------------------------------------------------------
  // One row
  // ---------------------------------------------------------------------------

  /** The `old_customer_id` an existing customer is patched with: the row's value
      as it is, or null when the row has no such column. */
  function PatchOf(cfg: Config, data: Assoc<string>): (p: Patch)
    ensures "email" in Keys(data) ==> p.email == Get(data, "email").value
    ensures p.websiteId == cfg.websiteId
    ensures p.oldCustomerId == Null <==> "old_customer_id" !in Keys(data)
    ensures p.oldCustomerId != Null ==> p.oldCustomerId == Str(Get(data, "old_customer_id").value)
  {
    Patch(Get(data, "email").GetOr(""), cfg.websiteId, TextOrNull(Get(data, "old_customer_id")))
  }

  /** The gate for a new customer: email, first name and last name are present. */
  predicate HasRequired(data: Assoc<string>) {
    "email" in Keys(data) && "firstname" in Keys(data) && "lastname" in Keys(data)
  }

  /** The body of the row loop, given the customers the run has saved so far. The
      email is read first, so a row without one throws. */
  function RowOutcome(cfg: Config, db: Db, created: seq<NewCustomer>, i: nat, data: Assoc<string>): Outcome<NewCustomer> {
    match Get(data, "email")
    case None => Failed(Index(i))
    case Some(email) =>
      if CheckIfCustomerExists(db.customers, created, email, cfg.websiteId) then
        if i in db.failingSaves then ExistingThenFailed else Existing
      else if !HasRequired(data) then Failed(Index(i))
      else if i in db.failingSaves then Failed(Index(i))
      else if cfg.sendWelcomeEmail && i in db.failingEmails then CreatedThenFailed(NewCustomerOf(cfg, email, data))
      else Created(NewCustomerOf(cfg, email, data))
  }

  function Body(cfg: Config, db: Db): (seq<NewCustomer>, nat, Assoc<string>) -> Outcome<NewCustomer> {
    (created: seq<NewCustomer>, i: nat, data: Assoc<string>) => RowOutcome(cfg, db, created, i, data)
  }

  /** The body of the row loop, up to the bookkeeping: the outcome of row i, and
      the patch its existing customer is saved with. */
  method ImportRow(cfg: Config, db: Db, created: seq<NewCustomer>, i: nat, data: Assoc<string>)
    returns (o: Outcome<NewCustomer>, patch: Option<Patch>)
    ensures o == RowOutcome(cfg, db, created, i, data)
    ensures patch.Some? <==> o.Existing?
    ensures patch.Some? ==> patch.value == PatchOf(cfg, data)
  {
    patch := None;
    var email := Get(data, "email");
    if email.None? {
      return Failed(Index(i)), None;
    }
    var found := CheckIfCustomerExists(db.customers, created, email.value, cfg.websiteId);
    if found {
      var p := PatchOf(cfg, data);
      if i in db.failingSaves {
        o := ExistingThenFailed;
      } else {
        o, patch := Existing, Some(p);
      }
    } else if HasRequired(data) {
      var customer := BuildCustomer(cfg, email.value, data);
      if i in db.failingSaves {
        o := Failed(Index(i));
      } else if cfg.sendWelcomeEmail && i in db.failingEmails {
        o := CreatedThenFailed(customer);
      } else {
        o := Created(customer);
      }
    } else {
      o := Failed(Index(i));
    }
  }

  /** The outcome of row i within the run: the body against the customers the
      earlier rows saved. */
  lemma OutcomeOfRow(cfg: Config, db: Db, headers: seq<string>, rows: seq<seq<string>>, i: nat)
    requires RowsFit(headers, rows) && i < |rows|
    ensures OutcomeAt(Body(cfg, db), headers, rows, i) ==
      RowOutcome(cfg, db, Run(Body(cfg, db), headers, rows, i).created, i, Combine(headers, rows[i]))
  {
  }

  /** The patches saved by the first n rows, in row order. */
  function Patches(cfg: Config, db: Db, headers: seq<string>, rows: seq<seq<string>>, n: nat): seq<Patch>
    requires RowsFit(headers, rows) && n <= |rows|
  {
    ExistingMap(Body(cfg, db), headers, rows, n, (data: Assoc<string>) => PatchOf(cfg, data))
  }

  /** `execute`: the loop over the CSV rows. */
  method Execute(cfg: Config, db: Db, headers: seq<string>, rows: seq<seq<string>>)
    returns (existing: map<Key, Assoc<string>>, errors: map<Key, Assoc<string>>, created: seq<NewCustomer>,
             patches: seq<Patch>)
    requires RowsFit(headers, rows)
    ensures Buckets(existing, errors, created) == Run(Body(cfg, db), headers, rows, |rows|)
    ensures patches == Patches(cfg, db, headers, rows, |rows|)
  {
    existing, errors, created, patches := map[], map[], [], [];
    for i := 0 to |rows|
      invariant Buckets(existing, errors, created) == Run(Body(cfg, db), headers, rows, i)
      invariant patches == Patches(cfg, db, headers, rows, i)
    {
      var data := Combine(headers, rows[i]);
      var o, patch := ImportRow(cfg, db, created, i, data);
      RunStep(Body(cfg, db), headers, rows, i);
      OutcomeOfRow(cfg, db, headers, rows, i);
      ExistingMapStep(Body(cfg, db), headers, rows, i, (data: Assoc<string>) => PatchOf(cfg, data));
      if patch.Some? {
        patches := patches + [patch.value];
      }
      existing, errors, created := FileRow(existing, errors, created, i, data, o);
    }
  }

  // ---------------------------------------------------------------------------
  // What the outcomes tell
  // ---------------------------------------------------------------------------

  /** A row is counted as existing exactly when it has an email that a customer of
      the website already has; it is filed as an error as well when the patch
      cannot be saved. */
  lemma ExistingIff(cfg: Config, db: Db, created: seq<NewCustomer>, i: nat, data: Assoc<string>)
    ensures var o := RowOutcome(cfg, db, created, i, data);
      (o.Existing? || o.ExistingThenFailed?) <==>
        "email" in Keys(data) && CheckIfCustomerExists(db.customers, created, Get(data, "email").value, cfg.websiteId)
    ensures var o := RowOutcome(cfg, db, created, i, data);
      o.ExistingThenFailed? <==> (o.Existing? || o.ExistingThenFailed?) && i in db.failingSaves
  {
  }

  /** A new customer is saved exactly when the row has email, first name and last
      name, no customer of the website has that email, and the save succeeds; the
      row is an error as well when the welcome email then throws. */
  lemma CreatedIff(cfg: Config, db: Db, created: seq<NewCustomer>, i: nat, data: Assoc<string>)
    ensures var o := RowOutcome(cfg, db, created, i, data);
      (o.Created? || o.CreatedThenFailed?) <==>
        HasRequired(data) && i !in db.failingSaves
        && !CheckIfCustomerExists(db.customers, created, Get(data, "email").value, cfg.websiteId)
    ensures var o := RowOutcome(cfg, db, created, i, data);
      o.CreatedThenFailed? <==> (o.Created? || o.CreatedThenFailed?) && cfg.sendWelcomeEmail && i in db.failingEmails
  {
  }

  /** The customer a row saves is the one built from its columns. */
  lemma CreatedItem(cfg: Config, db: Db, created: seq<NewCustomer>, i: nat, data: Assoc<string>)
    requires var o := RowOutcome(cfg, db, created, i, data); o.Created? || o.CreatedThenFailed?
    ensures "email" in Keys(data)
    ensures RowOutcome(cfg, db, created, i, data).item == NewCustomerOf(cfg, Get(data, "email").value, data)
  {
  }

  /** A customer built from a lower-case email is found by that email, unless a
      custom attribute overrides the email or the website. */
  lemma CreatedFoundByEmail(cfg: Config, email: string, data: Assoc<string>)
    requires Lower(email) == email
    requires "email" !in cfg.customAttributes && "website_id" !in cfg.customAttributes
    ensures CreatedMatch(NewCustomerOf(cfg, email, data), email, cfg.websiteId)
  {
    CoreFields(cfg, email, data);
    KeepsCore(cfg, email, data, "email");
    KeepsCore(cfg, email, data, "website_id");
  }

  /** Every failing row is filed under its own index, and no row is skipped. */
  lemma RowFiledUnderIndex(cfg: Config, db: Db, created: seq<NewCustomer>, i: nat, data: Assoc<string>)
    ensures var o := RowOutcome(cfg, db, created, i, data);
      !o.Skipped? && (o.Failed? ==> o.key == Index(i))
  {
  }

  /** Every row is accounted for: it is counted as existing, filed as an error, or
      its customer is saved. */
  lemma EveryRowCounted(cfg: Config, db: Db, headers: seq<string>, rows: seq<seq<string>>, i: nat)
    requires RowsFit(headers, rows) && i < |rows|
    ensures var b := Run(Body(cfg, db), headers, rows, |rows|);
      Index(i) in b.existing || Index(i) in b.errors || OutcomeAt(Body(cfg, db), headers, rows, i).Created?
  {
    var body := Body(cfg, db);
    forall j | 0 <= j < |rows| ensures OutcomeAt(body, headers, rows, j).Failed? ==> OutcomeAt(body, headers, rows, j).key == Index(j) {
      RowFiledUnderIndex(cfg, db, Run(body, headers, rows, j).created, j, Combine(headers, rows[j]));
    }
    RowFiledUnderIndex(cfg, db, Run(body, headers, rows, i).created, i, Combine(headers, rows[i]));
    ErrorRow(body, headers, rows, i);
    ExistingBucket(body, headers, rows, |rows|, i);
  }

  /** The patches are those of the rows counted as existing whose save succeeded;
      the patch keeps the row's `old_customer_id` text as it is, `'NULL'` included. */
  lemma PatchesOfExisting(cfg: Config, db: Db, headers: seq<string>, rows: seq<seq<string>>, n: nat, p: Patch)
    requires RowsFit(headers, rows) && n <= |rows|
    ensures p in Patches(cfg, db, headers, rows, n) <==>
      exists i :: 0 <= i < n && OutcomeAt(Body(cfg, db), headers, rows, i).Existing?
        && p == PatchOf(cfg, Combine(headers, rows[i]))
  {
    ExistingMapIn(Body(cfg, db), headers, rows, n, (data: Assoc<string>) => PatchOf(cfg, data), p);
  }

  /** The two paths treat `'NULL'` differently: an existing customer is patched
      with the text `'NULL'`, while a new customer gets a null `old_customer_id`. */
  lemma NullTextPaths(cfg: Config, email: string, data: Assoc<string>)
    requires Get(data, "old_customer_id") == Some(NullText)
    requires "old_customer_id" !in cfg.customAttributes
    ensures PatchOf(cfg, data).oldCustomerId == Str(NullText)
    ensures Field(NewCustomerOf(cfg, email, data).data, "old_customer_id") == Null
  {
    CoreFields(cfg, email, data);
    KeepsCore(cfg, email, data, "old_customer_id");
  }

  /** A customer saved by row i makes every later row with the same email counted
      as existing, when the email is already lower-case (the check compares the
      row's email as given with the stored, lower-cased one) and no custom
      attribute overrides the email or the website. */
  lemma RepeatedEmail(cfg: Config, db: Db, headers: seq<string>, rows: seq<seq<string>>, i: nat, j: nat)
    requires RowsFit(headers, rows) && i < j < |rows|
    requires "email" !in cfg.customAttributes && "website_id" !in cfg.customAttributes
    requires var o := OutcomeAt(Body(cfg, db), headers, rows, i); o.Created? || o.CreatedThenFailed?
    requires var e := Get(Combine(headers, rows[i]), "email");
      e.Some? && Lower(e.value) == e.value && Get(Combine(headers, rows[j]), "email") == e
    ensures var o := OutcomeAt(Body(cfg, db), headers, rows, j); o.Existing? || o.ExistingThenFailed?
  {
    var body := Body(cfg, db);
    var data := Combine(headers, rows[i]);
    var email := Get(data, "email").value;
    OutcomeOfRow(cfg, db, headers, rows, i);
    CreatedItem(cfg, db, Run(body, headers, rows, i).created, i, data);
    var c := OutcomeAt(body, headers, rows, i).item;
    CreatedFoundByEmail(cfg, email, data);
    SavedBefore(body, headers, rows, i, j);
    var later := Run(body, headers, rows, j).created;
    var m :| 0 <= m < |later| && later[m] == c;
    OutcomeOfRow(cfg, db, headers, rows, j);
    ExistingIff(cfg, db, later, j, Combine(headers, rows[j]));
  }
}
