/**
 * The stored-card import: each CSV row names a customer and a card; the card
 * number is masked, the expiry date formatted, and a vault payment token saved
 * for every row whose customer is found and whose five card columns are present.
 */
module CardImport {
  import opened Wrappers
  import opened Php
  import opened PhpArray
  import opened CustomerLookup
  import opened RowLoop

  /** The command's options, after their defaults are applied. */
  datatype Config = Config(
    websiteId: nat,
    customerIdColumn: string,          // `USERS_ID` by default
    findCustomerByAttribute: string)

  /** The customers, and the rows whose token the vault repository refuses to save. */
  datatype Db = Db(customers: seq<Customer>, failingSaves: set<nat>)

  /** The attributes of the formatted card, in this order, all null to start with. */
  const CardKeys: seq<string> := ["CARDTOKEN", "CARDBRAND", "CARDNUMBER", "EXPIRYYEAR", "EXPIRYMONTH"]

  /** What stands for the hidden digits of a card number. */
  const MaskFill: string := "xxxxxxxxxxxx"

  // ---------------------------------------------------------------------------
  // mapData
  // ---------------------------------------------------------------------------

  /** The card number as stored: its first two characters, twelve x's, then its
      third and fourth characters. */
  function MaskCardNumber(v: string): (r: string)
    ensures var shown := if |v| < 4 then |v| else 4;
      var head := if |v| < 2 then |v| else 2;
      |r| == |MaskFill| + shown
      && r[head..head + |MaskFill|] == MaskFill
      && r[..head] + r[head + |MaskFill|..] == v[..shown]
  {
    var r := Substr(v, 0, 2) + MaskFill + Substr(v, 2, 2);
    var shown := if |v| < 4 then |v| else 4;
    var head := if |v| < 2 then |v| else 2;
    assert r[..head] == Substr(v, 0, 2);
    assert r[head + |MaskFill|..] == Substr(v, 2, 2);
    assert Substr(v, 0, 2) + Substr(v, 2, 2) == v[..shown];
    r
  }

  /** A sixteen-digit number keeps its first four digits only. */
  lemma MaskSixteen()
    ensures MaskCardNumber("4111111111111111") == "41xxxxxxxxxxxx11"
  {
    var r := MaskCardNumber("4111111111111111");
    assert r[..2] + r[14..] == "4111";
    assert r[..2] == "41" && r[14..] == "11";
    assert r == r[..2] + r[2..14] + r[14..];
  }

  /** Any number of at least four characters is masked to sixteen. */
  lemma MaskLength(v: string)
    requires |v| >= 4
    ensures |MaskCardNumber(v)| == 16
  {
  }

  /** The value of one attribute of the formatted card: the column of that name,
      the card number masked; null when the row has no such column. */
  function CardValue(data: Assoc<string>, k: string): Value {
    match Get(data, k)
    case None => Null
    case Some(v) => Str(if k == "CARDNUMBER" then MaskCardNumber(v) else v)
  }

  /** The formatted card of a row: exactly the five card attributes. */
  function FormattedCard(data: Assoc<string>): (r: Assoc<Value>)
    ensures Keys(r) == CardKeys
    ensures forall i :: 0 <= i < |CardKeys| ==> r[i].1 == CardValue(data, CardKeys[i])
  {
    seq(|CardKeys|, i requires 0 <= i < |CardKeys| => (CardKeys[i], CardValue(data, CardKeys[i])))
  }

  /** The `switch ($key)` of the card's `mapData` for one column. */
  function CardStep(r: Assoc<Value>, col: (string, string)): Assoc<Value> {
    var (key, value) := col;
    if key in ["CARDTOKEN", "CARDBRAND", "EXPIRYYEAR", "EXPIRYMONTH"] then Put(r, key, Str(value))
    else if key == "CARDNUMBER" then Put(r, "CARDNUMBER", Str(MaskCardNumber(value)))
    else r
  }

  /** The five card attributes are distinct names. */
  lemma CardKeysDistinct()
    ensures forall a, b :: 0 <= a < b < |CardKeys| ==> CardKeys[a] != CardKeys[b]
  {
  }

  /** Assigning a card attribute of the five-entry card replaces it in place. */
  lemma PutCardAt(r: Assoc<Value>, m: nat, v: Value)
    requires Keys(r) == CardKeys && m < |CardKeys|
    ensures Put(r, CardKeys[m], v) == r[m := (CardKeys[m], v)]
  {
    CardKeysDistinct();
    assert r[m].0 == CardKeys[m];
    var y := IndexOf(r, CardKeys[m]);
    assert y.Some?;
    assert y.value == m by {
      assert r[y.value].0 == Keys(r)[y.value];
    }
  }

  /** The switch assigns a card attribute the value its column gives, and leaves
      the card alone for any other column. */
  lemma CardStepIsPut(r: Assoc<Value>, col: (string, string))
    ensures CardStep(r, col) == if col.0 in CardKeys then Put(r, col.0, CardValue([col], col.0)) else r
  {
    assert Get([col], col.0) == Some(col.1) by {
      assert Keys([col])[0] == col.0;
      assert IndexOf([col], col.0) == Some(0);
    }
  }

  /** Appending a column of a new name changes the value of that name only. */
  lemma CardValueAppend(before: Assoc<string>, col: (string, string), k: string)
    requires col.0 !in Keys(before)
    ensures CardValue(before + [col], k) == if k == col.0 then CardValue([col], k) else CardValue(before, k)
  {
    GetAppend(before, col, k);
    GetAppend([], col, k);
    assert [] + [col] == [col];
  }

  /** A column of a new name takes the formatted card of the columns before it
      to the formatted card with that column appended. */
  lemma CardStepAppend(before: Assoc<string>, col: (string, string))
    requires col.0 !in Keys(before)
    ensures FormattedCard(before + [col]) == CardStep(FormattedCard(before), col)
  {
    var r := FormattedCard(before);
    var r' := FormattedCard(before + [col]);
    CardStepIsPut(r, col);
    if m :| 0 <= m < |CardKeys| && CardKeys[m] == col.0 {
      PutCardAt(r, m, CardValue([col], col.0));
      forall x | 0 <= x < |CardKeys| ensures r'[x] == r[m := (col.0, CardValue([col], col.0))][x] {
        CardValueAppend(before, col, CardKeys[x]);
      }
    } else {
      forall x | 0 <= x < |CardKeys| ensures r'[x] == r[x] {
        CardValueAppend(before, col, CardKeys[x]);
      }
    }
  }

  /** Each column of a row without repeated names takes the formatted card of the
      columns before it to the formatted card of the columns up to it. */
  lemma CardStepPrefix(data: Assoc<string>, j: nat)
    requires UniqueKeys(data) && j < |data|
    ensures FormattedCard(data[..j + 1]) == CardStep(FormattedCard(data[..j]), data[j])
  {
    var before := data[..j];
    assert data[..j + 1] == before + [data[j]];
    assert data[j].0 !in Keys(before) by {
      forall m | 0 <= m < j ensures Keys(before)[m] != data[j].0 {
        assert before[m] == data[m];
      }
    }
    CardStepAppend(before, data[j]);
  }

  /** `mapData($cardData)`: a loop over the row's columns. */
  method MapData(data: Assoc<string>) returns (r: Assoc<Value>)
    requires UniqueKeys(data)
    ensures r == FormattedCard(data)
  {
    r := FormattedCard([]);
    for j := 0 to |data|
      invariant r == FormattedCard(data[..j])
    {
      CardStepPrefix(data, j);
      var (key, value) := data[j];
      if key in ["CARDTOKEN", "CARDBRAND", "EXPIRYYEAR", "EXPIRYMONTH"] {
        r := Put(r, key, Str(value));
      } else if key == "CARDNUMBER" {
        r := Put(r, "CARDNUMBER", Str(MaskCardNumber(value)));
      }
    }
    assert data[..|data|] == data;
  }

  /** The card keeps its five attributes and drops every other column; an attribute
      is set exactly when the row has its column. */
  lemma CardShape(data: Assoc<string>, k: string)
    ensures Get(FormattedCard(data), k).Some? <==> k in CardKeys
    ensures k in CardKeys ==> (IsSet(FormattedCard(data), k) <==> k in Keys(data))
    ensures k in CardKeys && k != "CARDNUMBER" && k in Keys(data) ==> Field(FormattedCard(data), k) == Str(Get(data, k).value)
    ensures k == "CARDNUMBER" && k in Keys(data) ==> Field(FormattedCard(data), k) == Str(MaskCardNumber(Get(data, k).value))
  {
    var r := FormattedCard(data);
    if k in CardKeys {
      var m :| 0 <= m < |CardKeys| && CardKeys[m] == k;
      assert Keys(r)[m] == k;
      assert UniqueKeys(r) by {
        forall a, b | 0 <= a < b < |r| ensures r[a].0 != r[b].0 {
          assert Keys(r)[a] == CardKeys[a] && Keys(r)[b] == CardKeys[b];
        }
      }
      GetAt(r, m);
    }
  }

  // ---------------------------------------------------------------------------
  // The payment token
  // ---------------------------------------------------------------------------

  /** `sprintf('%02d', $month) . substr($year, 2, 2)`. */
  function ExpiryDate(month: string, year: string): (r: string)
    ensures var w := |FormatInt(IntVal(month), 2)|;
      w <= |r| && IntVal(r[..w]) == IntVal(month) && r[w..] == Substr(year, 2, 2)
  {
    IntValFormatInt(IntVal(month), 2);
    var m := FormatInt(IntVal(month), 2);
    assert (m + Substr(year, 2, 2))[..|m|] == m;
    m + Substr(year, 2, 2)
  }

  /** A one-digit month is padded with one zero; the year gives its third and
      fourth characters. */
  lemma OneDigitMonth(d: char, year: string)
    requires '0' <= d <= '9' && |year| >= 4
    ensures ExpiryDate([d], year) == ['0', d] + year[2..4]
  {
    OneDigitPadded(d);
    var y := Substr(year, 2, 2);
    assert y == year[2..4];
    assert ExpiryDate([d], year) == ['0', d] + y;
  }

  lemma OneDigitPadded(d: char)
    requires '0' <= d <= '9'
    ensures FormatInt(IntVal([d]), 2) == ['0', d]
  {
    assert IntVal([d]) == DigitValue([d]) by {
      ShortDigitsFit([d]);
      IntValOfDigits([d]);
    }
    FormatDigitValue([d], 2);
    assert Zeros(1) == ['0'];
  }

  /** A month beyond the range of a double reads as 0, so the date starts "00". */
  lemma MonthOverflowsDouble(month: string, year: string)
    requires AllDigits(month) && |month| >= 1 && DigitValue(month) >= DoubleOverflow
    requires |year| >= 4
    ensures ExpiryDate(month, year) == "00" + year[2..4]
  {
    IntValOverflowsDouble(month);
    var m := FormatInt(0, 2);
    assert m == "00" by {
      assert DigitsOf(0) == "0";
      FormatDigitValue("0", 2);
      assert Zeros(1) == "0";
    }
    var y := Substr(year, 2, 2);
    assert y == year[2..4];
    assert ExpiryDate(month, year) == m + y;
  }


  /** A month of one or two digits gives a four-character date for a four-digit year. */
  lemma ExpiryLength(month: string, year: string)
    requires 0 <= IntVal(month) < 100 && |year| == 4
    ensures |ExpiryDate(month, year)| == 4
  {
    var n := IntVal(month);
    assert n >= 10 ==> DigitsOf(n) == DigitsOf(n / 10) + [DigitChar(n % 10)];
    assert |DigitsOf(n)| <= 2;
  }

  /** The `tokenDetails` JSON object. */
  datatype TokenDetails = TokenDetails(cardType: string, maskedCC: string, expirationDate: string)

  /** The vault payment token as the setter chain leaves it before `save()`. */
  datatype PaymentToken = PaymentToken(
    customerId: string,          // `setCustomerId($customerIdColumnValue)`
    paymentMethodCode: string,
    tokenType: string,
    gatewayToken: string,
    details: TokenDetails,
    isActive: bool,
    isVisible: bool)

  /** The token for a card whose five attributes are set. */
  function NewToken(customerIdValue: string, card: Assoc<Value>): (t: PaymentToken)
    ensures t.customerId == customerIdValue && t.paymentMethodCode == "tns" && t.tokenType == "card"
    ensures t.gatewayToken == AsText(Field(card, "CARDTOKEN"))
    ensures t.details.maskedCC == AsText(Field(card, "CARDNUMBER"))
    ensures t.details.cardType == AsText(Field(card, "CARDBRAND"))
    ensures t.isActive && t.isVisible
  {
    var token := AsText(Field(card, "CARDTOKEN"));
    var expiry := ExpiryDate(AsText(Field(card, "EXPIRYMONTH")), AsText(Field(card, "EXPIRYYEAR")));
    PaymentToken(customerIdValue, "tns", "card", token,
      TokenDetails(AsText(Field(card, "CARDBRAND")), AsText(Field(card, "CARDNUMBER")), expiry), true, true)
  }

  /** The text of a card attribute (every set one holds the text of its column). */
  function AsText(v: Value): string {
    if v.Str? then v.s else ""
  }

  // ---------------------------------------------------------------------------
  // One row
  // ---------------------------------------------------------------------------

  /** `checkIfStoredCardExists`: no stored card is ever found. */
  function CheckIfStoredCardExists(customerId: nat, card: Assoc<Value>): (found: bool)
    ensures !found
  {
    false
  }

  /** The gate: the five card attributes are all set. */
  predicate CardComplete(card: Assoc<Value>) {
    IsSet(card, "CARDTOKEN") && IsSet(card, "CARDBRAND") && IsSet(card, "CARDNUMBER")
    && IsSet(card, "EXPIRYYEAR") && IsSet(card, "EXPIRYMONTH")
  }

  /** The row has a column for each of the five card attributes. */
  predicate HasCardColumns(data: Assoc<string>) {
    forall k :: k in CardKeys ==> k in Keys(data)
  }

  /** The gate passes exactly when every card column is present, whatever its text. */
  lemma CompleteIff(data: Assoc<string>)
    ensures CardComplete(FormattedCard(data)) <==> HasCardColumns(data)
  {
    CardShape(data, "CARDTOKEN");
    CardShape(data, "CARDBRAND");
    CardShape(data, "CARDNUMBER");
    CardShape(data, "EXPIRYYEAR");
    CardShape(data, "EXPIRYMONTH");
  }

  /** The body of the row loop: the customer-id column and the CARDTOKEN column are
      read first (a missing one throws), then the customer is searched. */
  function RowOutcome(cfg: Config, db: Db, i: nat, data: Assoc<string>): Outcome<PaymentToken> {
    var idValue := Get(data, cfg.customerIdColumn);
    if idValue.None? || Get(data, "CARDTOKEN").None? then Failed(Index(i))
    else
      match FindCustomer(db.customers, cfg.findCustomerByAttribute, idValue.value, cfg.websiteId)
      case Err(_) => Failed(Index(i))
      case Ok(None) => Skipped
      case Ok(Some(c)) =>
        var card := FormattedCard(data);
        if CheckIfStoredCardExists(c.id, card) then Existing
        else if !CardComplete(card) then Failed(Index(i))
        else if i in db.failingSaves then Failed(Index(i))
        else Created(NewToken(idValue.value, card))
  }

  function Body(cfg: Config, db: Db): (seq<PaymentToken>, nat, Assoc<string>) -> Outcome<PaymentToken> {
    (saved: seq<PaymentToken>, i: nat, data: Assoc<string>) => RowOutcome(cfg, db, i, data)
  }

  method ImportRow(cfg: Config, db: Db, i: nat, data: Assoc<string>) returns (o: Outcome<PaymentToken>)
    requires UniqueKeys(data)
    ensures o == RowOutcome(cfg, db, i, data)
  {
    var idValue := Get(data, cfg.customerIdColumn);
    if idValue.None? || Get(data, "CARDTOKEN").None? {
      return Failed(Index(i));
    }
    var found := GetCustomerByAttribute(db.customers, cfg.findCustomerByAttribute, idValue.value, cfg.websiteId);
    if found.Err? {
      return Failed(Index(i));
    }
    if found.value.None? {
      return Skipped;
    }
    var customer := found.value.value;
    var card := MapData(data);
    if CheckIfStoredCardExists(customer.id, card) {
      o := Existing;
    } else if CardComplete(card) {
      var token := NewToken(idValue.value, card);
      if i in db.failingSaves {
        o := Failed(Index(i));
      } else {
        o := Created(token);
      }
    } else {
      o := Failed(Index(i));
    }
  }

  /** `execute`: the loop over the CSV rows. */
  method Execute(cfg: Config, db: Db, headers: seq<string>, rows: seq<seq<string>>)
    returns (existing: map<Key, Assoc<string>>, errors: map<Key, Assoc<string>>, saved: seq<PaymentToken>)
    requires RowsFit(headers, rows)
    ensures Buckets(existing, errors, saved) == Run(Body(cfg, db), headers, rows, |rows|)
  {
    existing, errors, saved := map[], map[], [];
    for i := 0 to |rows|
      invariant Buckets(existing, errors, saved) == Run(Body(cfg, db), headers, rows, i)
    {
      var data := Combine(headers, rows[i]);
      var o := ImportRow(cfg, db, i, data);
      RunStep(Body(cfg, db), headers, rows, i);
      assert OutcomeAt(Body(cfg, db), headers, rows, i) == o;
      existing, errors, saved := FileRow(existing, errors, saved, i, data, o);
    }
  }

  // ---------------------------------------------------------------------------
  // What the outcomes tell
  // ---------------------------------------------------------------------------

  /** A row is never an existing card: it is skipped, saved, or filed as an error
      under its own index. */
  lemma RowNeverExisting(cfg: Config, db: Db, i: nat, data: Assoc<string>)
    ensures var o := RowOutcome(cfg, db, i, data);
      o.Skipped? || o.Created? || o == Failed(Index(i))
  {
  }

  /** A token is saved exactly when the customer-id column is present, a customer
      is found for it, the five card columns are present and the save succeeds. */
  lemma CreatedIff(cfg: Config, db: Db, i: nat, data: Assoc<string>)
    ensures var idValue := Get(data, cfg.customerIdColumn);
      RowOutcome(cfg, db, i, data).Created? <==>
        idValue.Some? && i !in db.failingSaves && HasCardColumns(data)
        && var found := FindCustomer(db.customers, cfg.findCustomerByAttribute, idValue.value, cfg.websiteId);
        found.Ok? && found.value.Some?
  {
    CompleteIff(data);
    assert "CARDTOKEN" in CardKeys;
  }

  /** A saved row passed the completeness gate and saved the token built from it. */
  lemma CreatedShape(cfg: Config, db: Db, i: nat, data: Assoc<string>)
    requires RowOutcome(cfg, db, i, data).Created?
    ensures Get(data, cfg.customerIdColumn).Some? && CardComplete(FormattedCard(data))
    ensures RowOutcome(cfg, db, i, data).item == NewToken(Get(data, cfg.customerIdColumn).value, FormattedCard(data))
  {
  }

  /** The saved token carries the customer-id column's text, not the found
      customer's entity id, the card token as given, the masked number and the
      formatted expiry date. */
  lemma CreatedToken(cfg: Config, db: Db, i: nat, data: Assoc<string>)
    requires RowOutcome(cfg, db, i, data).Created?
    ensures var t := RowOutcome(cfg, db, i, data).item;
      Get(data, cfg.customerIdColumn) == Some(t.customerId)
      && Get(data, "CARDTOKEN") == Some(t.gatewayToken)
      && Get(data, "CARDBRAND") == Some(t.details.cardType)
      && Get(data, "CARDNUMBER").Some? && t.details.maskedCC == MaskCardNumber(Get(data, "CARDNUMBER").value)
      && Get(data, "EXPIRYMONTH").Some? && Get(data, "EXPIRYYEAR").Some?
      && t.details.expirationDate == ExpiryDate(Get(data, "EXPIRYMONTH").value, Get(data, "EXPIRYYEAR").value)
  {
    var card := FormattedCard(data);
    CreatedShape(cfg, db, i, data);
    var t := NewToken(Get(data, cfg.customerIdColumn).value, card);
    assert Get(data, "CARDTOKEN") == Some(t.gatewayToken) by {
      CardShape(data, "CARDTOKEN");
      assert "CARDTOKEN" in CardKeys;
    }
    assert Get(data, "CARDBRAND") == Some(t.details.cardType) by {
      CardShape(data, "CARDBRAND");
      assert "CARDBRAND" in CardKeys;
    }
    assert Get(data, "CARDNUMBER").Some? && t.details.maskedCC == MaskCardNumber(Get(data, "CARDNUMBER").value) by {
      CardShape(data, "CARDNUMBER");
      assert "CARDNUMBER" in CardKeys;
    }
    assert Get(data, "EXPIRYMONTH").Some? && Field(card, "EXPIRYMONTH") == Str(Get(data, "EXPIRYMONTH").value) by {
      CardShape(data, "EXPIRYMONTH");
      assert "EXPIRYMONTH" in CardKeys;
    }
    assert Get(data, "EXPIRYYEAR").Some? && Field(card, "EXPIRYYEAR") == Str(Get(data, "EXPIRYYEAR").value) by {
      CardShape(data, "EXPIRYYEAR");
      assert "EXPIRYYEAR" in CardKeys;
    }
  }

  /** The existing-cards bucket of a run is always empty. */
  lemma NoExistingCards(cfg: Config, db: Db, headers: seq<string>, rows: seq<seq<string>>)
    requires RowsFit(headers, rows)
    ensures Run(Body(cfg, db), headers, rows, |rows|).existing == map[]
  {
    var b := Run(Body(cfg, db), headers, rows, |rows|);
    forall k | k in b.existing ensures false {
      ExistingKeys(Body(cfg, db), headers, rows, |rows|, k);
      ExistingBucket(Body(cfg, db), headers, rows, |rows|, k.i);
      RowNeverExisting(cfg, db, k.i, Combine(headers, rows[k.i]));
    }
  }

  /** Every row that is not skipped is either saved or filed as an error under its
      index, and a skipped row is in neither bucket. */
  lemma SavedOrError(cfg: Config, db: Db, headers: seq<string>, rows: seq<seq<string>>, i: nat)
    requires RowsFit(headers, rows) && i < |rows|
    ensures var o := OutcomeAt(Body(cfg, db), headers, rows, i);
      var b := Run(Body(cfg, db), headers, rows, |rows|);
      (o.Skipped? ==> Index(i) !in b.errors && Index(i) !in b.existing)
      && (!o.Skipped? ==> (o.Created? && o.item in b.created) != (Index(i) in b.errors))
  {
    var body := Body(cfg, db);
    forall j | 0 <= j < |rows| ensures OutcomeAt(body, headers, rows, j).Failed? ==> OutcomeAt(body, headers, rows, j).key == Index(j) {
      RowNeverExisting(cfg, db, j, Combine(headers, rows[j]));
    }
    assert FailsUnderOwnIndex(body, headers, rows);
    RowNeverExisting(cfg, db, i, Combine(headers, rows[i]));
    ErrorRow(body, headers, rows, i);
    var o := OutcomeAt(body, headers, rows, i);
    if o.Skipped? {
      SkippedUncounted(body, headers, rows, i);
    } else if o.Created? {
      SavedBefore(body, headers, rows, i, |rows|);
    }
  }
}
