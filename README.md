# Customer import commands: a Dafny model

This project models the four console commands of a Magento 2 customer-import
module: `customer:import` (customers from a CSV file), the customer address
import, the stored-card import, and `customer:email:send`. The three imports
share one shape. Each reads a CSV file, combines every data row with the
header row, and runs a loop body whose exceptions are caught per row. The
body then does one of four things with the row:

- skips it;
- counts it as already existing;
- saves a new entity;
- records the row in the "rows with errors" array.

The send-email command picks one customer by id, or every customer of a
website. It sends each one the template an email type names. A dry run only
logs, and test mode redirects every email to one address.

The model is organised as follows:

- `wrappers.dfy`, `php.dfy`, `phparray.dfy`: Option and Result, and the PHP
  built-ins the commands rely on. These are `strtolower`, `ucwords`,
  `empty`, `substr`, `explode`/`implode`, `sprintf("%0Nd")` and the
  string-to-integer conversion. The file also has ordered arrays with
  `$a[$k] = $v`, `isset` and `array_combine`.
- `flags.dfy`: `isTruthy`/`isFalsey` and how a flag option reads.
- `customers.dfy`: `getCustomerByAttribute`.
- `directory.dfy`: the country list search and the region lookups.
- `address_map.dfy`: the address `mapData`, a loop over the row's columns
  with its `switch`, modelled as one effect per column folded over the row.
- `row_loop.dfy`: the row loop the three imports share. It has the outcome of
  one row, how the outcome is filed (the existing array, the error array,
  the saved entities), and the run over all rows, where each row sees what
  the earlier rows saved.
- `address_import.dfy`, `card_import.dfy`, `customer_import.dfy`: each
  import's loop body and its `execute` loop.
- `send_email.dfy`: the send-email command. The customer model is a class,
  because test mode overwrites its email in place.

PHP notices count as exceptions, because Magento's error handler raises them.
So reading a CSV column the row does not have fails the row and files it
under the row's index. An option the user leaves out carries its declared
default, and the declared default `false` reads as the empty string. An
option given without a value is null, so the command's own fallback applies.
`Options` datatypes hold what `getOptions()` returns: the text options are
`Some(text)`, or `None` for null. The id options (website-id, store-id,
customer-id) are modelled as natural numbers, `Some(n)` or `None`, and the
address and card commands hold their website id as a plain `nat`.

## Model

| member | source | states |
|---|---|---|
| Php.Lower | Console/Command/CustomerAddressImportCommand.php:444 | `strtolower` keeps the length and lower-cases each ASCII capital, position by position |
| Php.UcWords | Console/Command/CustomerAddressImportCommand.php:420 | `ucwords`; what it does is stated position by position by UcWordsAt, and its idempotence by UcWordsIdempotent |
| Php.UcWordsAt | Console/Command/CustomerAddressImportCommand.php:420 | `ucwords` upper-cases exactly the characters that begin a word (after a space, tab, CR, LF, FF or VT, or at the start), leaves every other character, and keeps the length |
| Php.UcWordsIdempotent | Console/Command/CustomerAddressImportCommand.php:420 | title-casing a title-cased string changes nothing |
| Php.IsEmpty | Console/Command/CustomerAddressImportCommand.php:428 | `empty()` on a string: true for "" and for "0"; NoPostcode and TelephoneField state its effect on the address |
| Php.Substr | Console/Command/CustomerCardImportCommand.php:392 | `substr(s, start, len)` has length min(len, max(0, \|s\| - start)) and holds s's characters from start |
| Php.Explode | Console/Command/CustomerImportCommand.php:184 | `explode(',', s)` never returns an empty list |
| Php.ImplodeExplode | Console/Command/CustomerImportCommand.php:184 | joining the pieces of `explode(',', s)` with commas gives s back, and no piece holds a comma |
| Php.FormatInt | Console/Command/CustomerAddressImportCommand.php:445 | `sprintf('%0Nd', n)`: FormatIntOfDigits and IntValFormatInt state what it writes |
| Php.IntVal | Console/Command/CustomerCardImportCommand.php:252 | the integer `sprintf` reads out of a string always lies in PHP's 64-bit range; in range it is the string's number; beyond it but within a double's range (below 2^1024 - 2^970) it is PHP_INT_MAX or PHP_INT_MIN; beyond a double's range it is 0 |
| Php.IntValOfDigits | Console/Command/CustomerAddressImportCommand.php:445 | a digit string whose number fits in 64 bits reads as that number |
| Php.IntValSaturates | Console/Command/CustomerAddressImportCommand.php:445 | a digit string whose number exceeds PHP_INT_MAX but is within a double's range reads as PHP_INT_MAX |
| Php.IntValOverflowsDouble | Console/Command/CustomerAddressImportCommand.php:445 | a digit string whose number is beyond a double's range reads as 0 |
| Php.FormatIntOfDigits | Console/Command/CustomerAddressImportCommand.php:411-445 | `%0Nd` of a digit string of at most N digits is the string left-padded with zeros to N characters, every digit kept |
| Php.IntValFormatInt | Console/Command/CustomerCardImportCommand.php:252 | `%0Nd` formatting round-trips through PHP's string-to-integer conversion for every 64-bit integer, negative numbers included |
| PhpArray.IndexOf | Console/Command/CustomerAddressImportCommand.php:413-501 | the position found holds the key and no earlier position does; no position holds a key that is not found |
| PhpArray.Get | Console/Command/CustomerAddressImportCommand.php:243 | `$a[$k]` is absent exactly when k is not a key of a |
| PhpArray.Put | Console/Command/CustomerAddressImportCommand.php:420-498 | `$a[$k] = $v`; PutKeys, GetPut, PutNew and PutUnique state its effect |
| PhpArray.PutKeys | Console/Command/CustomerAddressImportCommand.php:420-498 | an assignment to a present key keeps the keys and their order; one to a new key appends it |
| PhpArray.GetPut | Console/Command/CustomerAddressImportCommand.php:420-498 | after `$a[$k] = $v` that key holds v and every other key holds what it held before |
| PhpArray.PutNew | Console/Command/CustomerImportCommand.php:228-235 | an assignment to a new key appends the pair |
| PhpArray.PutUnique | Console/Command/CustomerAddressImportCommand.php:420-498 | assignments never create a repeated key |
| PhpArray.Combine | Console/Command/CustomerAddressImportCommand.php:242 | `array_combine($headers, $row)`; CombineGet states its keys and values |
| PhpArray.CombineGet | Console/Command/CustomerAddressImportCommand.php:242 | `array_combine`: every header name is a key of the row, holding the value of the last column with that name, and the row has no other keys |
| Flags.IsTruthy | Console/Command/CustomerImportCommand.php:344-347 | `isTruthy`; IsTruthyIff states exactly which values it accepts |
| Flags.IsFalsey | Console/Command/CustomerImportCommand.php:349-352 | `isFalsey`; IsFalseyIff states exactly which values it accepts |
| Flags.IsTruthyIff | Console/Command/CustomerImportCommand.php:344-347 | `isTruthy` holds exactly when the lower-cased value is "true", "yes", "y" or "1"; the `true` and `1` entries never match under strict comparison |
| Flags.IsFalseyIff | Console/Command/CustomerImportCommand.php:349-352 | `isFalsey` holds exactly when the lower-cased value is "false", "no", "n" or "0" |
| Flags.TruthyFalseyExclusive | Console/Command/CustomerImportCommand.php:344-352 | no value is both truthy and falsey |
| Flags.FlagOption | Console/Command/CustomerImportCommand.php:171-181 | an option with a value is on exactly when that value is truthy; a null option takes the command's fallback |
| CustomerLookup.FirstMatch | Console/Command/CustomerAddressImportCommand.php:364-375 | the first customer of the collection in the website that meets every attribute filter; none when no customer does |
| CustomerLookup.Pairs | Console/Command/CustomerAddressImportCommand.php:368-370 | each attribute is paired with the value at its own position |
| CustomerLookup.FindCustomer | Console/Command/CustomerAddressImportCommand.php:344-383 | fails exactly when fewer comma-separated values than attributes are given (the missing index throws); otherwise it returns the first matching customer with a non-zero id, or none |
| CustomerLookup.GetCustomerByAttribute | Console/Command/CustomerAddressImportCommand.php:344-383 | the loop that adds one filter per attribute returns what FindCustomer specifies |
| Directory.FirstIndex | Console/Command/CustomerAddressImportCommand.php:575 | `array_search` over a column gives the first index holding the value, or none |
| Directory.SearchCountries | Console/Command/CustomerAddressImportCommand.php:572-582 | a found country holds the value and is never the first entry of the list; a failed search reports the key and the value |
| Directory.SearchCountriesFound | Console/Command/CustomerAddressImportCommand.php:572-582 | the search succeeds exactly when the first entry holding the value is not the list's first entry, and then returns that entry |
| Directory.FirstCountryNeverFound | Console/Command/CustomerAddressImportCommand.php:577-581 | the first country of the list can never be found: the index 0 reads as false |
| Directory.GetCountryByName | Console/Command/CustomerAddressImportCommand.php:562-565 | the search of the country list by label; SearchCountries and SearchCountriesFound state its result |
| Directory.GetRegionByCode | Console/Command/CustomerAddressImportCommand.php:542-550 | the country is looked up by its label, whose failure is the result; then the region by code within that country |
| Directory.GetRegionByName | Console/Command/CustomerAddressImportCommand.php:552-560 | the same, the region looked up by name |
| AddressMapping.InitialAddress | Console/Command/CustomerAddressImportCommand.php:394-408 | the formatted address starts with exactly the 13 attributes, in their order |
| AddressMapping.ResolveUsRegion | Console/Command/CustomerAddressImportCommand.php:459-476 | a US region is looked up by code for two characters and by name for more; a shorter value and a region that is not loaded throw |
| AddressMapping.ResolveUsRegionLookup | Console/Command/CustomerAddressImportCommand.php:459-476 | a found US region comes from the directory lookup that the value's length selects, and its id is not 0 |
| AddressMapping.ColumnEffect | Console/Command/CustomerAddressImportCommand.php:414-500 | the `switch` on one column; EffectFails states when it throws, and the field lemmas below state what it writes |
| AddressMapping.MapAll | Console/Command/CustomerAddressImportCommand.php:392-504 | `mapData` on a whole row; MapAllErrIff, Shape, LastWriter and the field lemmas state its result |
| AddressMapping.Effects | Console/Command/CustomerAddressImportCommand.php:413 | one effect per column of the row, in the row's order |
| AddressMapping.MapData | Console/Command/CustomerAddressImportCommand.php:392-504 | the loop over the columns, stopping at the first column that throws, returns MapAll |
| AddressMapping.FoldErrIff | Console/Command/CustomerAddressImportCommand.php:413-501 | the loop throws exactly when one of the columns it reached throws |
| AddressMapping.MapAllErrIff | Console/Command/CustomerAddressImportCommand.php:413-501 | `mapData` throws exactly when some column throws |
| AddressMapping.EffectFails | Console/Command/CustomerAddressImportCommand.php:454-495 | a column throws exactly when it is a region of "--", a US region the directory lacks, or a country label the option list does not yield |
| AddressMapping.Shape | Console/Command/CustomerAddressImportCommand.php:394-501 | the 13 initial attributes keep their places at the head, no attribute appears twice, and every other attribute is the name of a column |
| AddressMapping.LastWriter | Console/Command/CustomerAddressImportCommand.php:413-501 | an attribute holds what the last column writing it made of it |
| AddressMapping.NoWriter | Console/Command/CustomerAddressImportCommand.php:394-408 | an attribute no column writes keeps its initial value: null for the 13, absent otherwise |
| AddressMapping.NameField | Console/Command/CustomerAddressImportCommand.php:415-421 | firstname, middlename, lastname, company and city are the column's text passed through `ucwords` |
| AddressMapping.PassThrough | Console/Command/CustomerAddressImportCommand.php:497-499 | an unrecognised column is copied unchanged under its own name |
| AddressMapping.TelephoneField | Console/Command/CustomerAddressImportCommand.php:483-490 | the telephone is the last phone column's text, or "000-000-0000" when that text is empty |
| AddressMapping.NoTelephone | Console/Command/CustomerAddressImportCommand.php:405 | without a phone column the telephone stays null |
| AddressMapping.PostcodeField | Console/Command/CustomerAddressImportCommand.php:441-450 | the postcode is the last non-empty postcode or zip column, formatted with `%'.05d` when the lower-cased country is a US value |
| AddressMapping.NoPostcode | Console/Command/CustomerAddressImportCommand.php:443 | when every postcode and zip column is empty, the postcode stays null |
| AddressMapping.UsZipPadded | Console/Command/CustomerAddressImportCommand.php:445 | a US zip of one to five digits becomes exactly five digits, "501" stored as "00501" |
| AddressMapping.UsZipSaturates | Console/Command/CustomerAddressImportCommand.php:443-446 | a US zip whose number exceeds PHP_INT_MAX but is within a double's range is stored as the 19 digits of PHP_INT_MAX |
| AddressMapping.UsZipOverflowsDouble | Console/Command/CustomerAddressImportCommand.php:443-446 | a US zip whose number is beyond a double's range is stored as "00000" |
| AddressMapping.ZipPlusFour | Console/Command/CustomerAddressImportCommand.php:445 | a ZIP+4 code keeps only its first five digits |
| AddressMapping.RegionField | Console/Command/CustomerAddressImportCommand.php:452-481 | the region is the directory's name for a US row and the text through `ucwords` otherwise, decided by the last region or state column |
| AddressMapping.UsRegionIdField | Console/Command/CustomerAddressImportCommand.php:471-473 | for a US row the region id is the directory region's id (never 0), unless a later region_id column overwrites it |
| AddressMapping.NonUsRegionId | Console/Command/CustomerAddressImportCommand.php:477-479 | outside the US the region id stays null unless a region_id column sets it |
| AddressMapping.CountryField | Console/Command/CustomerAddressImportCommand.php:492-495 | the country id is the code of the option-list entry labelled with the column's text, never the first entry |
| AddressMapping.Address1Replaces | Console/Command/CustomerAddressImportCommand.php:423-425 | an address1 column replaces the whole street, losing lines written before it |
| AddressMapping.StreetLine | Console/Command/CustomerAddressImportCommand.php:423-439 | address1 sets the street; a non-empty address2 appends a new line; a non-empty address3 or suite appends after a space |
| AddressMapping.StreetField | Console/Command/CustomerAddressImportCommand.php:423-439 | the formatted street is the street the columns build one after another |
| AddressMapping.StreetLines | Console/Command/CustomerAddressImportCommand.php:423-439 | address1, address2 and address3 in order give the first line, a line break, then the second line with the third after a space |
| AddressMapping.UsaMixedCase | Console/Command/CustomerAddressImportCommand.php:444-457 | a row whose country is "Usa" gets its zip padded (the check lower-cases) but its region as plain text (the check does not) |
| RowLoop.FileRow | Console/Command/CustomerAddressImportCommand.php:264-313 | filing one row's outcome gives the buckets that Record specifies |
| RowLoop.RunStep | Console/Command/CustomerAddressImportCommand.php:239-314 | one more row files its outcome onto the buckets of the rows before it |
| RowLoop.ExistingBucket | Console/Command/CustomerAddressImportCommand.php:264-265 | a row is in the existing array, under its index and with its combined columns, exactly when it was counted as existing |
| RowLoop.ExistingKeys | Console/Command/CustomerAddressImportCommand.php:265 | the existing array has no key besides row indexes |
| RowLoop.ErrorBucket | Console/Command/CustomerAddressImportCommand.php:302-313 | a key is in the error array exactly when some row was filed there under it |
| RowLoop.ErrorRow | Console/Command/CustomerAddressImportCommand.php:302-313 | for a body that never uses another row's index, a row is under its index in the error array exactly when its own outcome put it there |
| RowLoop.SkippedUncounted | Console/Command/CustomerAddressImportCommand.php:247-252 | for such a body, a skipped row is in neither array |
| RowLoop.CreatedGrows | Console/Command/CustomerAddressImportCommand.php:300 | the entities the first m rows save are the first ones the first n rows save |
| RowLoop.CreatedList | Console/Command/CustomerAddressImportCommand.php:300 | the run saves exactly the entities of the rows whose outcome saved one |
| RowLoop.ExistingMapIn | Console/Command/CustomerImportCommand.php:213-221 | the list holds f of exactly the rows counted as existing |
| RowLoop.SavedBefore | Console/Command/CustomerAddressImportCommand.php:300 | the entity saved by a row is in the store every later row sees |
| AddressImport.FirstAddress | Console/Command/CustomerAddressImportCommand.php:520-531 | the first stored address of the customer that matches on the natural key, or none when no address matches |
| AddressImport.AddressExists | Console/Command/CustomerAddressImportCommand.php:513-539 | true exactly when a stored address of the customer agrees on firstname, lastname, street, city, region, postcode and country_id |
| AddressImport.ExistsIgnoresOtherFields | Console/Command/CustomerAddressImportCommand.php:520-529 | the telephone and every attribute outside the natural key play no part in the check |
| AddressImport.SetPrefixCopies | Console/Command/CustomerAddressImportCommand.php:277-279 | setting the pairs of a formatted address on an empty model reproduces the address |
| AddressImport.CopySetGet | Console/Command/CustomerAddressImportCommand.php:284-295 | the `isset`-guarded copy loop sets a listed attribute that the address sets, and leaves every other attribute alone |
| AddressImport.AddressRecord | Console/Command/CustomerAddressImportCommand.php:277-295 | the address model a saving row builds; AddressRecordGet and RecordRequired state its attributes |
| AddressImport.SaveErrorKey | Console/Command/CustomerAddressImportCommand.php:277-310 | the key a failing save is filed under; SaveFailureKey states that it is an attribute name |
| AddressImport.AddressRecordGet | Console/Command/CustomerAddressImportCommand.php:277-295 | the saved model has `is_active` true and `parent_id` the customer's id, unless a custom attribute overrides them; every other attribute is as formatted |
| AddressImport.RecordRequired | Console/Command/CustomerAddressImportCommand.php:267-295 | the saved model has the formatted address's eight required attributes |
| AddressImport.BuildAddress | Console/Command/CustomerAddressImportCommand.php:277-295 | the three `setData` loops build AddressRecord, and leave `$key` holding the last attribute name (the row's key if there is none) |
| AddressImport.RowOutcome | Console/Command/CustomerAddressImportCommand.php:240-313 | the outcome of one address row; CreatedAddress, FailedKey and ErrorAndSkippedRows state its cases |
| AddressImport.ReconcileOutcome | Console/Command/CustomerAddressImportCommand.php:258-304 | the outcome once the customer is found and the address formatted; SavedThenExisting and CreatedAddress state its cases |
| AddressImport.ImportRow | Console/Command/CustomerAddressImportCommand.php:240-313 | the loop body returns RowOutcome |
| AddressImport.Reconcile | Console/Command/CustomerAddressImportCommand.php:258-304 | the exists check, the gate and the save return ReconcileOutcome |
| AddressImport.Execute | Console/Command/CustomerAddressImportCommand.php:234-314 | the loop's arrays and saved addresses are Run over all rows, and the store is the stored addresses plus those saved |
| AddressImport.CreatedAddress | Console/Command/CustomerAddressImportCommand.php:240-300 | a saved address belongs to a customer found by the search, was absent from the store, passed the gate, and holds the formatted natural key and the customer's id |
| AddressImport.SavedThenExisting | Console/Command/CustomerAddressImportCommand.php:258-265 | a row whose saved address is in the store is an existing address when it comes again |
| AddressImport.SaveFailureKey | Console/Command/CustomerAddressImportCommand.php:277-310 | a failing save files the row under an attribute name (the reused `$key`), never under its index |
| AddressImport.FailedKey | Console/Command/CustomerAddressImportCommand.php:302-310 | a failed row is filed under its own index or under an attribute name |
| AddressImport.OutcomeOfRow | Console/Command/CustomerAddressImportCommand.php:239-314 | a row's outcome in the run is the body against the stored addresses plus those the earlier rows saved |
| AddressImport.AddressFailsUnderOwnIndex | Console/Command/CustomerAddressImportCommand.php:302-310 | the address body never files a row under another row's index |
| AddressImport.ErrorAndSkippedRows | Console/Command/CustomerAddressImportCommand.php:243-313 | a row is under its index in the error array exactly when it failed before the save, and a skipped row is in neither array |
| AddressImport.RepeatedRow | Console/Command/CustomerAddressImportCommand.php:258-265 | a later row equal to a row that was saved is an existing address |
| AddressImport.RerunFindsSaved | Console/Command/CustomerAddressImportCommand.php:258-265 | rerunning the import over the addresses the first run saved finds each of them as an existing address |
| CardImport.MaskCardNumber | Console/Command/CustomerCardImportCommand.php:392 | the masked number is the first two characters, twelve x's, then the third and fourth, so only the first four characters show |
| CardImport.MaskSixteen | Console/Command/CustomerCardImportCommand.php:392 | "4111111111111111" is stored as "41xxxxxxxxxxxx11" |
| CardImport.MaskLength | Console/Command/CustomerCardImportCommand.php:392 | any number of at least four characters is masked to sixteen |
| CardImport.FormattedCard | Console/Command/CustomerCardImportCommand.php:375-381 | the formatted card has exactly the five card attributes, in order, each its column's value |
| CardImport.CardStepIsPut | Console/Command/CustomerCardImportCommand.php:384-394 | the switch assigns a card attribute the value its column gives and ignores any other column |
| CardImport.CardStepPrefix | Console/Command/CustomerCardImportCommand.php:383-395 | each column takes the formatted card of the columns before it to that of the columns up to it |
| CardImport.MapData | Console/Command/CustomerCardImportCommand.php:373-397 | the loop over the columns returns FormattedCard |
| CardImport.CardShape | Console/Command/CustomerCardImportCommand.php:373-397 | a card attribute is set exactly when the row has its column, holding the column's text (the number masked); every other column is dropped |
| CardImport.ExpiryDate | Console/Command/CustomerCardImportCommand.php:252 | the date's leading `%02d` part reads back as the month's integer, and the rest is characters 2-3 of the year |
| CardImport.OneDigitMonth | Console/Command/CustomerCardImportCommand.php:252 | a one-digit month is written with a leading zero, followed by the third and fourth characters of the year |
| CardImport.MonthOverflowsDouble | Console/Command/CustomerCardImportCommand.php:252 | a month whose number is beyond a double's range is written "00", followed by the third and fourth characters of the year |
| CardImport.ExpiryLength | Console/Command/CustomerCardImportCommand.php:252 | a month of one or two digits and a four-digit year give a four-character date |
| CardImport.NewToken | Console/Command/CustomerCardImportCommand.php:255-271 | the token has the customer-id column's value, method code "tns", type "card", the card token as gateway token, the brand, the masked number and the expiry date as details, and is active and visible |
| CardImport.CheckIfStoredCardExists | Console/Command/CustomerCardImportCommand.php:406-413 | no stored card is ever found |
| CardImport.CompleteIff | Console/Command/CustomerCardImportCommand.php:241-246 | the gate passes exactly when all five card columns are present, whatever their text |
| CardImport.RowOutcome | Console/Command/CustomerCardImportCommand.php:216-296 | the outcome of one card row; CreatedIff, RowNeverExisting and CreatedToken state its cases |
| CardImport.ImportRow | Console/Command/CustomerCardImportCommand.php:216-296 | the loop body returns RowOutcome |
| CardImport.Execute | Console/Command/CustomerCardImportCommand.php:209-297 | the loop's arrays and saved tokens are Run over all rows |
| CardImport.RowNeverExisting | Console/Command/CustomerCardImportCommand.php:232-236 | a row is never an existing card: it is skipped, saved, or filed under its own index |
| CardImport.CreatedIff | Console/Command/CustomerCardImportCommand.php:217-274 | a token is saved exactly when the customer-id and CARDTOKEN columns are present, the search finds a customer, the five card columns are present and the save succeeds |
| CardImport.CreatedToken | Console/Command/CustomerCardImportCommand.php:249-271 | a saved token carries the id column's value, the card token, the brand, the masked number and the formatted expiry date |
| CardImport.NoExistingCards | Console/Command/CustomerCardImportCommand.php:212-236 | the existing-cards array of a run is always empty |
| CardImport.SavedOrError | Console/Command/CustomerCardImportCommand.php:215-297 | every row not skipped is saved or filed under its index, and a skipped row is in neither array |
| CustomerImport.ConfigOf | Console/Command/CustomerImportCommand.php:171-189 | the flags are truthy values with fallbacks true (passwords) and false (welcome email); the custom attributes are the comma-separated pieces of the option; website and store default to 1 |
| CustomerImport.PasswordFlagDefaults | Console/Command/CustomerImportCommand.php:171-175 | left out, `--generate-passwords` reads its declared default `false` and is off; given without a value it is null and falls back to on |
| CustomerImport.FindStored | Console/Command/CustomerImportCommand.php:307-318 | the first stored customer of the website with this email and a non-zero id, or none |
| CustomerImport.FindCreated | Console/Command/CustomerImportCommand.php:307-318 | the first customer saved earlier in the run with this email and website, or none |
| CustomerImport.CheckIfCustomerExists | Console/Command/CustomerImportCommand.php:307-318 | true exactly when a customer of the website has this email, stored before the run or saved by it |
| CustomerImport.TextOrNull | Console/Command/CustomerImportCommand.php:229-231 | a present column gives its text and an absent one null |
| CustomerImport.NullUnlessText | Console/Command/CustomerImportCommand.php:225-226 | null exactly when the column is absent or holds "NULL"; otherwise its text |
| CustomerImport.CoreAttributes | Console/Command/CustomerImportCommand.php:228-235 | what the eight `setData` calls leave; CoreGet and CoreNames state its attributes |
| CustomerImport.NewCustomerOf | Console/Command/CustomerImportCommand.php:225-263 | the new customer a row builds; NewCustomerGet, KeepsCore and NewCustomerPassword state it |
| CustomerImport.HasRequired | Console/Command/CustomerImportCommand.php:223 | the gate on the email, first-name and last-name columns; CreatedIff states its part in saving |
| CustomerImport.CoreGet | Console/Command/CustomerImportCommand.php:228-235 | each of the eight core attributes holds its value: the email lower-cased, first and last name, middle name and old id unless "NULL", active, the website and the store |
| CustomerImport.CoreNames | Console/Command/CustomerImportCommand.php:228-235 | the eight core attributes are distinct and set in this order |
| CustomerImport.CopyColumnsGet | Console/Command/CustomerImportCommand.php:237-248 | the guarded copy loop sets a listed attribute the row sets (and not to "NULL" for custom attributes) and leaves every other attribute alone |
| CustomerImport.NewCustomerGet | Console/Command/CustomerImportCommand.php:228-248 | a custom attribute the row sets, not to "NULL", wins; otherwise an optional column the row has wins; otherwise the core attribute stands |
| CustomerImport.CoreFields | Console/Command/CustomerImportCommand.php:228-235 | the values of the email, names, is_active, website_id and store_id on the new customer |
| CustomerImport.KeepsCore | Console/Command/CustomerImportCommand.php:228-248 | an attribute that is neither custom nor optional keeps its core value |
| CustomerImport.PasswordOf | Console/Command/CustomerImportCommand.php:250-260 | the password branch; NewCustomerPassword states it |
| CustomerImport.NewCustomerPassword | Console/Command/CustomerImportCommand.php:250-260 | the password is random when generation is on, else the row's password if present, else none; a row's `wcsid` becomes the entity id |
| CustomerImport.PutStep | Console/Command/CustomerImportCommand.php:228-235 | setting the next pair of an array without repeated keys onto its prefix extends the prefix |
| CustomerImport.CorePuts | Console/Command/CustomerImportCommand.php:228-235 | on a fresh model, each of the eight `setData` calls appends its pair |
| CustomerImport.SetCoreData | Console/Command/CustomerImportCommand.php:228-235 | the eight `setData` calls on a fresh model leave exactly the core attributes, in order |
| CustomerImport.CopyLoop | Console/Command/CustomerImportCommand.php:237-248 | each of the two copy loops computes the guarded copy of its attribute list |
| CustomerImport.BuildCustomer | Console/Command/CustomerImportCommand.php:225-260 | the `setData` calls, the two copy loops, the password and the id give NewCustomerOf |
| CustomerImport.PatchOf | Console/Command/CustomerImportCommand.php:216-220 | the patch looks the customer up by the row's email in the website and sets `old_customer_id` to the row's text as it is, null when absent |
| CustomerImport.RowOutcome | Console/Command/CustomerImportCommand.php:206-279 | the outcome of one customer row; ExistingIff, CreatedIff and RowFiledUnderIndex state its cases |
| CustomerImport.ImportRow | Console/Command/CustomerImportCommand.php:206-279 | the loop body returns RowOutcome, and a patch exactly when the row is an existing customer, namely PatchOf |
| CustomerImport.OutcomeOfRow | Console/Command/CustomerImportCommand.php:205-280 | a row's outcome in the run is the body against the customers the earlier rows saved |
| CustomerImport.Execute | Console/Command/CustomerImportCommand.php:200-280 | the loop's arrays and saved customers are Run over all rows, and the patches are those of the existing rows, in order |
| CustomerImport.ExistingIff | Console/Command/CustomerImportCommand.php:211-221 | a row is an existing customer exactly when it has an email and the check finds a customer with it; it is an error as well when the patch cannot be saved |
| CustomerImport.CreatedIff | Console/Command/CustomerImportCommand.php:211-270 | a customer is saved exactly when the row has an email no customer has, has a first and a last name, and the save succeeds; it is an error as well when the welcome email then throws |
| CustomerImport.CreatedItem | Console/Command/CustomerImportCommand.php:223-263 | the customer a row saves is the one built from its columns |
| CustomerImport.CreatedFoundByEmail | Console/Command/CustomerImportCommand.php:307-318 | a customer built from a lower-case email is found by that email in its website, unless a custom attribute overrides the email or the website |
| CustomerImport.RowFiledUnderIndex | Console/Command/CustomerImportCommand.php:211-279 | every failing row is filed under its own index, and no row is skipped |
| CustomerImport.EveryRowCounted | Console/Command/CustomerImportCommand.php:205-280 | every row is counted as existing, filed as an error, or saved |
| CustomerImport.PatchesOfExisting | Console/Command/CustomerImportCommand.php:213-221 | the patches are those of exactly the rows counted as existing |
| CustomerImport.NullTextPaths | Console/Command/CustomerImportCommand.php:218-226 | an existing customer is patched with the text "NULL", while a new customer gets a null `old_customer_id` |
| CustomerImport.RepeatedEmail | Console/Command/CustomerImportCommand.php:211-228 | a later row with the same lower-case email as a saved row is an existing customer |
| SendEmail.SettingsOf | Console/Command/CustomerSendEmailCommand.php:139-167 | test mode and dry run are truthy option values, false when null; the website and store default to 1, the test address to the command's own |
| SendEmail.ActionFor | Console/Command/CustomerSendEmailCommand.php:264-291 | the type is valid exactly when it is one of the five the help text lists; new-account types carry the type and the store; any other type, null included, throws the unrecognised-type message |
| SendEmail.ActionTemplates | Console/Command/CustomerSendEmailCommand.php:264-287 | the three account types select the new-account template, "password-remind" the reminder, "password-reset" the reset confirmation |
| SendEmail.CustomerModel.constructor | Console/Command/CustomerSendEmailCommand.php:186-194 | a loaded customer model with its id, website and email |
| SendEmail.CustomerModel.SetEmail | Console/Command/CustomerSendEmailCommand.php:261 | `setEmail` replaces the model's email |
| SendEmail.DispatchOutcome | Console/Command/CustomerSendEmailCommand.php:264-291 | an unrecognised type throws; otherwise the action goes to the recipient, sent exactly when this is not a dry run; a send fails only when it is really sent |
| SendEmail.DryRunSendsNothing | Console/Command/CustomerSendEmailCommand.php:264-291 | a dry run sends nothing, yet still fails on an unrecognised type |
| SendEmail.DispatchEmail | Console/Command/CustomerSendEmailCommand.php:251-292 | in test mode the model's email becomes the test address before dispatch; the result is DispatchOutcome to the model's email |
| SendEmail.TestModeRecipient | Console/Command/CustomerSendEmailCommand.php:260-262 | in test mode every delivery goes to the test address, otherwise to the customer's email |
| SendEmail.TestModeIgnoresEmail | Console/Command/CustomerSendEmailCommand.php:260-262 | in test mode the customer's own email plays no part in the attempt |
| SendEmail.SendEmailToCustomer | Console/Command/CustomerSendEmailCommand.php:216-236 | never throws: the attempt records the dispatch's result or exception |
| SendEmail.FindById | Console/Command/CustomerSendEmailCommand.php:186 | the first customer with this id, or none |
| SendEmail.WebsiteCustomers | Console/Command/CustomerSendEmailCommand.php:194-195 | the positions of the website's customers, each exactly once, in order |
| SendEmail.Selected | Console/Command/CustomerSendEmailCommand.php:184-200 | with a customer id, that one customer if it exists (id not 0) in the website, else the not-found exception; without one, every customer of the website |
| SendEmail.ModelsAt | Console/Command/CustomerSendEmailCommand.php:194-199 | the customer models at the selected positions, all from the collection |
| SendEmail.SendAll | Console/Command/CustomerSendEmailCommand.php:197-199 | one attempt per selected customer, in order, each computed on the email the customer had before; only test mode changes emails, to the test address |
| SendEmail.Targets | Console/Command/CustomerSendEmailCommand.php:184-200 | the selected customer models, all from the collection |
| SendEmail.Execute | Console/Command/CustomerSendEmailCommand.php:184-200 | a failed selection throws before sending; otherwise each selected customer gets one attempt, in order, and one failure does not stop the loop; only test mode changes emails, to the test address |
| SendEmail.UnknownTypeFailsEach | Console/Command/CustomerSendEmailCommand.php:288-289 | with an unrecognised type every customer's attempt fails with that message, dry run or not |

## Left out

- Reading the CSV file, the log file, the console output and the `--info` screen: they are I/O. The rows reach the model as sequences of strings.
- A CSV row whose field count differs from the header's: `array_combine` then fails, and the model takes equal lengths as a precondition (`RowsFit`).
- The Magento ORM is modelled by its visible effect only. Customers, addresses and tokens are values in sequences. A query is a search of those values with exact string and value equality.
- MySQL's case-insensitive email collation is not modelled: a row with an upper-case email is not found again by the exact-equality check. CustomerImport.RepeatedEmail therefore requires a lower-case email.
- The SQL meaning of NULL in the address query filters: null matches null in the model.
- Exceptions from a save, a welcome email or a mail send are not modelled as causes. They are inputs: the sets of row indexes or customer ids whose call throws.
- The random password, the public hash (`md5(rand(...))`), the token's expiry date from the clock, and `json_encode` of the token details. The password is the constructor `RandomPassword`. The details are a datatype, not JSON text. The hash and the expiry date are left out.
- The card import's second `else if` (`CustomerCardImportCommand.php:227-229`) repeats the first condition and can never run. The model has no branch for it.
- Row keys are the row's position. A formatted-address attribute name is a separate kind of key (`Key.Name`), so a numeric attribute name never collides with a row index.
- A `wcsid` that equals an existing customer id: the model records it as the entity id, but does not model the save then updating that customer.
- The order of entries in the existing and error arrays: they are maps from keys to rows, and only membership and values are modelled.
- The welcome email and the send-email mails themselves: the model records which template would be sent, to whom, and whether the call threw.
- The customer collection's `entity_id` attribute and the entity id are separate fields of `CustomerLookup.Customer`. The predicate `CustomerLookup.EntityIdConsistent` states how they agree in Magento, but the lookup does not require it.
- An unknown attribute name in `find-customer-by-attribute`: Magento's collection throws, which would make the row an error. The model reads an attribute a customer lacks as "no match", so the row is skipped.
- The address import's custom attributes: the address command declares no option for them, so `getCustomAttributes()` is always empty there. The model keeps the list as a parameter, and the `"parent_id" !in cfg.customAttributes` premise of `AddressImport.RepeatedRow` and `AddressImport.RerunFindsSaved` always holds for a command-line run.
- PHP's loose `==` is modelled as exact string equality. This covers `array_search` at `CustomerAddressImportCommand.php:575`, `in_array` at `:444` and `:457`, the `$value == '--'` test at `:454`, and the `switch` statements at `CustomerAddressImportCommand.php:414`, `CustomerCardImportCommand.php:384` and `CustomerSendEmailCommand.php:264`. Loose equality also treats two numeric strings as equal when their numbers are equal (`"1e1" == "10"`); the model does not.
- `CustomerImportCommand.php:223` tests `isset($customerData['email'])` again. The email was already read at line 211, where a missing email throws, so the email test in `CustomerImport.HasRequired` always passes on the path that reaches it.
- `sprintf` conversion of strings with an exponent: "1e3" reads as 1000 in PHP, while IntVal reads only the sign and the leading digits, giving 1.
- SendEmail.Selected: the id options (website-id, store-id, customer-id, in every command) are modelled as natural numbers. Text that is not a canonical decimal, such as an empty, non-numeric or zero-padded value, is not modelled. For example `--customer-id=abc` makes the source throw the not-found exception at Console/Command/CustomerSendEmailCommand.php:188-191, and the model has no such input.
- Php.IntVal: the boundary of a double's range is taken as 2^1024 - 2^970, the least magnitude that a correctly rounded decimal-to-double conversion makes infinite; the double conversion itself is not modelled.
- Non-ASCII text: `strtolower` and `ucwords` are modelled on ASCII letters only.
- The `appState` area-code setup at the start of each `execute`: it has no visible effect on the data.
- The send-email test mode sets the email on the in-memory model only. That model is never saved, so the stored customers keep their emails; the model's objects are those in-memory models.
