/**
 * The send-email command (`customer:email:send`): pick one customer by id, or
 * every customer of a website, and send each one the email template the
 * email type names, with a dry run that only logs and a test mode that
 * redirects every email to one address.
 */
module SendEmail {
  import opened Wrappers
  import opened Php
  import opened Flags

  /** The options as the console hands them to `execute` (see CustomerImport.Options
      for how defaults read). The id options are taken as already parsed
      natural numbers. */
  datatype Options = Options(
    emailType: Option<string>,
    customerId: Option<nat>,
    websiteId: Option<nat>,
    storeId: Option<nat>,
    test: Option<string>,
    testSendTo: Option<string>,
    dryRun: Option<string>)

  /** The settings the command runs with. */
  datatype Settings = Settings(
    emailType: Option<string>,
    customerId: Option<nat>,
    websiteId: nat,
    storeId: nat,
    testMode: bool,
    sendTestEmailsTo: string,
    dryRun: bool)

  const DefaultWebsiteId: nat := 1
  const DefaultStoreId: nat := 1
  const DefaultTestAddress := "josh@augustash.com"

  /** The options to the settings: the test and dry-run flags are `isTruthy` of
      the option when it has a value and false otherwise. */
  function SettingsOf(opts: Options): (s: Settings)
    ensures s.testMode <==> opts.test.Some? && Lower(opts.test.value) in ["true", "yes", "y", "1"]
    ensures s.dryRun <==> opts.dryRun.Some? && Lower(opts.dryRun.value) in ["true", "yes", "y", "1"]
    ensures s.emailType == opts.emailType && s.customerId == opts.customerId
    ensures s.websiteId == opts.websiteId.GetOr(DefaultWebsiteId) && s.storeId == opts.storeId.GetOr(DefaultStoreId)
    ensures s.sendTestEmailsTo == opts.testSendTo.GetOr(DefaultTestAddress)
  {
    Settings(opts.emailType, opts.customerId,
      opts.websiteId.GetOr(DefaultWebsiteId), opts.storeId.GetOr(DefaultStoreId),
      FlagOption(opts.test, false), opts.testSendTo.GetOr(DefaultTestAddress), FlagOption(opts.dryRun, false))
  }

  // ---------------------------------------------------------------------------
  // The email-type switch
  // ---------------------------------------------------------------------------

  /** The customer-model call an email type selects. */
  datatype EmailAction =
    | NewAccountEmail(emailType: string, storeId: nat)   // `sendNewAccountEmail($emailType, '', $storeId)`
    | PasswordReminderEmail                             // `sendPasswordReminderEmail()`
    | PasswordResetConfirmationEmail                    // `sendPasswordResetConfirmationEmail()`

  /** The types the command's help text lists as valid. */
  const DocumentedTypes: seq<string> := ["registered", "confirmed", "confirmation", "password-remind", "password-reset"]

  /** The three types that send the new-account template. */
  const NewAccountTypes: seq<string> := ["registered", "confirmed", "confirmation"]

  /** The message of the exception thrown for an unrecognised type. */
  function UnknownTypeMessage(emailType: Option<string>): string {
    "Unable to send email to customer because of an unrecognized email type: '" + emailType.GetOr("") + "'"
  }

  /** The `switch ($emailType)`: an option that was not given is null and matches
      no case. */
  function ActionFor(emailType: Option<string>, storeId: nat): (r: Result<EmailAction, string>)
    ensures r.Ok? <==> emailType.Some? && emailType.value in DocumentedTypes
    ensures r.Err? ==> r.error == UnknownTypeMessage(emailType)
    ensures r.Ok? && r.value.NewAccountEmail? ==> r.value == NewAccountEmail(emailType.value, storeId)
  {
    if emailType.None? then Err(UnknownTypeMessage(emailType))
    else
      var t := emailType.value;
      if t == "registered" || t == "confirmed" || t == "confirmation" then Ok(NewAccountEmail(t, storeId))
      else if t == "password-remind" then Ok(PasswordReminderEmail)
      else if t == "password-reset" then Ok(PasswordResetConfirmationEmail)
      else Err(UnknownTypeMessage(emailType))
  }

  /** Each documented type selects its own template: the new-account template for
      the first three, carrying the type and the store, and one template each for
      the other two; the type can be read back from the action. */
  lemma ActionTemplates(emailType: string, storeId: nat)
    requires emailType in DocumentedTypes
    ensures var r := ActionFor(Some(emailType), storeId);
      r.Ok? && (r.value.NewAccountEmail? <==> emailType in NewAccountTypes)
      && (r.value == PasswordReminderEmail <==> emailType == "password-remind")
      && (r.value == PasswordResetConfirmationEmail <==> emailType == "password-reset")
  {
  }

  // ---------------------------------------------------------------------------
  // One customer
  // ---------------------------------------------------------------------------

  /** A customer model as the command loads it; test mode changes its email in
      memory (the model is never saved). */
  class CustomerModel {
    const id: nat
    const websiteId: nat
    var email: string

    constructor (id: nat, websiteId: nat, email: string)
      ensures this.id == id && this.websiteId == websiteId && this.email == email
    {
      this.id := id;
      this.websiteId := websiteId;
      this.email := email;
    }

    /** `setEmail($email)`. */
    method SetEmail(email: string)
      modifies this
      ensures this.email == email
    {
      this.email := email;
    }
  }

  /** What one dispatch did: the action selected, the address it went to, and
      whether it was sent (false in a dry run, which only logs). */
  datatype Delivery = Delivery(action: EmailAction, recipient: string, sent: bool)

  /** The message of the exception a send that fails throws. */
  const SendFailure := "the email could not be sent"

  /** What `_sendEmailToCustomer` does for a customer whose email is now
      `recipient`: the action of the type, sent unless this is a dry run; a send
      to a customer in `failingSends` throws. */
  function DispatchOutcome(s: Settings, customerId: nat, recipient: string, failingSends: set<nat>)
    : (r: Result<Delivery, string>)
    ensures ActionFor(s.emailType, s.storeId).Err? ==> r == Err(ActionFor(s.emailType, s.storeId).error)
    ensures r.Ok? ==> r.value.action == ActionFor(s.emailType, s.storeId).value && r.value.recipient == recipient
    ensures r.Ok? ==> (r.value.sent <==> !s.dryRun)
    ensures r.Err? <==> ActionFor(s.emailType, s.storeId).Err? || (!s.dryRun && customerId in failingSends)
  {
    match ActionFor(s.emailType, s.storeId)
    case Err(m) => Err(m)
    case Ok(a) =>
      if s.dryRun then Ok(Delivery(a, recipient, false))
      else if customerId in failingSends then Err(SendFailure)
      else Ok(Delivery(a, recipient, true))
  }

  /** A dry run sends nothing, and an unrecognised type fails whether or not this
      is a dry run. */
  lemma DryRunSendsNothing(s: Settings, customerId: nat, recipient: string, failingSends: set<nat>)
    ensures var r := DispatchOutcome(s, customerId, recipient, failingSends);
      (s.dryRun ==> r.Ok? == ActionFor(s.emailType, s.storeId).Ok? && (r.Ok? ==> !r.value.sent))
      && (s.emailType.None? || s.emailType.value !in DocumentedTypes ==> r.Err?)
  {
  }

  /** `_sendEmailToCustomer`: in test mode the customer's email is overwritten
      first, then the type is dispatched. */
  method DispatchEmail(c: CustomerModel, s: Settings, failingSends: set<nat>) returns (r: Result<Delivery, string>)
    modifies c
    ensures c.email == if s.testMode then s.sendTestEmailsTo else old(c.email)
    ensures r == DispatchOutcome(s, c.id, c.email, failingSends)
  {
    if s.testMode {
      c.SetEmail(s.sendTestEmailsTo);
    }
    var action := ActionFor(s.emailType, s.storeId);
    if action.Err? {
      return Err(action.error);
    }
    if s.dryRun {
      r := Ok(Delivery(action.value, c.email, false));
    } else if c.id in failingSends {
      r := Err(SendFailure);
    } else {
      r := Ok(Delivery(action.value, c.email, true));
    }
  }

  /** What happened for one customer, as `sendEmailToCustomer` leaves it: the
      exception, if any, is caught and only logged. */
  datatype Attempt = Attempt(customerId: nat, outcome: Result<Delivery, string>)

  /** The attempt for a customer whose email, before the command touched it, was
      `email`. */
  function AttemptFor(s: Settings, customerId: nat, email: string, failingSends: set<nat>): Attempt {
    var recipient := if s.testMode then s.sendTestEmailsTo else email;
    Attempt(customerId, DispatchOutcome(s, customerId, recipient, failingSends))
  }

  /** In test mode every delivery goes to the test address, otherwise to the
      customer's own email. */
  lemma TestModeRecipient(s: Settings, customerId: nat, email: string, failingSends: set<nat>)
    ensures var a := AttemptFor(s, customerId, email, failingSends);
      a.outcome.Ok? ==> a.outcome.value.recipient == if s.testMode then s.sendTestEmailsTo else email
  {
  }

  /** In test mode the attempt does not depend on the customer's own email. */
  lemma TestModeIgnoresEmail(s: Settings, customerId: nat, email: string, other: string, failingSends: set<nat>)
    requires s.testMode
    ensures AttemptFor(s, customerId, email, failingSends) == AttemptFor(s, customerId, other, failingSends)
  {
  }

  /** `sendEmailToCustomer`: never throws. */
  method SendEmailToCustomer(c: CustomerModel, s: Settings, failingSends: set<nat>) returns (a: Attempt)
    modifies c
    ensures c.email == if s.testMode then s.sendTestEmailsTo else old(c.email)
    ensures a == AttemptFor(s, c.id, old(c.email), failingSends)
  {
    var r := DispatchEmail(c, s, failingSends);
    a := Attempt(c.id, r);
  }

  // ---------------------------------------------------------------------------
  // Which customers
  // ---------------------------------------------------------------------------

  /** The position of the customer `load($customerId)` finds. */
  function FindById(customers: seq<CustomerModel>, customerId: nat): (r: Option<nat>)
    ensures r.Some? ==> r.value < |customers| && customers[r.value].id == customerId
    ensures r.Some? ==> forall j :: 0 <= j < r.value ==> customers[j].id != customerId
    ensures r.None? ==> forall j :: 0 <= j < |customers| ==> customers[j].id != customerId
    decreases |customers|
  {
    if customers == [] then None
    else if customers[0].id == customerId then Some(0)
    else
      match FindById(customers[1..], customerId)
      case None => None
      case Some(i) => Some(i + 1)
  }

  /** The positions of the website's customers among the first n, in order. */
  function WebsiteCustomers(customers: seq<CustomerModel>, websiteId: nat, n: nat): (r: seq<nat>)
    requires n <= |customers|
    ensures forall k :: 0 <= k < |r| ==> r[k] < n && customers[r[k]].websiteId == websiteId
    ensures forall j :: 0 <= j < n && customers[j].websiteId == websiteId ==> j in r
    ensures forall k, l :: 0 <= k < l < |r| ==> r[k] < r[l]
  {
    if n == 0 then []
    else
      var prev := WebsiteCustomers(customers, websiteId, n - 1);
      if customers[n - 1].websiteId == websiteId then prev + [n - 1] else prev
  }

  /** The message of the exception thrown when the given customer is not found. */
  function NotFoundMessage(customerId: nat, websiteId: nat): string {
    "Unable to find customer by customer ID: " + DigitsOf(customerId) + " within website: " + DigitsOf(websiteId)
  }

  /** The customers `execute` processes: with a customer id, that customer alone,
      if it exists (its id is not 0) and belongs to the website, and otherwise the
      command throws; without one, every customer of the website, in order. */
  function Selected(customers: seq<CustomerModel>, s: Settings): (r: Result<seq<nat>, string>)
    ensures r.Ok? ==> forall k :: 0 <= k < |r.value| ==> r.value[k] < |customers| && customers[r.value[k]].websiteId == s.websiteId
    ensures s.customerId.None? ==> r.Ok? && forall j :: 0 <= j < |customers| ==>
      (j in r.value <==> customers[j].websiteId == s.websiteId)
    ensures s.customerId.Some? ==> (r.Ok? <==>
      s.customerId.value != 0 &&
      exists j :: 0 <= j < |customers| && customers[j].id == s.customerId.value
        && customers[j].websiteId == s.websiteId && forall i :: 0 <= i < j ==> customers[i].id != s.customerId.value)
    ensures s.customerId.Some? && r.Ok? ==> |r.value| == 1 && customers[r.value[0]].id == s.customerId.value
  {
    match s.customerId
    case None => Ok(WebsiteCustomers(customers, s.websiteId, |customers|))
    case Some(id) =>
      var found := FindById(customers, id);
      if id != 0 && found.Some? && customers[found.value].websiteId == s.websiteId then Ok([found.value])
      else Err(NotFoundMessage(id, s.websiteId))
  }

  /** The customer objects at the given positions. */
  function ModelsAt(customers: seq<CustomerModel>, sel: seq<nat>): (t: set<CustomerModel>)
    requires forall k :: 0 <= k < |sel| ==> sel[k] < |customers|
    ensures forall c :: c in t ==> c in customers
  {
    set k | 0 <= k < |sel| :: customers[sel[k]]
  }

  /** The customer objects `execute` hands to `sendEmailToCustomer`: none when
      the selection fails. */
  function Targets(customers: seq<CustomerModel>, s: Settings): (t: set<CustomerModel>)
    ensures forall c :: c in t ==> c in customers
  {
    match Selected(customers, s)
    case Err(_) => {}
    case Ok(sel) => ModelsAt(customers, sel)
  }

  /** The `foreach` of `execute`: one attempt per selected customer, in order; one
      customer's failure does not stop the loop. */
  method SendAll(customers: seq<CustomerModel>, sel: seq<nat>, s: Settings, failingSends: set<nat>)
    returns (attempts: seq<Attempt>)
    requires forall k :: 0 <= k < |sel| ==> sel[k] < |customers|
    modifies ModelsAt(customers, sel)
    ensures |attempts| == |sel|
    ensures forall k :: 0 <= k < |sel| ==>
      attempts[k] == AttemptFor(s, customers[sel[k]].id, old(customers[sel[k]].email), failingSends)
    ensures !s.testMode ==> forall c :: c in customers ==> c.email == old(c.email)
    ensures s.testMode ==> forall k :: 0 <= k < |sel| ==> customers[sel[k]].email == s.sendTestEmailsTo
  {
    attempts := [];
    for k := 0 to |sel|
      invariant |attempts| == k
      invariant forall m :: 0 <= m < k ==>
        attempts[m] == AttemptFor(s, customers[sel[m]].id, old(customers[sel[m]].email), failingSends)
      invariant !s.testMode ==> forall c :: c in customers ==> c.email == old(c.email)
      invariant s.testMode ==> forall m :: 0 <= m < k ==> customers[sel[m]].email == s.sendTestEmailsTo
    {
      var c := customers[sel[k]];
      ghost var prior := c.email;
      var a := SendEmailToCustomer(c, s, failingSends);
      if s.testMode {
        TestModeIgnoresEmail(s, c.id, prior, old(c.email), failingSends);
      }
      attempts := attempts + [a];
    }
  }

  /** `execute`: the selection, then the loop over the selected customers. Only
      their models are touched, and only in test mode, where their email becomes
      the test address. */
  method Execute(customers: seq<CustomerModel>, s: Settings, failingSends: set<nat>)
    returns (r: Result<seq<Attempt>, string>)
    modifies Targets(customers, s)
    ensures Selected(customers, s).Err? ==> r == Err(Selected(customers, s).error)
    ensures Selected(customers, s).Ok? ==> var sel := Selected(customers, s).value;
      r.Ok? && |r.value| == |sel|
      && forall k :: 0 <= k < |sel| ==>
        r.value[k] == AttemptFor(s, customers[sel[k]].id, old(customers[sel[k]].email), failingSends)
    ensures !s.testMode ==> forall c :: c in customers ==> c.email == old(c.email)
    ensures s.testMode ==> forall c :: c in Targets(customers, s) ==> c.email == s.sendTestEmailsTo
  {
    var selected := Selected(customers, s);
    if selected.Err? {
      return Err(selected.error);
    }
    var attempts := SendAll(customers, selected.value, s, failingSends);
    r := Ok(attempts);
  }

  /** With an unrecognised type, every selected customer gets a failed attempt and
      none is skipped, dry run or not. */
  lemma UnknownTypeFailsEach(s: Settings, customerId: nat, email: string, failingSends: set<nat>)
    requires s.emailType.None? || s.emailType.value !in DocumentedTypes
    ensures AttemptFor(s, customerId, email, failingSends).outcome == Err(UnknownTypeMessage(s.emailType))
  {
  }
}
