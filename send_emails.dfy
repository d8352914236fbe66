/**
 * The contact-form server action `sendContactEmail`: honeypot check,
 * validation, error aggregation, configuration check, composition and the
 * send, each failure ending the invocation with a `ContactState`.
 *
 * The process environment is an `Env` record, zod's email grammar is the
 * parameter `validEmail`, and the mail relay is an oracle saying whether a
 * given mail is accepted.
 */
module SendEmails {
  import opened Wrappers
  import opened JsStrings
  import opened ContactSchema
  import opened ErrorMap
  import opened DeliveryConfig
  import opened Compose
  import opened Reports
  import opened Mailer

  /** What the action returns to the form: a flag, a display message and, on validation failure, the per-field errors. */
  datatype ContactState = ContactState(ok: bool, message: string, errors: Option<map<string, IssueMessage>>)

  const DecoyText: string := "Thank you! We will be in touch shortly."
  const FixErrorsText: string := "Please fix the highlighted errors."
  const NotConfiguredText: string := "Email is not configured. Please set GMAIL_USER, GMAIL_APP_PASSWORD, and optionally CONTACT_TO in your project environment variables."
  const SentText: string := "Thanks! Your message has been sent. We\U{2019}ll get back to you shortly."
  const FailureText: string := "Something went wrong. Please try again later."

  const Decoy: ContactState := ContactState(true, DecoyText, None)
  const NotConfigured: ContactState := ContactState(false, NotConfiguredText, None)
  const Sent: ContactState := ContactState(true, SentText, None)
  const Failed: ContactState := ContactState(false, FailureText, None)

  /** The submitted form: each field as `FormData.get` returns it. */
  datatype FormData = FormData(
    firstName: FieldValue, lastName: FieldValue, email: FieldValue,
    message: FieldValue, plan: FieldValue, hp: FieldValue)

  /** One invocation: the state returned and the mails handed to the transport, in order. */
  datatype Outcome = Outcome(state: ContactState, sent: seq<Mail>)

  /**
   * `(formData.get('hp') as string) || ''`. A `File` is kept as it is and
   * `hp.trim()` then throws, which `None` stands for.
   */
  function HoneypotString(v: FieldValue): (r: Option<string>)
    ensures r.None? <==> v.Upload?
    ensures v.Text? ==> r == Some(v.s)
    ensures v.Missing? ==> r == Some("")
  {
    match v
    case Missing => Some("")
    case Text(s) => Some(s)
    case Upload => None
  }

  /** The object the action passes to `schema.safeParse`. */
  function ParseInputOf(form: FormData, hp: string): ParseInput {
    ParseInput(form.firstName, form.lastName, form.email, form.message, form.plan, hp)
  }

  /** The honeypot holds a string with a character `trim` would keep. */
  predicate HoneypotTripped(form: FormData) {
    form.hp.Text? && !AllWhitespace(form.hp.s)
  }

  /** The honeypot is absent or holds only whitespace. */
  predicate HoneypotBlank(form: FormData) {
    form.hp.Missing? || (form.hp.Text? && AllWhitespace(form.hp.s))
  }

  predicate FormFieldsValid(form: FormData, validEmail: string -> bool) {
    FieldsValid(ParseInputOf(form, ""), validEmail)
  }

  function FormFailingFields(form: FormData, validEmail: string -> bool): set<string> {
    FailingFields(ParseInputOf(form, ""), validEmail)
  }

  /** `parsed.data` of a form whose fields are valid. */
  function SubmissionOf(form: FormData): Submission
    requires form.firstName.Text? && form.lastName.Text? && form.email.Text? && form.message.Text? && form.plan.Text?
  {
    Submission(form.firstName.s, form.lastName.s, form.email.s, form.message.s, form.plan.s)
  }

  /**
   * The whole action as a value. Every input ends in a `ContactState`; at
   * most one mail is handed over, and only for a valid, configured
   * submission whose honeypot is blank; errors are reported only by the
   * validation path, and no failure message carries internal detail.
   */
  function Submit(form: FormData, env: Env, validEmail: string -> bool, deliver: Mail -> bool): (o: Outcome)
    ensures |o.sent| <= 1
    ensures o.state.errors.Some? <==> o.state.message == FixErrorsText
    ensures o.state.errors.Some? ==> !o.state.ok && o.sent == []
    ensures o.state in {Decoy, NotConfigured, Sent, Failed} || o.state == ContactState(false, FixErrorsText, o.state.errors)
    ensures |o.sent| == 1 ==>
      && HoneypotBlank(form) && FormFieldsValid(form, validEmail) && Resolve(env).Some?
      && o.state == (if deliver(o.sent[0]) then Sent else Failed)
    ensures o.state == Sent ==> |o.sent| == 1
  {
    match HoneypotString(form.hp)
    case None => Outcome(Failed, [])
    case Some(hp) =>
      TrimBlankIff(hp);
      if Trim(hp) != "" then Outcome(Decoy, [])
      else
        HoneypotIgnoredByFieldChecks(form, hp, validEmail);
        match SafeParse(ParseInputOf(form, hp), validEmail)
        case Rejected(issues) => Outcome(ContactState(false, FixErrorsText, Some(ErrorsOf(issues))), [])
        case Parsed(data) =>
          match Resolve(env)
          case None => Outcome(NotConfigured, [])
          case Some(cred) =>
            var mail := ComposeMail(data, cred);
            Outcome(if deliver(mail) then Sent else Failed, [mail])
  }

  /** Validation of the form does not depend on what the honeypot held. */
  lemma {:induction false} HoneypotIgnoredByFieldChecks(form: FormData, hp: string, validEmail: string -> bool)
    ensures FieldsValid(ParseInputOf(form, hp), validEmail) <==> FormFieldsValid(form, validEmail)
    ensures FailingFields(ParseInputOf(form, hp), validEmail) == FormFailingFields(form, validEmail)
    ensures forall k :: k in FormFailingFields(form, validEmail) ==>
      FirstFailure(ParseInputOf(form, hp), k, validEmail) == FirstFailure(ParseInputOf(form, ""), k, validEmail)
  {
  }

  /**
   * A honeypot holding anything but whitespace ends the action with the
   * decoy success, and a honeypot holding a file with the generic failure;
   * either way nothing is validated or sent, whatever else was submitted.
   */
  lemma HoneypotShortCircuits(form: FormData, env: Env, validEmail: string -> bool, deliver: Mail -> bool)
    requires !HoneypotBlank(form)
    ensures Submit(form, env, validEmail, deliver) == Outcome(if form.hp.Upload? then Failed else Decoy, [])
  {
  }

  /** A tripped honeypot reports success, with no errors, exactly as a delivered mail does. */
  lemma DecoyLooksLikeSuccess(form: FormData, env: Env, validEmail: string -> bool, deliver: Mail -> bool)
    requires HoneypotTripped(form)
    ensures var o := Submit(form, env, validEmail, deliver);
      o.state.ok && o.state.errors == None && o.sent == [] && o.state.ok == Sent.ok && o.state.errors == Sent.errors
  {
  }

  /** The honeypot string of a form whose honeypot is blank. */
  function BlankHoneypot(form: FormData): string
    requires HoneypotBlank(form)
  {
    HoneypotString(form.hp).value
  }

  /** A blank honeypot and a failing field end the action at the validation step. */
  lemma RejectedAtValidation(form: FormData, env: Env, validEmail: string -> bool, deliver: Mail -> bool)
    requires HoneypotBlank(form) && !FormFieldsValid(form, validEmail)
    ensures Submit(form, env, validEmail, deliver)
      == Outcome(ContactState(false, FixErrorsText, Some(ErrorsOf(Validate(ParseInputOf(form, BlankHoneypot(form)), validEmail)))), [])
  {
  }

  /**
   * With a blank honeypot and some field out of bounds, the action fails
   * with the fix-your-errors message, the error record names exactly the
   * failing fields and holds, for each, the message of its first failed
   * check; nothing is sent.
   */
  lemma InvalidRejected(form: FormData, env: Env, validEmail: string -> bool, deliver: Mail -> bool)
    requires HoneypotBlank(form) && !FormFieldsValid(form, validEmail)
    ensures var o := Submit(form, env, validEmail, deliver);
      && !o.state.ok && o.state.message == FixErrorsText && o.sent == []
      && o.state.errors.Some?
      && o.state.errors.value.Keys == FormFailingFields(form, validEmail)
      && forall k :: k in FormFailingFields(form, validEmail) ==>
           o.state.errors.value[k] == FirstFailure(ParseInputOf(form, ""), k, validEmail)
  {
    var input := ParseInputOf(form, BlankHoneypot(form));
    RejectedAtValidation(form, env, validEmail, deliver);
    HoneypotIgnoredByFieldChecks(form, BlankHoneypot(form), validEmail);
    ErrorRecord(input, validEmail);
  }

  /** The messages the form shows for the common mistakes, each under its own field. */
  lemma ReportedMessages(form: FormData, env: Env, validEmail: string -> bool, deliver: Mail -> bool)
    requires HoneypotBlank(form)
    ensures var errors := Submit(form, env, validEmail, deliver).state.errors;
      && (form.firstName == Text("") ==> errors.Some? && "firstName" in errors.value && errors.value["firstName"] == Custom(FirstNameRequired))
      && (form.lastName == Text("") ==> errors.Some? && "lastName" in errors.value && errors.value["lastName"] == Custom(LastNameRequired))
      && (form.email.Text? && !validEmail(form.email.s) ==> errors.Some? && "email" in errors.value && errors.value["email"] == Custom(EmailInvalid))
      && (form.message.Text? && Utf16Length(form.message.s) < 10 ==> errors.Some? && "message" in errors.value && errors.value["message"] == Custom(MessageTooShort))
  {
    var b := ParseInputOf(form, "");
    if !FormFieldsValid(form, validEmail) {
      InvalidRejected(form, env, validEmail, deliver);
      assert form.firstName == Text("") ==> "firstName" in FailingFields(b, validEmail);
      assert form.lastName == Text("") ==> "lastName" in FailingFields(b, validEmail);
      assert form.email.Text? && !validEmail(form.email.s) ==> "email" in FailingFields(b, validEmail);
      assert form.message.Text? && Utf16Length(form.message.s) < 10 ==> "message" in FailingFields(b, validEmail);
    }
  }

  /**
   * A field that is absent or holds a file is reported with zod's
   * invalid-type message. This includes `plan`: `.optional()` admits only
   * `undefined`, and an absent form field is `null`.
   */
  lemma NonStringFieldRejected(form: FormData, env: Env, validEmail: string -> bool, deliver: Mail -> bool, key: string)
    requires HoneypotBlank(form)
    requires key in {"firstName", "lastName", "email", "message", "plan"}
    requires !ValueOf(ParseInputOf(form, ""), key).Text?
    ensures var o := Submit(form, env, validEmail, deliver);
      && o.sent == [] && o.state.errors.Some? && key in o.state.errors.value
      && o.state.errors.value[key] == LibraryDefault(InvalidType)
  {
    assert key in FormFailingFields(form, validEmail);
    InvalidRejected(form, env, validEmail, deliver);
  }

  /** A valid form with the mail settings missing gets the not-configured message and sends nothing. */
  lemma UnconfiguredRefused(form: FormData, env: Env, validEmail: string -> bool, deliver: Mail -> bool)
    requires HoneypotBlank(form) && FormFieldsValid(form, validEmail)
    requires !IsSet(env.gmailUser) || !IsSet(env.gmailAppPassword)
    ensures Submit(form, env, validEmail, deliver) == Outcome(NotConfigured, [])
  {
  }

  /**
   * A valid, configured submission with a blank honeypot hands exactly one
   * mail to the transport, addressed to `CONTACT_TO` (or the Gmail user),
   * sent from the Gmail user and replying to the submitter; the state says
   * whether the transport accepted it. No other submission sends a mail.
   */
  lemma ConfiguredDelivers(form: FormData, env: Env, validEmail: string -> bool, deliver: Mail -> bool)
    ensures var o := Submit(form, env, validEmail, deliver);
      |o.sent| == 1 <==> HoneypotBlank(form) && FormFieldsValid(form, validEmail) && IsSet(env.gmailUser) && IsSet(env.gmailAppPassword)
    ensures var o := Submit(form, env, validEmail, deliver);
      |o.sent| == 1 ==>
        && o.sent[0].to == (if IsSet(env.contactTo) then env.contactTo.value else env.gmailUser.value)
        && o.sent[0].from == "\"SoftHub Website\" <" + env.gmailUser.value + ">"
        && o.sent[0].replyTo == form.email.s
        && o.sent[0] == ComposeMail(SubmissionOf(form), Resolve(env).value)
        && o.state == (if deliver(o.sent[0]) then Sent else Failed)
  {
    if !HoneypotBlank(form) {
      HoneypotShortCircuits(form, env, validEmail, deliver);
    } else {
      var hp := BlankHoneypot(form);
      TrimBlankIff(hp);
      HoneypotIgnoredByFieldChecks(form, hp, validEmail);
    }
  }

  /** Validation comes before the configuration and the send: a rejected form gets the same answer whatever the environment and the transport. */
  lemma ValidationPrecedesConfig(form: FormData, env1: Env, env2: Env, validEmail: string -> bool, deliver1: Mail -> bool, deliver2: Mail -> bool)
    requires HoneypotBlank(form) && !FormFieldsValid(form, validEmail)
    ensures Submit(form, env1, validEmail, deliver1) == Submit(form, env2, validEmail, deliver2)
  {
  }

  /**
   * The action as the server runs it, step by step: the error record is
   * built by the aggregation loop and the mail goes to the relay. Its answer
   * and the mails it hands over are those of `Submit`, with the relay's
   * verdict taken after everything handed over before.
   */
  method SendContactEmail(form: FormData, env: Env, validEmail: string -> bool, relay: Relay) returns (state: ContactState)
    modifies relay
    ensures var o := Submit(form, env, validEmail, VerdictAfter(relay.accepts, old(relay.handedOver)));
      state == o.state && relay.handedOver == old(relay.handedOver) + o.sent
  {
    ghost var deliver := VerdictAfter(relay.accepts, relay.handedOver);
    var hp: string;
    match HoneypotString(form.hp) {
      case None =>
        // `hp.trim` is not a function on a file: the TypeError is caught.
        assert Submit(form, env, validEmail, deliver) == Outcome(Failed, []);
        return Failed;
      case Some(s) =>
        hp := s;
    }
    TrimBlankIff(hp);
    if Trim(hp) != "" {
      assert Submit(form, env, validEmail, deliver) == Outcome(Decoy, []);
      return Decoy;
    }
    var parsed := SafeParse(ParseInputOf(form, hp), validEmail);
    if parsed.Rejected? {
      var errors := Aggregate(parsed.issues);
      assert Submit(form, env, validEmail, deliver) == Outcome(ContactState(false, FixErrorsText, Some(errors)), []);
      return ContactState(false, FixErrorsText, Some(errors));
    }
    var cred := Resolve(env);
    if cred.None? {
      assert Submit(form, env, validEmail, deliver) == Outcome(NotConfigured, []);
      return NotConfigured;
    }
    var mail := ComposeMail(parsed.data, cred.value);
    assert Submit(form, env, validEmail, deliver) == Outcome(if deliver(mail) then Sent else Failed, [mail]);
    var accepted := relay.SendMail(mail);
    if !accepted {
      // The rejected `sendMail` promise is caught.
      return Failed;
    }
    return Sent;
  }
}
