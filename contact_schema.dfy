/**
 * The zod `schema` of the contact action, as data, and the part of zod's
 * `safeParse` it exercises: `z.object` over six `z.string()` fields, each
 * with its `min`/`max`/`email` checks in declaration order.
 */
module ContactSchema {
  import opened Wrappers
  import opened JsStrings

  /** What `FormData.get` returns for a field name: `null`, a string or a `File`. */
  datatype FieldValue = Missing | Text(s: string) | Upload

  /** The zod issue codes this schema can raise. */
  datatype IssueCode = InvalidType | TooSmall(minimum: nat) | TooBig(maximum: nat) | InvalidEmail

  /**
   * An issue's message: the text the schema gives for that check, or zod's
   * own default for the code, whose wording is the library's and is not
   * modelled (it is never the empty string).
   */
  datatype IssueMessage = Custom(text: string) | LibraryDefault(code: IssueCode)

  /** A zod issue: the path of the offending value and its message. */
  datatype Issue = Issue(path: seq<string>, message: IssueMessage)

  /** One string check, with the message the schema attaches to it, if any. */
  datatype Check = Min(bound: nat, text: Option<string>) | Max(bound: nat, text: Option<string>) | Email(text: Option<string>)

  const FirstNameRequired: string := "First name is required"
  const LastNameRequired: string := "Last name is required"
  const EmailInvalid: string := "A valid email is required"
  const MessageTooShort: string := "Please provide at least 10 characters"

  const FirstNameChecks: seq<Check> := [Min(1, Some(FirstNameRequired)), Max(100, None)]
  const LastNameChecks: seq<Check> := [Min(1, Some(LastNameRequired)), Max(100, None)]
  const EmailChecks: seq<Check> := [Email(Some(EmailInvalid)), Max(200, None)]
  const MessageChecks: seq<Check> := [Min(10, Some(MessageTooShort)), Max(5000, None)]
  const PlanChecks: seq<Check> := [Max(100, None)]
  const HpChecks: seq<Check> := []

  /** The keys of the schema object, which are the only paths its issues carry. */
  const FieldNames: set<string> := {"firstName", "lastName", "email", "message", "plan", "hp"}

  /**
   * The object handed to `safeParse`: five values straight from `FormData.get`
   * and the honeypot, which the action has already turned into a string.
   */
  datatype ParseInput = ParseInput(
    firstName: FieldValue, lastName: FieldValue, email: FieldValue,
    message: FieldValue, plan: FieldValue, hp: string)

  /** `parsed.data` once parsing succeeds. */
  datatype Submission = Submission(firstName: string, lastName: string, email: string, message: string, plan: string)

  datatype ParseResult = Parsed(data: Submission) | Rejected(issues: seq<Issue>)

  /** Whether string `s` passes check `c`; lengths are JavaScript lengths. */
  predicate Passes(c: Check, s: string, validEmail: string -> bool) {
    match c
    case Min(n, _) => Utf16Length(s) >= n
    case Max(n, _) => Utf16Length(s) <= n
    case Email(_) => validEmail(s)
  }

  function MessageFor(text: Option<string>, code: IssueCode): IssueMessage {
    match text
    case Some(t) => Custom(t)
    case None => LibraryDefault(code)
  }

  /** No check of the list carries an empty custom message. */
  predicate NoEmptyText(checks: seq<Check>) {
    forall i :: 0 <= i < |checks| ==> checks[i].text != Some("")
  }

  /** The code of the issue a failing check raises. */
  function CodeOf(c: Check): IssueCode {
    match c
    case Min(n, _) => TooSmall(n)
    case Max(n, _) => TooBig(n)
    case Email(_) => InvalidEmail
  }

  /**
   * The issue, if any, that check `c` raises on the string under `key`:
   * one issue exactly when the check fails, carrying the check's own
   * message or zod's default for its code.
   */
  function CheckIssue(key: string, c: Check, s: string, validEmail: string -> bool): (r: seq<Issue>)
    ensures r == (if Passes(c, s, validEmail) then [] else [Issue([key], MessageFor(c.text, CodeOf(c)))])
  {
    match c
    case Min(n, t) => if Utf16Length(s) < n then [Issue([key], MessageFor(t, TooSmall(n)))] else []
    case Max(n, t) => if Utf16Length(s) > n then [Issue([key], MessageFor(t, TooBig(n)))] else []
    case Email(t) => if !validEmail(s) then [Issue([key], MessageFor(t, InvalidEmail))] else []
  }

  /**
   * The issues of a check list on a string. zod runs every check, so a
   * failing check does not hide the ones after it.
   */
  function ChecksIssues(key: string, checks: seq<Check>, s: string, validEmail: string -> bool): (r: seq<Issue>)
    ensures r == [] <==> forall i :: 0 <= i < |checks| ==> Passes(checks[i], s, validEmail)
    ensures |r| <= |checks|
    ensures forall i :: 0 <= i < |r| ==> r[i].path == [key]
    ensures NoEmptyText(checks) ==> forall i :: 0 <= i < |r| ==> r[i].message != Custom("")
  {
    if checks == [] then []
    else
      var head := CheckIssue(key, checks[0], s, validEmail);
      var rest := ChecksIssues(key, checks[1..], s, validEmail);
      AllPassUncons(checks, s, validEmail);
      NoEmptyTextTail(checks);
      IssuesConcat(key, head, rest);
      head + rest
  }

  /** Every check of a non-empty list passes iff the first one and all the rest do. */
  lemma AllPassUncons(checks: seq<Check>, s: string, validEmail: string -> bool)
    requires checks != []
    ensures (forall i :: 0 <= i < |checks| ==> Passes(checks[i], s, validEmail))
        <==> Passes(checks[0], s, validEmail) && forall i :: 0 <= i < |checks[1..]| ==> Passes(checks[1..][i], s, validEmail)
  {
    assert forall i :: 1 <= i < |checks| ==> checks[1..][i - 1] == checks[i];
  }

  lemma NoEmptyTextTail(checks: seq<Check>)
    requires checks != []
    ensures NoEmptyText(checks) ==> checks[0].text != Some("") && NoEmptyText(checks[1..])
  {
    if NoEmptyText(checks) {
      forall i | 0 <= i < |checks[1..]| ensures checks[1..][i].text != Some("") {
        assert checks[1..][i] == checks[i + 1];
      }
    }
  }

  /** Path and message facts about two issue lists carry over to their concatenation. */
  lemma IssuesConcat(key: string, a: seq<Issue>, b: seq<Issue>)
    ensures (forall i :: 0 <= i < |a| ==> a[i].path == [key]) && (forall i :: 0 <= i < |b| ==> b[i].path == [key])
      ==> forall i :: 0 <= i < |a + b| ==> (a + b)[i].path == [key]
    ensures (forall i :: 0 <= i < |a| ==> a[i].message != Custom("")) && (forall i :: 0 <= i < |b| ==> b[i].message != Custom(""))
      ==> forall i :: 0 <= i < |a + b| ==> (a + b)[i].message != Custom("")
  {
    forall i | |a| <= i < |a + b| ensures (a + b)[i] == b[i - |a|] { }
  }

  /** `z.string()` with checks: anything but a string is one invalid-type issue, and no check runs. */
  function StringIssues(key: string, v: FieldValue, checks: seq<Check>, validEmail: string -> bool): (r: seq<Issue>)
    ensures r == [] <==> v.Text? && forall i :: 0 <= i < |checks| ==> Passes(checks[i], v.s, validEmail)
    ensures !v.Text? ==> r == [Issue([key], LibraryDefault(InvalidType))]
    ensures forall i :: 0 <= i < |r| ==> r[i].path == [key]
    ensures NoEmptyText(checks) ==> forall i :: 0 <= i < |r| ==> r[i].message != Custom("")
  {
    match v
    case Text(s) => ChecksIssues(key, checks, s, validEmail)
    case _ => [Issue([key], LibraryDefault(InvalidType))]
  }

  /** One key of the object schema: its name, the value handed in for it and its string checks. */
  datatype Entry = Entry(key: string, value: FieldValue, checks: seq<Check>)

  /** The value the action hands `safeParse` under schema key `key`. */
  function ValueOf(input: ParseInput, key: string): FieldValue {
    if key == "firstName" then input.firstName
    else if key == "lastName" then input.lastName
    else if key == "email" then input.email
    else if key == "message" then input.message
    else if key == "plan" then input.plan
    else Text(input.hp)
  }

  /** The string checks the schema declares for key `key`. */
  function ChecksOf(key: string): seq<Check> {
    if key == "firstName" then FirstNameChecks
    else if key == "lastName" then LastNameChecks
    else if key == "email" then EmailChecks
    else if key == "message" then MessageChecks
    else if key == "plan" then PlanChecks
    else HpChecks
  }

  /** Schema key `key` with its value from the input and its checks. */
  function EntryFor(input: ParseInput, key: string): Entry {
    Entry(key, ValueOf(input, key), ChecksOf(key))
  }

  /** The schema's keys in declaration order, each with its value from the input. */
  function Entries(input: ParseInput): (es: seq<Entry>)
    ensures |es| == 6
    ensures forall i :: 0 <= i < |es| ==> es[i].key in FieldNames && NoEmptyText(es[i].checks)
    ensures forall i, j :: 0 <= i < j < |es| ==> es[i].key != es[j].key
  {
    [ EntryFor(input, "firstName"), EntryFor(input, "lastName"), EntryFor(input, "email"),
      EntryFor(input, "message"), EntryFor(input, "plan"), EntryFor(input, "hp") ]
  }

  function EntryIssues(e: Entry, validEmail: string -> bool): seq<Issue> {
    StringIssues(e.key, e.value, e.checks, validEmail)
  }

  /** `z.object`: the issues of every key, in the order the schema declares the keys. */
  function ObjectIssues(entries: seq<Entry>, validEmail: string -> bool): seq<Issue> {
    if entries == [] then []
    else EntryIssues(entries[0], validEmail) + ObjectIssues(entries[1..], validEmail)
  }

  /** The object raises no issue exactly when none of its keys does. */
  lemma {:induction false} ObjectEmptyIff(entries: seq<Entry>, validEmail: string -> bool)
    ensures ObjectIssues(entries, validEmail) == [] <==> forall i :: 0 <= i < |entries| ==> EntryIssues(entries[i], validEmail) == []
  {
    if entries != [] {
      ObjectEmptyIff(entries[1..], validEmail);
      assert forall i :: 1 <= i < |entries| ==> entries[1..][i - 1] == entries[i];
    }
  }

  function Validate(input: ParseInput, validEmail: string -> bool): seq<Issue> {
    ObjectIssues(Entries(input), validEmail)
  }

  /** A string value whose JavaScript length lies in `lo..hi`. */
  predicate LengthIn(v: FieldValue, lo: nat, hi: nat) {
    v.Text? && lo <= Utf16Length(v.s) <= hi
  }

  /**
   * The constraints on one field, written out independently of the check
   * lists: names 1..100, email valid and at most 200, message 10..5000,
   * plan at most 100. `.optional()` admits only `undefined`, which
   * `FormData.get` never returns, so an absent plan fails like any other field.
   */
  predicate FieldOk(input: ParseInput, key: string, validEmail: string -> bool) {
    if key == "firstName" then LengthIn(input.firstName, 1, 100)
    else if key == "lastName" then LengthIn(input.lastName, 1, 100)
    else if key == "email" then input.email.Text? && validEmail(input.email.s) && Utf16Length(input.email.s) <= 200
    else if key == "message" then LengthIn(input.message, 10, 5000)
    else if key == "plan" then LengthIn(input.plan, 0, 100)
    else true
  }

  /** The schema fields the input violates. */
  function FailingFields(input: ParseInput, validEmail: string -> bool): set<string> {
    set k | k in FieldNames && !FieldOk(input, k, validEmail)
  }

  /** Every field of the input satisfies its constraints. */
  predicate FieldsValid(input: ParseInput, validEmail: string -> bool) {
    && FieldOk(input, "firstName", validEmail)
    && FieldOk(input, "lastName", validEmail)
    && FieldOk(input, "email", validEmail)
    && FieldOk(input, "message", validEmail)
    && FieldOk(input, "plan", validEmail)
  }

  lemma TwoChecksEmptyIff(key: string, v: FieldValue, c0: Check, c1: Check, validEmail: string -> bool)
    ensures StringIssues(key, v, [c0, c1], validEmail) == []
            <==> v.Text? && Passes(c0, v.s, validEmail) && Passes(c1, v.s, validEmail)
  {
    assert [c0, c1][0] == c0 && [c0, c1][1] == c1;
  }

  /** A two-check list raises the first check's issue, then the second's. */
  lemma TwoChecksIssues(key: string, c0: Check, c1: Check, s: string, validEmail: string -> bool)
    ensures ChecksIssues(key, [c0, c1], s, validEmail) == CheckIssue(key, c0, s, validEmail) + CheckIssue(key, c1, s, validEmail)
  {
  }

  /**
   * A schema key raises no issue exactly when its field meets the bounds
   * written out in `FieldOk`; the honeypot never raises one.
   */
  lemma EntryEmptyIff(input: ParseInput, key: string, validEmail: string -> bool)
    requires key in FieldNames
    ensures EntryIssues(EntryFor(input, key), validEmail) == [] <==> FieldOk(input, key, validEmail)
  {
    if key == "firstName" {
      TwoChecksEmptyIff(key, input.firstName, FirstNameChecks[0], FirstNameChecks[1], validEmail);
    } else if key == "lastName" {
      TwoChecksEmptyIff(key, input.lastName, LastNameChecks[0], LastNameChecks[1], validEmail);
    } else if key == "email" {
      TwoChecksEmptyIff(key, input.email, EmailChecks[0], EmailChecks[1], validEmail);
    } else if key == "message" {
      TwoChecksEmptyIff(key, input.message, MessageChecks[0], MessageChecks[1], validEmail);
    }
  }

  /** The entry at each position raises no issue exactly when its field satisfies its constraints. */
  lemma EntriesEmptyIff(input: ParseInput, validEmail: string -> bool, i: int)
    requires 0 <= i < 6
    ensures EntryIssues(Entries(input)[i], validEmail) == [] <==> FieldOk(input, Entries(input)[i].key, validEmail)
  {
    var es := Entries(input);
    assert es[i] == EntryFor(input, es[i].key);
    EntryEmptyIff(input, es[i].key, validEmail);
  }

  /** Validation raises no issue exactly when every field satisfies its constraints. */
  lemma ValidateEmptyIff(input: ParseInput, validEmail: string -> bool)
    ensures Validate(input, validEmail) == [] <==> FieldsValid(input, validEmail)
  {
    var es := Entries(input);
    ObjectEmptyIff(es, validEmail);
    forall i | 0 <= i < |es|
      ensures EntryIssues(es[i], validEmail) == [] <==> FieldOk(input, es[i].key, validEmail)
    {
      EntriesEmptyIff(input, validEmail, i);
    }
    assert es[0].key == "firstName" && es[1].key == "lastName" && es[2].key == "email";
    assert es[3].key == "message" && es[4].key == "plan" && es[5].key == "hp";
    assert (forall i :: 0 <= i < |es| ==> FieldOk(input, es[i].key, validEmail)) <==> FieldsValid(input, validEmail);
  }

  /** `safeParse`: the submission when every field is valid, otherwise the issues in order. */
  function SafeParse(input: ParseInput, validEmail: string -> bool): (r: ParseResult)
    ensures r.Parsed? <==> FieldsValid(input, validEmail)
    ensures r.Parsed? ==> r.data == Submission(input.firstName.s, input.lastName.s, input.email.s, input.message.s, input.plan.s)
    ensures r.Rejected? ==> r.issues == Validate(input, validEmail) && r.issues != []
  {
    var issues := Validate(input, validEmail);
    ValidateEmptyIff(input, validEmail);
    if issues == [] then
      Parsed(Submission(input.firstName.s, input.lastName.s, input.email.s, input.message.s, input.plan.s))
    else
      Rejected(issues)
  }
}
