# SoftHub contact action, modelled in Dafny

This project models `sendContactEmail`, the Next.js server action behind the
SoftHub website's contact form. From the submitted `FormData`, it does the
following, in order:

1. It checks the hidden honeypot field `hp`. A bot that fills it in gets a
   decoy success message.
2. It validates the fields against a zod object schema:
   - first and last name: 1 to 100 characters;
   - email: a valid address, at most 200 characters;
   - message: 10 to 5000 characters;
   - plan: declared `.optional()`, but must be present; at most 100 characters;
   - honeypot: optional.
3. It turns zod's issue list into a per-field error record. The first issue
   for a field wins.
4. It reads the Gmail settings from the environment. `CONTACT_TO` falls back
   to `GMAIL_USER`.
5. It composes the subject, the plain-text body and the HTML body, and hands
   one mail to nodemailer's Gmail transport.
6. It maps every thrown error to one generic failure message.

Each step that ends the invocation returns a `ContactState`: `ok`, `message`
and, on validation failure only, `errors`.

Modules, one per concern:

- `JsStrings` covers the JavaScript string semantics the action relies on:
  - truthiness;
  - `trim`, with the ECMAScript whitespace and line-terminator set;
  - `.length` as UTF-16 code units;
  - substring containment.
- `ContactSchema` covers the schema and `safeParse`:
  - the keys are checked in declaration order;
  - every check of a string runs, none stops the others;
  - a non-string value raises a single invalid-type issue;
  - `.optional()` admits only `undefined`.
- `ErrorMap` is the aggregation loop (`Aggregate`). It is proved against
  its reference fold `ErrorsOf`.
- `Reports` connects the two: the error record names exactly the failing
  fields, each with the message of its first failed check.
- `DeliveryConfig` resolves the environment.
- `Compose` builds the mail.
- `Mailer` models the relay as a class `Relay`:
  - it logs every mail handed to `sendMail`;
  - an oracle `accepts` says whether the relay takes a mail, given the mails
    handed over before.
- `SendEmails` holds the action itself, in two forms:
  - `Submit`, a function of the form, the environment, the email grammar
    and the relay's verdict;
  - `SendContactEmail`, the step-by-step method against a `Relay`. It is
    proved to return what `Submit` returns and to hand over what `Submit`
    sends.

Parameters stand in for the outside world:

- `process.env` is an `Env` record of three optional strings.
- zod's email grammar is the predicate parameter `validEmail`.
- The Gmail relay is the oracle of a `Relay`.

Two behaviours of the code are easy to misread; the model follows the code:

- **An absent `plan` is rejected.** The schema declares
  `plan: z.string().max(100).optional()` (send-emails.ts:11), and
  `.optional()` admits only `undefined`. `formData.get('plan')`
  (send-emails.ts:38) returns `null` for a missing field, so zod reports an
  invalid-type issue under `plan` (`NonStringFieldRejected`). The site's
  contact form can send exactly that. It prefills its plan `<select>` from
  the page URL (nextjs/src/components/sections/contact-client.tsx:11-17),
  and its options are only "", Starter, Professional and Enterprise
  (contact-client.tsx:98-101). Under the HTML standard, setting a select's
  value to a string no option carries leaves no option selected, and such
  a select adds no entry to the form data. So a link such as `?plan=Basic`
  makes `formData.get('plan')` return `null`, and the submission is
  rejected with an issue under `plan`. The form shows errors only for
  first name, last name, email and message (contact-client.tsx:68-111),
  so it has no place to show this one.
- **The decoy is not the real success.** The honeypot branch is meant to
  "silently succeed to mislead bots" (send-emails.ts:29). Its answer shares
  `ok: true` and the absence of `errors` with a real delivery
  (`DecoyLooksLikeSuccess`). Its text, "Thank you! We will be in touch
  shortly." (send-emails.ts:30), differs from the delivery's "Thanks! Your
  message has been sent. We’ll get back to you shortly."
  (send-emails.ts:100), so a bot that reads the message can tell the two
  apart.

## Model

| member | source | states |
|---|---|---|
| JsStrings.TrimStart | nextJs/src/app/actions/send-emails.ts:28 | the result is a suffix of the input; everything dropped is JavaScript whitespace; the result starts with a non-whitespace character or is empty |
| JsStrings.TrimEnd | nextJs/src/app/actions/send-emails.ts:28 | the result is a prefix of the input; everything dropped is JavaScript whitespace; the result ends with a non-whitespace character or is empty |
| JsStrings.TrimBlankIff | nextJs/src/app/actions/send-emails.ts:28 | `hp.trim() !== ''` holds exactly when the honeypot has a character that is not whitespace |
| JsStrings.Trim | nextJs/src/app/actions/send-emails.ts:28 | `hp.trim()` is the piece of the input left between a whitespace-only prefix and a whitespace-only suffix, and it neither starts nor ends with JavaScript whitespace |
| JsStrings.Utf16Length | nextJs/src/app/actions/send-emails.ts:7-11 | `.length` lies between the number of characters and twice that, is 0 only for the empty string, and for one character is that character's code-unit count |
| JsStrings.Utf16LengthConcat | nextJs/src/app/actions/send-emails.ts:7-11 | `.length` of a concatenation is the sum of the parts' lengths |
| JsStrings.AstralCharCountsTwo | nextJs/src/app/actions/send-emails.ts:7-11 | a character outside the Basic Multilingual Plane adds two to `.length` wherever it sits |
| JsStrings.Utf16LengthOfBmp | nextJs/src/app/actions/send-emails.ts:7-11 | on text without astral characters, `.length` is the number of characters |
| ContactSchema.ChecksOf | nextJs/src/app/actions/send-emails.ts:7-12 | definition: the checks each key declares, in order, with the schema's custom messages (`min` for the names and the message, `email` for the email) and none for every `max` |
| ContactSchema.ValueOf | nextJs/src/app/actions/send-emails.ts:33-40 | definition: the value handed to `safeParse` under each key, `FormData.get` for the five fields and the already-read honeypot string for `hp` |
| ContactSchema.CheckIssue | nextJs/src/app/actions/send-emails.ts:7-11 | a check raises one issue exactly when it fails, filed under its key, with the check's own message or zod's default for its code |
| ContactSchema.ChecksIssues | nextJs/src/app/actions/send-emails.ts:7-12 | a string raises no issue exactly when it passes every check; at most one issue per check; every issue is filed under its key; the schema's custom messages are never empty |
| ContactSchema.StringIssues | nextJs/src/app/actions/send-emails.ts:7-12 | `z.string()` raises nothing exactly when the value is a string passing every check; a non-string raises one issue instead of running the checks |
| ContactSchema.Entries | nextJs/src/app/actions/send-emails.ts:6-13 | the six schema keys, distinct, each a declared field name, none with an empty custom message |
| ContactSchema.ObjectIssues | nextJs/src/app/actions/send-emails.ts:6-13 | definition: `z.object` concatenates the issues of its keys in declaration order; its properties are the `Object…` lemmas |
| ContactSchema.Validate | nextJs/src/app/actions/send-emails.ts:33-40 | definition: the issues `safeParse` reports for the object the action builds, i.e. the object fold over the six schema keys |
| ContactSchema.ObjectEmptyIff | nextJs/src/app/actions/send-emails.ts:6-13 | the object raises no issue exactly when none of its keys does |
| ContactSchema.TwoChecksEmptyIff | nextJs/src/app/actions/send-emails.ts:7-10 | a `.min().max()` or `.email().max()` string passes exactly when both checks pass |
| ContactSchema.TwoChecksIssues | nextJs/src/app/actions/send-emails.ts:7-10 | the issues of a two-check string are the first check's issue, then the second's, so both are reported |
| ContactSchema.EntryEmptyIff | nextJs/src/app/actions/send-emails.ts:7-12 | each schema key raises no issue exactly when its field meets its stated bounds (names 1..100, email valid and at most 200, message 10..5000, plan at most 100); the honeypot never fails |
| ContactSchema.EntriesEmptyIff | nextJs/src/app/actions/send-emails.ts:6-13 | each schema key raises no issue exactly when its field meets its bounds |
| ContactSchema.ValidateEmptyIff | nextJs/src/app/actions/send-emails.ts:6-13 | validation raises no issue exactly when every field meets its bounds |
| ContactSchema.SafeParse | nextJs/src/app/actions/send-emails.ts:33-42 | `success` exactly when every field meets its bounds; the parsed data are the submitted strings; a failure carries the whole ordered issue list, which is not empty |
| ErrorMap.FieldKey | nextJs/src/app/actions/send-emails.ts:45 | an issue is filed under its first path element, or under `'form'` when there is none or it is empty; the key is never empty |
| ErrorMap.Record | nextJs/src/app/actions/send-emails.ts:46 | one loop step: the issue's field joins the keys; a field holding a non-empty message keeps it; an absent or empty one takes the issue's message; other fields are untouched |
| ErrorMap.ErrorsOf | nextJs/src/app/actions/send-emails.ts:44-47 | definition: the record after `Record` has visited every issue in order; its keys and first-wins property are `ErrorsOfKeys` and `ErrorsOfFirstWins` |
| ErrorMap.Aggregate | nextJs/src/app/actions/send-emails.ts:43-47 | the loop builds the record `ErrorsOf` of the issue list, whose keys are exactly the fields the issues are filed under |
| ErrorMap.ErrorsOfKeys | nextJs/src/app/actions/send-emails.ts:43-47 | the record has an entry for exactly the fields some issue is filed under |
| ErrorMap.ErrorsOfFirstWins | nextJs/src/app/actions/send-emails.ts:46 | when no message is empty, a field's entry is the message of the first issue filed under it |
| ErrorMap.FirstOfBlock | nextJs/src/app/actions/send-emails.ts:43-47 | the first issue of a field wins, whatever comes before it for other fields and after it for any field |
| ErrorMap.PathlessIssueFiledUnderForm | nextJs/src/app/actions/send-emails.ts:45 | an issue without a path lands under `'form'` |
| ErrorMap.EmptyMessageIsOverwritten | nextJs/src/app/actions/send-emails.ts:46 | the `!errors[field]` test lets a later issue replace an empty message |
| Reports.ObjectKeys | nextJs/src/app/actions/send-emails.ts:6-13 | the fields the object's issues are filed under are exactly the keys whose value fails |
| Reports.ObjectNoFalsy | nextJs/src/app/actions/send-emails.ts:7-10 | no issue of the object carries an empty message |
| Reports.ObjectFirstWins | nextJs/src/app/actions/send-emails.ts:43-47 | for distinct keys, a failing key's entry in the record is its own first issue's message, whatever the other keys raise |
| Reports.ValidateKeys | nextJs/src/app/actions/send-emails.ts:6-13 | validation files issues under exactly the failing fields, and none of its messages is empty |
| Reports.FirstFailure | nextJs/src/app/actions/send-emails.ts:7-11 | definition, independent of the check lists: invalid type for a non-string; for the names an empty string gets the required message and anything else the default `max` message; for the email an invalid address gets the custom message before any length test; for the message, under 10 code units the custom message and otherwise the `max` message; for the plan the `max` message |
| Reports.TwoChecksFirstIssue | nextJs/src/app/actions/send-emails.ts:7-10 | a failing two-check string's first issue is invalid type, else the first check's message when it fails, else the second's |
| Reports.EntryFirstIssue | nextJs/src/app/actions/send-emails.ts:7-11 | a failing field's first issue is its first failure: invalid type for a non-string, else the custom `min`/`email` message when that check fails, else zod's `max` message |
| Reports.ValidateReportsFirstFailure | nextJs/src/app/actions/send-emails.ts:42-47 | a failing field's entry is its first failure: invalid type for a non-string, else the custom `min`/`email` message, else zod's `max` message |
| Reports.ErrorRecord | nextJs/src/app/actions/send-emails.ts:42-52 | the error record has one entry per failing field and no other, each holding that field's first failure |
| DeliveryConfig.Resolve | nextJs/src/app/actions/send-emails.ts:57-61 | the settings resolve exactly when `GMAIL_USER` and `GMAIL_APP_PASSWORD` are non-empty; the destination is `CONTACT_TO` when non-empty, else the user; all three values are non-empty |
| DeliveryConfig.DestinationTestRedundant | nextJs/src/app/actions/send-emails.ts:59-61 | the `!to` test never fails on its own, since `to` falls back to a user already known to be set |
| Compose.Subject | nextJs/src/app/actions/send-emails.ts:74 | definition: "New SoftHub inquiry", " [plan]" for a non-empty plan, then " from First Last"; properties in `SubjectPlanTag` |
| Compose.TextBody | nextJs/src/app/actions/send-emails.ts:95 | definition: name and email lines, a plan line for a non-empty plan, a blank line, "Message:" and the message; properties in `TextBodyPlanLine` |
| Compose.HtmlBody | nextJs/src/app/actions/send-emails.ts:75-89 | definition: the template's literal runs with the whitespace as written, the names, email, optional plan paragraph and the raw message; properties in `HtmlBodyPlanParagraph` |
| Compose.FromHeader | nextJs/src/app/actions/send-emails.ts:92 | definition: `"SoftHub Website" <user>` |
| Compose.ComposeMail | nextJs/src/app/actions/send-emails.ts:91-98 | the mail goes to the resolved destination, comes from `"SoftHub Website" <user>`, replies to the submitter, and carries the composed subject and bodies |
| Compose.SubjectPlanTag | nextJs/src/app/actions/send-emails.ts:74 | without a plan the subject is "New SoftHub inquiry from First Last"; with a plan it is that subject with " [plan]" inserted after the lead |
| Compose.TextBodyPlanLine | nextJs/src/app/actions/send-emails.ts:95 | the text body with a plan is the body without one, with "Plan: plan" inserted after the email line; the message ends the body verbatim |
| Compose.HtmlBodyPlanParagraph | nextJs/src/app/actions/send-emails.ts:75-89 | the HTML body with a plan is the body without one, with the "Selected Plan" paragraph in its slot; the message appears unescaped inside the `<pre>` |
| Mailer.Relay.constructor | nextJs/src/app/actions/send-emails.ts:69-72 | a fresh relay has handed over nothing |
| Mailer.Relay.SendMail | nextJs/src/app/actions/send-emails.ts:91-98 | `sendMail` appends the mail to the relay's log, and its verdict is the oracle's on the earlier log and this mail |
| SendEmails.HoneypotString | nextJs/src/app/actions/send-emails.ts:27 | the honeypot read with an empty-string fallback: a missing field becomes the empty string, a string stays as it is, and only a file yields no string, the file on which `hp.trim()` then throws |
| SendEmails.Submit | nextJs/src/app/actions/send-emails.ts:21-105 | every input ends in one of the action's states; at most one mail is sent, and only for a blank honeypot, valid fields and resolved settings; `errors` appears exactly with the fix-your-errors message, and then nothing is sent; success means a mail was sent |
| SendEmails.HoneypotIgnoredByFieldChecks | nextJs/src/app/actions/send-emails.ts:33-40 | whether the fields are valid, which fields fail and how each fails do not depend on the honeypot's contents |
| SendEmails.HoneypotShortCircuits | nextJs/src/app/actions/send-emails.ts:27-31 | a non-blank honeypot returns the decoy success, and a file in it the generic failure; nothing is sent, whatever the other fields and settings |
| SendEmails.DecoyLooksLikeSuccess | nextJs/src/app/actions/send-emails.ts:28-31 | a tripped honeypot answers `ok: true` without errors, as a real delivery does, and sends nothing |
| SendEmails.RejectedAtValidation | nextJs/src/app/actions/send-emails.ts:42-52 | with a blank honeypot and an invalid field, the answer is the fix-your-errors state holding the record of the validation issues, and nothing is sent |
| SendEmails.InvalidRejected | nextJs/src/app/actions/send-emails.ts:42-52 | an invalid submission fails, sends nothing, and reports exactly the failing fields, each with its first failure |
| SendEmails.ReportedMessages | nextJs/src/app/actions/send-emails.ts:7-10 | an empty name, an invalid email (whatever its length) and a message under 10 code units are each reported under their field with the schema's custom message |
| SendEmails.NonStringFieldRejected | nextJs/src/app/actions/send-emails.ts:33-40 | a field that is absent or holds a file, `plan` included, is reported with zod's invalid-type message, and nothing is sent |
| SendEmails.UnconfiguredRefused | nextJs/src/app/actions/send-emails.ts:57-67 | a valid submission without the Gmail user or password gets the not-configured message and sends nothing |
| SendEmails.ConfiguredDelivers | nextJs/src/app/actions/send-emails.ts:57-100 | a mail is sent exactly for a blank honeypot, valid fields and both Gmail settings; it is the composed mail to `CONTACT_TO` or the user, from the user, replying to the submitter; the answer is success exactly when the relay accepts it |
| SendEmails.ValidationPrecedesConfig | nextJs/src/app/actions/send-emails.ts:42-61 | a rejected form gets the same answer whatever the environment and the relay |
| SendEmails.SendContactEmail | nextJs/src/app/actions/send-emails.ts:21-105 | the step-by-step action returns `Submit`'s state and appends `Submit`'s mails to the relay's log, the relay judging each against what it was handed before |

## Left out

- I/O and libraries are not modelled:
  - nodemailer's transport creation, Gmail's SMTP exchange and authentication become the relay's `accepts` oracle;
  - `console.error` in the catch block has no effect in the model.
- zod's email regular expression is the parameter `validEmail`.
- The texts of zod's default messages (`max`, invalid type) are stood for by their issue code, `LibraryDefault(code)`.
- The relay's answer is a pure function of the earlier log and the mail. Timing, retries and a `sendMail` that neither resolves nor rejects are not modelled.
- `async`/`await` and the React form-state plumbing are not modelled. The unused `_prev` argument is dropped.
- `FormData` is modelled one value per field. Duplicate entries for a name (only the first is read) are not represented.
- JavaScript objects are modelled as maps: inherited prototype keys of the error record and key enumeration order are not modelled. Only schema keys and `'form'` reach the record.
- Strings are sequences of Unicode scalar values. A lone UTF-16 surrogate cannot be represented.
- HTML escaping: the action performs none and the model adds none. HtmlBodyPlanParagraph states that the message is interpolated raw.
- The rendering files of the site (pages, sections, header, logos) are not part of this model.
