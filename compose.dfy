/**
 * The notification the contact action hands to the mail transport: sender,
 * destination, subject, plain-text and HTML bodies, and reply-to.
 */
module Compose {
  import opened JsStrings
  import opened ContactSchema
  import opened DeliveryConfig

  datatype Mail = Mail(from: string, to: string, subject: string, text: string, html: string, replyTo: string)

  const SubjectLead: string := "New SoftHub inquiry"

  /** `plan ? ` [${plan}]` : ''`. */
  function PlanTag(plan: string): string {
    if Truthy(plan) then " [" + plan + "]" else ""
  }

  function Subject(s: Submission): string {
    SubjectLead + PlanTag(s.plan) + " from " + s.firstName + " " + s.lastName
  }

  /** The name and email lines that open the text body. */
  function TextHead(s: Submission): string {
    "Name: " + s.firstName + " " + s.lastName + "\nEmail: " + s.email + "\n"
  }

  /** `plan ? `Plan: ${plan}\n` : ''`. */
  function PlanLine(plan: string): string {
    if Truthy(plan) then "Plan: " + plan + "\n" else ""
  }

  function TextBody(s: Submission): string {
    TextHead(s) + PlanLine(s.plan) + "\nMessage:\n" + s.message
  }

  /** The literal runs of the HTML template, in order. */
  const HtmlOpen: string := "\n      <div style=\"font-family:Inter,system-ui,-apple-system,Segoe UI,Roboto,Arial,sans-serif;line-height:1.6;color:#0f172a;\">\n"
    + "        <h2 style=\"margin:0 0 12px;\">New Contact Request</h2>\n"
    + "        <p><strong>Name:</strong> "
  const HtmlEmailOpen: string := "</p>\n        <p><strong>Email:</strong> "
  const HtmlEmailClose: string := "</p>\n        "
  const HtmlMessageHeading: string := "\n        <p style=\"margin-top:16px;\"><strong>Message:</strong></p>\n        "
  const PreOpen: string := "<pre style=\"white-space:pre-wrap;background:#f8fafc;padding:12px;border-radius:8px;border:1px solid #e2e8f0;\">"
  const PreClose: string := "</pre>"
  const HtmlFooter: string := "\n        <p style=\"font-size:12px;color:#64748b;margin-top:16px;\">Sent from SoftHub website</p>\n      </div>\n    "

  /** The HTML template up to the plan slot. */
  function HtmlHead(s: Submission): string {
    HtmlOpen + s.firstName + " " + s.lastName + HtmlEmailOpen + s.email + HtmlEmailClose
  }

  /** The plan paragraph, present only for a non-empty plan. */
  function PlanParagraph(plan: string): string {
    if Truthy(plan) then "<p><strong>Selected Plan:</strong> " + plan + "</p>" else ""
  }

  /** The HTML template after the plan slot; the message is interpolated as it is, without escaping. */
  function HtmlTail(s: Submission): string {
    HtmlMessageHeading + (PreOpen + s.message + PreClose) + HtmlFooter
  }

  function HtmlBody(s: Submission): string {
    HtmlHead(s) + PlanParagraph(s.plan) + HtmlTail(s)
  }

  /** `"SoftHub Website" <${user}>`. */
  function FromHeader(user: string): string {
    "\"SoftHub Website\" <" + user + ">"
  }

  /** The argument of `transporter.sendMail`. */
  function ComposeMail(s: Submission, cred: Credentials): (m: Mail)
    ensures m.replyTo == s.email && m.to == cred.to
    ensures m.from == "\"SoftHub Website\" <" + cred.user + ">"
    ensures m.subject == Subject(s) && m.text == TextBody(s) && m.html == HtmlBody(s)
  {
    Mail(FromHeader(cred.user), cred.to, Subject(s), TextBody(s), HtmlBody(s), s.email)
  }

  /** Insert `x` into `t` at index `k`. */
  function InsertAt(t: string, k: nat, x: string): string
    requires k <= |t|
  {
    t[..k] + x + t[k..]
  }

  lemma InsertBetween(a: string, x: string, b: string)
    ensures InsertAt(a + b, |a|, x) == a + x + b
  {
  }

  /**
   * The subject with a plan is the subject without one, with " [plan]"
   * inserted right after "New SoftHub inquiry"; an empty plan is no plan.
   */
  lemma SubjectPlanTag(s: Submission)
    ensures Subject(s) == InsertAt(Subject(s.(plan := "")), |SubjectLead|, PlanTag(s.plan))
    ensures Subject(s.(plan := "")) == "New SoftHub inquiry from " + s.firstName + " " + s.lastName
    ensures Truthy(s.plan) ==> Contains(Subject(s), "[" + s.plan + "]")
  {
    var rest := " from " + s.firstName + " " + s.lastName;
    assert Subject(s.(plan := "")) == SubjectLead + rest;
    assert Subject(s) == SubjectLead + PlanTag(s.plan) + rest;
    InsertBetween(SubjectLead, PlanTag(s.plan), rest);
    if Truthy(s.plan) {
      assert Subject(s) == (SubjectLead + " ") + ("[" + s.plan + "]") + rest;
      ContainsMiddle(SubjectLead + " ", "[" + s.plan + "]", rest);
    }
  }

  /**
   * The text body with a plan is the body without one, with "Plan: plan\n"
   * inserted after the email line; the message ends the body verbatim.
   */
  lemma TextBodyPlanLine(s: Submission)
    ensures TextBody(s) == InsertAt(TextBody(s.(plan := "")), |TextHead(s)|, PlanLine(s.plan))
    ensures Truthy(s.plan) ==> Contains(TextBody(s), "Plan: " + s.plan + "\n")
    ensures |s.message| <= |TextBody(s)| && TextBody(s)[|TextBody(s)| - |s.message|..] == s.message
  {
    var rest := "\nMessage:\n" + s.message;
    assert TextHead(s.(plan := "")) == TextHead(s);
    assert TextBody(s.(plan := "")) == TextHead(s) + rest;
    assert TextBody(s) == TextHead(s) + PlanLine(s.plan) + rest;
    InsertBetween(TextHead(s), PlanLine(s.plan), rest);
    if Truthy(s.plan) {
      ContainsMiddle(TextHead(s), PlanLine(s.plan), rest);
    }
    var t := TextBody(s);
    assert t == (TextHead(s) + PlanLine(s.plan) + "\nMessage:\n") + s.message;
  }

  /**
   * The HTML body with a plan is the body without one, with the "Selected
   * Plan" paragraph in the plan slot; the message sits unescaped in `<pre>`.
   */
  lemma HtmlBodyPlanParagraph(s: Submission)
    ensures HtmlBody(s) == InsertAt(HtmlBody(s.(plan := "")), |HtmlHead(s)|, PlanParagraph(s.plan))
    ensures Truthy(s.plan) ==> Contains(HtmlBody(s), "<p><strong>Selected Plan:</strong> " + s.plan + "</p>")
    ensures Contains(HtmlBody(s), PreOpen + s.message + PreClose)
  {
    var head, tail := HtmlHead(s), HtmlTail(s);
    assert HtmlHead(s.(plan := "")) == head && HtmlTail(s.(plan := "")) == tail;
    InsertBetween(head, PlanParagraph(s.plan), tail);
    if Truthy(s.plan) {
      ContainsMiddle(head, PlanParagraph(s.plan), tail);
    }
    var before := head + PlanParagraph(s.plan) + HtmlMessageHeading;
    assert HtmlBody(s) == before + (PreOpen + s.message + PreClose) + HtmlFooter;
    ContainsMiddle(before, PreOpen + s.message + PreClose, HtmlFooter);
  }
}
