/**
 * The mail relay behind nodemailer's Gmail transporter. Every mail handed
 * to `sendMail` is logged; whether the relay takes it is an oracle of what
 * was handed over before and of the mail itself. A refusal stands for every
 * way `sendMail` can reject (bad credentials, network, quota).
 */
module Mailer {
  import opened Compose

  class Relay {
    const accepts: (seq<Mail>, Mail) -> bool
    var handedOver: seq<Mail>

    constructor (accepts: (seq<Mail>, Mail) -> bool)
      ensures this.accepts == accepts && handedOver == []
    {
      this.accepts := accepts;
      handedOver := [];
    }

    /** `transporter.sendMail(mail)`: logs the mail and says whether the relay accepted it. */
    method SendMail(mail: Mail) returns (accepted: bool)
      modifies this
      ensures handedOver == old(handedOver) + [mail]
      ensures accepted == accepts(old(handedOver), mail)
    {
      accepted := accepts(handedOver, mail);
      handedOver := handedOver + [mail];
    }
  }

  /** The relay's verdict on the next mail, once `history` has been handed over. */
  function VerdictAfter(accepts: (seq<Mail>, Mail) -> bool, history: seq<Mail>): Mail -> bool {
    m => accepts(history, m)
  }
}
