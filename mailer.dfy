/**
 * The one mail transport every handler shares. Sending a message appends it to
 * the transport's outbox; the SMTP delivery itself is not modelled.
 */
module Mailer {
  import opened Base

  /** What a message body reports; the HTML markup around it is not modelled. */
  datatype Body =
    | Html(html: string)                                                  // a body the caller passes in
    | MeetingNotice(startDate: Date, endDate: Date, description: string)  // the create and delete notices
    | Welcome(firstName: string, lastName: string)                        // the registration greeting

  /** One message, addressed to all of `to` at once. */
  datatype Mail = Mail(to: seq<string>, subject: string, body: Body)

  class Transport {
    var outbox: seq<Mail>

    constructor()
      ensures outbox == []
    {
      outbox := [];
    }

    method SendMail(m: Mail)
      modifies this
      ensures outbox == old(outbox) + [m]
    {
      outbox := outbox + [m];
    }
  }
}
