/** The mail transport as the routes see it: each call either returns (its answer is never
    inspected) or throws. The transport keeps a log of every call made to it. */
module Mail {

  datatype Mail = Mail(to: string, subject: string, link: string)

  class Mailer {
    var outbox: seq<Mail>

    constructor()
      ensures outbox == []
    {
      outbox := [];
    }

    /** `resend.emails.send(...)`: records the call; `threw` says whether it raised. */
    method Send(m: Mail) returns (threw: bool)
      modifies this
      ensures outbox == old(outbox) + [m]
    {
      outbox := outbox + [m];
      threw := *;
    }
  }
}
