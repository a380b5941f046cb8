/** `POST /api/admin/send/[emailid]`: mails one published news item to every active,
    confirmed subscriber, once. Four guards answer before any mail: the item must exist, be
    published, not have been sent, and have at least one recipient. Then one mail goes to
    each recipient, with an unsubscribe link carrying the recipient's id, and only after the
    last one is the item marked as sent. Any call that throws (a store call, the rendering
    of the content, a mail) ends the request with 500. */
module Dispatch {
  import opened Common
  import opened Text
  import opened Http
  import opened Mail
  import opened News
  import opened Subscribers

  const NotFoundError := "News item not found"
  const NotPublishedError := "News item is not published"
  const AlreadySentError := "Email already sent for this news item"
  const NoRecipientsError := "No confirmed subscribers found"
  const SendFailed := "Failed to send emails"

  const UnsubscribePath := "/api/unsubscribe/"

  /** `${origin}/api/unsubscribe/${subscriber.id}`: the unsubscribe route's path under
      `origin`, then the recipient's id as a decimal segment the route reads back. */
  function UnsubscribeLink(origin: string, id: nat): (l: string)
    ensures |l| > |origin| + |UnsubscribePath|
    ensures l[..|origin| + |UnsubscribePath|] == origin + UnsubscribePath
    ensures AllDigits(l[|origin| + |UnsubscribePath|..])
    ensures DecimalValue(l[|origin| + |UnsubscribePath|..]) == id
  {
    DecimalRoundTrip(id);
    var l := origin + UnsubscribePath + NatToString(id);
    assert l[|origin| + |UnsubscribePath|..] == NatToString(id);
    l
  }

  /** Different recipients of a broadcast get different unsubscribe links, so each link
      unsubscribes exactly the subscriber it was sent to. */
  lemma UnsubscribeLinkDeterminesId(origin: string, i: nat, j: nat)
    ensures UnsubscribeLink(origin, i) == UnsubscribeLink(origin, j) ==> i == j
  {
  }

  /** The mail one recipient gets: to the recipient's address, the item's title as subject. */
  function NewsMail(records: map<nat, Subscriber>, id: nat, subject: string, origin: string): Mail
    requires id in records
  {
    Mail(records[id].email, subject, UnsubscribeLink(origin, id))
  }

  /** The mails for `ids`, in that order. */
  function NewsMails(records: map<nat, Subscriber>, ids: seq<nat>, subject: string, origin: string)
    : (ms: seq<Mail>)
    requires forall i :: 0 <= i < |ids| ==> ids[i] in records
    ensures |ms| == |ids|
    ensures forall i :: 0 <= i < |ids| ==> ms[i] == NewsMail(records, ids[i], subject, origin)
    decreases |ids|
  {
    if ids == [] then []
    else NewsMails(records, ids[..|ids| - 1], subject, origin)
         + [NewsMail(records, ids[|ids| - 1], subject, origin)]
  }

  /** The answer when no call throws, for the items before the request and the number of
      recipients the store reports. The guards apply in the order found, published, not yet
      sent, recipients present. */
  function Expected(items: map<nat, NewsItem>, id: nat, recipients: nat): Response
  {
    if id !in items then JsonStatus(404, ErrorBody(NotFoundError))
    else if !items[id].published then JsonStatus(400, ErrorBody(NotPublishedError))
    else if items[id].emailSent then JsonStatus(400, ErrorBody(AlreadySentError))
    else if recipients == 0 then JsonStatus(400, ErrorBody(NoRecipientsError))
    else Json(200, SentBody(recipients), [])
  }

  /** The send route. `recipients` are the subscribers a mail was attempted for, in order. */
  method SendNews(news: NewsStore, subscribers: SubscriberStore, mailer: Mailer, id: nat,
                  origin: string, now: int)
    returns (resp: Response, ghost recipients: seq<nat>)
    requires news.Valid() && subscribers.Valid()
    modifies news, mailer
    ensures news.Valid() && news.nextId == old(news.nextId)
    ensures resp == JsonStatus(500, ErrorBody(SendFailed))
            || resp == Expected(old(news.items), id, |subscribers.Eligible()|)
    ensures resp.status == 200 ==>
              && id in old(news.items)
              && news.items == old(news.items)[id := Mailed(old(news.items)[id], now)]
              && multiset(recipients) == multiset(subscribers.Eligible())
    ensures resp.status != 200 ==> news.items == old(news.items)
    ensures multiset(recipients) <= multiset(subscribers.Eligible())
    ensures recipients == [] ==> mailer.outbox == old(mailer.outbox)
    ensures recipients != [] ==>
              && id in old(news.items)
              && (forall i :: 0 <= i < |recipients| ==> recipients[i] in subscribers.records)
              && mailer.outbox == old(mailer.outbox)
                   + NewsMails(subscribers.records, recipients, old(news.items)[id].title, origin)
  {
    recipients := [];
    var lookupFails: bool := *;
    if lookupFails {
      return JsonStatus(500, ErrorBody(SendFailed)), recipients;
    }
    if id !in news.items {
      return JsonStatus(404, ErrorBody(NotFoundError)), recipients;
    }
    var item := news.items[id];
    if !item.published {
      return JsonStatus(400, ErrorBody(NotPublishedError)), recipients;
    }
    if item.emailSent {
      return JsonStatus(400, ErrorBody(AlreadySentError)), recipients;
    }
    var found := subscribers.FindConfirmedActive();
    if found.None? {
      return JsonStatus(500, ErrorBody(SendFailed)), recipients;
    }
    var ids := found.value;
    assert |ids| == |multiset(ids)| == |multiset(subscribers.Eligible())| == |subscribers.Eligible()|;
    if |ids| == 0 {
      return JsonStatus(400, ErrorBody(NoRecipientsError)), recipients;
    }
    forall i | 0 <= i < |ids| ensures ids[i] in subscribers.records {
      assert ids[i] in multiset(ids);
    }
    var renderFails: bool := *;
    if renderFails {
      return JsonStatus(500, ErrorBody(SendFailed)), recipients;
    }
    var attempted, completed := SendAll(mailer, subscribers.records, ids, item.title, origin);
    recipients := ids[..attempted];
    SubMultiset(ids, attempted);
    if !completed {
      return JsonStatus(500, ErrorBody(SendFailed)), recipients;
    }
    assert recipients == ids;
    var ok := news.MarkSent(id, now);
    if !ok {
      return JsonStatus(500, ErrorBody(SendFailed)), recipients;
    }
    return Json(200, SentBody(|ids|), []), recipients;
  }

  /** `for (const subscriber of subscribers) await resend.emails.send(...)`: one mail per
      id, in order, up to and including the first that throws. */
  method SendAll(mailer: Mailer, records: map<nat, Subscriber>, ids: seq<nat>, subject: string,
                 origin: string)
    returns (attempted: nat, completed: bool)
    requires forall i :: 0 <= i < |ids| ==> ids[i] in records
    modifies mailer
    ensures attempted <= |ids|
    ensures completed ==> attempted == |ids|
    ensures !completed ==> attempted >= 1
    ensures mailer.outbox == old(mailer.outbox) + NewsMails(records, ids[..attempted], subject, origin)
  {
    attempted := 0;
    while attempted < |ids|
      invariant attempted <= |ids|
      invariant mailer.outbox == old(mailer.outbox) + NewsMails(records, ids[..attempted], subject, origin)
    {
      var threw := mailer.Send(NewsMail(records, ids[attempted], subject, origin));
      assert ids[..attempted + 1][..attempted] == ids[..attempted];
      attempted := attempted + 1;
      if threw {
        return attempted, false;
      }
    }
    completed := true;
  }

  /** A prefix of a sequence has no more of any element than the whole. */
  lemma {:induction false} SubMultiset(s: seq<nat>, k: nat)
    requires k <= |s|
    ensures multiset(s[..k]) <= multiset(s)
  {
    assert s == s[..k] + s[k..];
  }

  // Properties of the send route

  /** The route succeeds exactly for a published item that has not been sent and has at
      least one recipient, and then reports the number of recipients. */
  lemma SendSucceedsIff(items: map<nat, NewsItem>, id: nat, recipients: nat)
    ensures Expected(items, id, recipients).status == 200 <==>
              id in items && items[id].published && !items[id].emailSent && recipients > 0
    ensures Expected(items, id, recipients).status == 200 ==>
              Expected(items, id, recipients).body == SentBody(recipients)
  {
  }

  /** When several guards hold, the first in the order found, published, not sent, has
      recipients decides the error. */
  lemma GuardOrder(items: map<nat, NewsItem>, id: nat, recipients: nat)
    ensures id !in items ==> Expected(items, id, recipients) == JsonStatus(404, ErrorBody(NotFoundError))
    ensures id in items && !items[id].published ==>
              Expected(items, id, recipients) == JsonStatus(400, ErrorBody(NotPublishedError))
    ensures id in items && items[id].published && items[id].emailSent ==>
              Expected(items, id, recipients) == JsonStatus(400, ErrorBody(AlreadySentError))
    ensures id in items && items[id].published && !items[id].emailSent && recipients == 0 ==>
              Expected(items, id, recipients) == JsonStatus(400, ErrorBody(NoRecipientsError))
  {
  }

  /** After a successful send the item is marked, so any later send of it is refused before
      a mail goes out, however many recipients there are then. */
  lemma SecondSendRefused(items: map<nat, NewsItem>, id: nat, recipients: nat, now: int, later: nat)
    requires Expected(items, id, recipients).status == 200
    ensures Expected(items[id := Mailed(items[id], now)], id, later)
              == JsonStatus(400, ErrorBody(AlreadySentError))
  {
  }

  /** Unpublishing and republishing a sent item keeps it marked, so the send stays refused. */
  lemma RepublishStaysRefused(items: map<nat, NewsItem>, id: nat, now: int, t1: int, t2: int, later: nat)
    requires id in items
    ensures var sent := items[id := Mailed(items[id], now)];
            var again := sent[id := Toggled(Toggled(sent[id], false, t1), true, t2)];
            Expected(again, id, later) == JsonStatus(400, ErrorBody(AlreadySentError))
  {
  }

  /** Every mail of a broadcast goes to a recipient's own address and carries that
      recipient's unsubscribe link. */
  lemma MailsAddressRecipients(records: map<nat, Subscriber>, ids: seq<nat>, subject: string,
                               origin: string, i: nat)
    requires forall k :: 0 <= k < |ids| ==> ids[k] in records
    requires i < |ids|
    ensures NewsMails(records, ids, subject, origin)[i].to == records[ids[i]].email
    ensures NewsMails(records, ids, subject, origin)[i].link == UnsubscribeLink(origin, ids[i])
    ensures NewsMails(records, ids, subject, origin)[i].subject == subject
  {
  }
}
