/** The subscriber records and the public routes that change them: subscribe (create,
    reactivate, or nothing when already active, then mail a confirmation link), confirm,
    and unsubscribe by id (GET for the link in a mail, POST for one-click unsubscribe).
    Every store call and every mail may fail by throwing. */
module Subscribers {
  import opened Common
  import opened Text
  import opened Schema
  import opened Validators
  import opened Http
  import opened Mail

  datatype Status = Active | Unsubscribed

  /** A subscriber record. Times are milliseconds; `None` is a null column. */
  datatype Subscriber = Subscriber(
    email: string, status: Status, emailConfirmed: bool, emailConfirmedAt: Option<int>,
    subscribedAt: int, unsubscribedAt: Option<int>)

  /** A confirmation time exactly for confirmed records, an unsubscribe time exactly for
      unsubscribed ones. */
  predicate WellFormed(s: Subscriber) {
    && (s.emailConfirmed <==> s.emailConfirmedAt.Some?)
    && (s.status == Unsubscribed <==> s.unsubscribedAt.Some?)
  }

  /** At most one record per email address. */
  predicate UniqueEmails(records: map<nat, Subscriber>) {
    forall a, b :: a in records && b in records && records[a].email == records[b].email ==> a == b
  }

  predicate Known(records: map<nat, Subscriber>, email: string) {
    exists id :: id in records && records[id].email == email
  }

  const SubscribeFailed := "Failed to subscribe"
  const ConfirmSubject := "Confirma tu correo electr\U{00F3}nico"

  // The record updates

  /** `create({ data: { email, status: 'ACTIVE' } })`: not confirmed, subscribed now. */
  function NewRecord(email: string, now: int): (s: Subscriber)
    ensures s.email == email && s.status == Active && !s.emailConfirmed
    ensures s.subscribedAt == now && s.unsubscribedAt.None?
    ensures WellFormed(s)
  {
    Subscriber(email, Active, false, None, now, None)
  }

  /** `update({ status: 'ACTIVE', subscribedAt: now, unsubscribedAt: null })` */
  function Reactivated(s: Subscriber, now: int): (r: Subscriber)
    ensures r.status == Active && r.subscribedAt == now && r.unsubscribedAt.None?
    ensures r.(status := s.status, subscribedAt := s.subscribedAt, unsubscribedAt := s.unsubscribedAt) == s
    ensures WellFormed(s) ==> WellFormed(r)
  {
    s.(status := Active, subscribedAt := now, unsubscribedAt := None)
  }

  /** `update({ emailConfirmed: true, emailConfirmedAt: now })` */
  function Confirmed(s: Subscriber, now: int): (r: Subscriber)
    ensures r.emailConfirmed && r.emailConfirmedAt == Some(now)
    ensures r.(emailConfirmed := s.emailConfirmed, emailConfirmedAt := s.emailConfirmedAt) == s
    ensures WellFormed(s) ==> WellFormed(r)
  {
    s.(emailConfirmed := true, emailConfirmedAt := Some(now))
  }

  /** `update({ status: 'UNSUBSCRIBED', unsubscribedAt: now })` */
  function Unsubscribing(s: Subscriber, now: int): (r: Subscriber)
    ensures r.status == Unsubscribed && r.unsubscribedAt == Some(now)
    ensures r.(status := s.status, unsubscribedAt := s.unsubscribedAt) == s
    ensures WellFormed(s) ==> WellFormed(r)
  {
    s.(status := Unsubscribed, unsubscribedAt := Some(now))
  }

  const ConfirmPath := "/api/subscribe/confirm/"

  /** `${origin}/api/subscribe/confirm/${id}`: the confirm route's path under `origin`,
      then the id as a decimal segment, which the route reads back as that id. */
  function ConfirmLink(origin: string, id: nat): (l: string)
    ensures |l| > |origin| + |ConfirmPath|
    ensures l[..|origin| + |ConfirmPath|] == origin + ConfirmPath
    ensures AllDigits(l[|origin| + |ConfirmPath|..])
    ensures DecimalValue(l[|origin| + |ConfirmPath|..]) == id
  {
    DecimalRoundTrip(id);
    var l := origin + ConfirmPath + NatToString(id);
    assert l[|origin| + |ConfirmPath|..] == NatToString(id);
    l
  }

  /** Different subscribers get different confirmation links. */
  lemma ConfirmLinkDeterminesId(origin: string, i: nat, j: nat)
    ensures ConfirmLink(origin, i) == ConfirmLink(origin, j) ==> i == j
  {
  }

  function ConfirmMail(email: string, origin: string, id: nat): Mail
  {
    Mail(email, ConfirmSubject, ConfirmLink(origin, id))
  }

  /** The one mail subscribing sends, or none. */
  function ConfirmMails(email: string, origin: string, target: Option<nat>): seq<Mail>
  {
    if target.Some? then [ConfirmMail(email, origin, target.value)] else []
  }

  /** What subscribing `email` does when no call fails: the records afterwards and the id
      whose confirmation link is mailed. An unknown email gets a fresh record under
      `nextId`, an unsubscribed one is reactivated in place, an active one is left alone and
      nothing is mailed. */
  ghost function Subscription(records: map<nat, Subscriber>, nextId: nat, email: string, now: int)
    : (map<nat, Subscriber>, Option<nat>)
  {
    if Known(records, email) then
      var id :| id in records && records[id].email == email;
      if records[id].status == Unsubscribed then (records[id := Reactivated(records[id], now)], Some(id))
      else (records, None)
    else (records[nextId := NewRecord(email, now)], Some(nextId))
  }

  /** When emails are unique, `Subscription` acts on the one record holding `email`. */
  lemma SubscriptionOfKnown(records: map<nat, Subscriber>, nextId: nat, email: string, now: int, id: nat)
    requires UniqueEmails(records) && id in records && records[id].email == email
    ensures records[id].status == Unsubscribed ==>
              Subscription(records, nextId, email, now) == (records[id := Reactivated(records[id], now)], Some(id))
    ensures records[id].status == Active ==> Subscription(records, nextId, email, now) == (records, None)
  {
  }

  class SubscriberStore {
    var records: map<nat, Subscriber>
    var nextId: nat

    /** Ids below the next fresh one, one record per email, every record well formed. */
    ghost predicate Valid()
      reads this
    {
      && (forall id :: id in records ==> id < nextId)
      && UniqueEmails(records)
      && (forall id :: id in records ==> WellFormed(records[id]))
    }

    /** The recipients of a broadcast: active and confirmed. */
    function Eligible(): set<nat>
      reads this
    {
      set id | id in records && records[id].status == Active && records[id].emailConfirmed
    }

    constructor()
      ensures Valid() && records == map[] && nextId == 0
    {
      records := map[];
      nextId := 0;
    }

    // The store calls, each of which may throw

    /** `findUnique({ where: { email } })` */
    method FindByEmail(email: string) returns (found: Option<nat>, failed: bool)
      ensures !failed && found.Some? ==> found.value in records && records[found.value].email == email
      ensures !failed && found.None? ==> !Known(records, email)
    {
      failed := *;
      found := None;
      if !failed && Known(records, email) {
        var id :| id in records && records[id].email == email;
        found := Some(id);
      }
    }

    /** `findUnique({ where: { id } })` */
    method FindById(id: nat) returns (found: bool, failed: bool)
      ensures !failed ==> (found <==> id in records)
    {
      failed := *;
      found := id in records;
    }

    /** `create(...)` under a fresh id. */
    method Create(s: Subscriber) returns (id: Option<nat>)
      requires Valid() && WellFormed(s) && !Known(records, s.email)
      modifies this
      ensures Valid()
      ensures id.Some? ==> id.value == old(nextId) && nextId == old(nextId) + 1
                           && records == old(records)[id.value := s]
      ensures id.None? ==> records == old(records) && nextId == old(nextId)
    {
      var fails: bool := *;
      if fails {
        return None;
      }
      id := Some(nextId);
      records := records[nextId := s];
      nextId := nextId + 1;
    }

    /** `update({ where: { id }, data })`, where the data never touches the email; updating
        a missing id throws. */
    method Replace(id: nat, s: Subscriber) returns (ok: bool)
      requires Valid() && WellFormed(s) && (id in records ==> s.email == records[id].email)
      modifies this
      ensures Valid() && nextId == old(nextId)
      ensures ok ==> id in old(records) && records == old(records)[id := s]
      ensures !ok ==> records == old(records)
    {
      var fails: bool := *;
      if fails || id !in records {
        return false;
      }
      records := records[id := s];
      ok := true;
    }

    /** `findMany({ where: { status: 'ACTIVE', emailConfirmed: true } })`: each recipient
        once, in an order the store chooses. */
    method FindConfirmedActive() returns (ids: Option<seq<nat>>)
      ensures ids.Some? ==> multiset(ids.value) == multiset(Eligible())
    {
      var fails: bool := *;
      if fails {
        return None;
      }
      var rest := records.Keys;
      var acc: seq<nat> := [];
      while rest != {}
        invariant rest <= records.Keys
        invariant multiset(acc) == multiset(Eligible() - rest)
        decreases |rest|
      {
        var k :| k in rest;
        if k in Eligible() {
          assert Eligible() - (rest - {k}) == (Eligible() - rest) + {k};
          assert multiset((Eligible() - rest) + {k}) == multiset(Eligible() - rest) + multiset{k};
          acc := acc + [k];
        } else {
          assert Eligible() - (rest - {k}) == Eligible() - rest;
        }
        rest := rest - {k};
      }
      assert Eligible() - rest == Eligible();
      ids := Some(acc);
    }

    // The routes

    /** `POST /api/subscribe`. `body` is `None` when the request body is not JSON, and
        `isEmail` is the email grammar. The record is written before the mail is sent, so a
        failing send leaves the write in place. */
    method Subscribe(body: Option<Value>, isEmail: string -> bool, origin: string, now: int, mailer: Mailer)
      returns (resp: Response)
      requires Valid()
      modifies this, mailer
      ensures Valid()
      ensures body.None? ==> resp == JsonStatus(500, ErrorBody(SubscribeFailed))
                             && records == old(records) && mailer.outbox == old(mailer.outbox)
      ensures body.Some? && SubscribeSchema(body.value, isEmail).Invalid? ==>
                resp == JsonStatus(400, ErrorBody(InvalidEmail))
                && records == old(records) && mailer.outbox == old(mailer.outbox)
      ensures body.Some? && SubscribeSchema(body.value, isEmail).Valid? ==>
                var email := SubscribeSchema(body.value, isEmail).value;
                var effect := Subscription(old(records), old(nextId), email, now);
                && (resp == JsonStatus(200, OkBody) || resp == JsonStatus(500, ErrorBody(SubscribeFailed)))
                && (resp.status == 200 ==>
                      records == effect.0 && mailer.outbox == old(mailer.outbox) + ConfirmMails(email, origin, effect.1))
                && (resp.status == 500 ==>
                      (records == old(records) && mailer.outbox == old(mailer.outbox))
                      || (records == effect.0 && effect.1.Some?
                          && mailer.outbox == old(mailer.outbox) + ConfirmMails(email, origin, effect.1)))
    {
      if body.None? {
        return JsonStatus(500, ErrorBody(SubscribeFailed));
      }
      var check := SubscribeSchema(body.value, isEmail);
      if check.Invalid? {
        return JsonStatus(400, ErrorBody(InvalidEmail));
      }
      var email := check.value;
      var found, failed := FindByEmail(email);
      if failed {
        return JsonStatus(500, ErrorBody(SubscribeFailed));
      }
      var target: nat;
      if found.None? {
        var id := Create(NewRecord(email, now));
        if id.None? {
          return JsonStatus(500, ErrorBody(SubscribeFailed));
        }
        target := id.value;
      } else {
        SubscriptionOfKnown(old(records), old(nextId), email, now, found.value);
        if records[found.value].status == Active {
          return JsonStatus(200, OkBody);
        }
        var ok := Replace(found.value, Reactivated(records[found.value], now));
        if !ok {
          return JsonStatus(500, ErrorBody(SubscribeFailed));
        }
        target := found.value;
      }
      var threw := mailer.Send(ConfirmMail(email, origin, target));
      if threw {
        return JsonStatus(500, ErrorBody(SubscribeFailed));
      }
      return JsonStatus(200, OkBody);
    }

    /** `GET /api/subscribe/confirm/[id]`: always a redirect; only a successful update leads
        to the confirmation page. */
    method Confirm(id: nat, origin: string, now: int) returns (resp: Response)
      requires Valid()
      modifies this
      ensures Valid() && nextId == old(nextId)
      ensures resp == RedirectTo(origin, "/confirmed") || resp == RedirectTo(origin, "/confirmed/error")
      ensures resp == RedirectTo(origin, "/confirmed") ==>
                id in old(records) && records == old(records)[id := Confirmed(old(records)[id], now)]
      ensures resp == RedirectTo(origin, "/confirmed/error") ==> records == old(records)
      ensures id !in old(records) ==> resp == RedirectTo(origin, "/confirmed/error")
    {
      var found, failed := FindById(id);
      if failed || !found {
        return RedirectTo(origin, "/confirmed/error");
      }
      var ok := Replace(id, Confirmed(records[id], now));
      if !ok {
        return RedirectTo(origin, "/confirmed/error");
      }
      assert |origin + "/confirmed"| != |origin + "/confirmed/error"|;
      return RedirectTo(origin, "/confirmed");
    }

    /** `unsubscribe(id)`, the helper both unsubscribe routes share. */
    method Unsubscribe(id: nat, now: int) returns (r: Removal)
      requires Valid()
      modifies this
      ensures Valid() && nextId == old(nextId)
      ensures r == Updated ==>
                id in old(records) && records == old(records)[id := Unsubscribing(old(records)[id], now)]
      ensures r != Updated ==> records == old(records)
      ensures r == NotFound ==> id !in old(records)
      ensures id !in old(records) ==> r != Updated
    {
      var found, failed := FindById(id);
      if failed {
        return Threw;
      }
      if !found {
        return NotFound;
      }
      var ok := Replace(id, Unsubscribing(records[id], now));
      if !ok {
        return Threw;
      }
      return Updated;
    }

    /** `GET /api/unsubscribe/[id]`: the unsubscribed page on success, the home page
        otherwise. */
    method UnsubscribeGet(id: nat, origin: string, now: int) returns (resp: Response)
      requires Valid()
      modifies this
      ensures Valid() && nextId == old(nextId)
      ensures resp == RedirectTo(origin, "/unsubscribed") || resp == RedirectTo(origin, "/")
      ensures resp == RedirectTo(origin, "/unsubscribed") ==>
                id in old(records) && records == old(records)[id := Unsubscribing(old(records)[id], now)]
      ensures resp == RedirectTo(origin, "/") ==> records == old(records)
      ensures id !in old(records) ==> resp == RedirectTo(origin, "/")
    {
      var r := Unsubscribe(id, now);
      if r == Updated {
        assert |origin + "/unsubscribed"| != |origin + "/"|;
        return RedirectTo(origin, "/unsubscribed");
      }
      return RedirectTo(origin, "/");
    }

    /** `POST /api/unsubscribe/[id]`, the one-click unsubscribe of section 3.1 of RFC 8058. */
    method UnsubscribePost(id: nat, now: int) returns (resp: Response)
      requires Valid()
      modifies this
      ensures Valid() && nextId == old(nextId)
      ensures resp == JsonStatus(200, OkBody) || resp == JsonStatus(404, ErrorBody("Not found"))
              || resp == JsonStatus(500, ErrorBody("Failed to unsubscribe"))
      ensures resp.status == 200 ==>
                id in old(records) && records == old(records)[id := Unsubscribing(old(records)[id], now)]
      ensures resp.status != 200 ==> records == old(records)
      ensures resp.status == 404 ==> id !in old(records)
      ensures id !in old(records) ==> resp.status != 200
    {
      var r := Unsubscribe(id, now);
      match r {
        case Updated => return JsonStatus(200, OkBody);
        case NotFound => return JsonStatus(404, ErrorBody("Not found"));
        case Threw => return JsonStatus(500, ErrorBody("Failed to unsubscribe"));
      }
    }
  }

  /** How `unsubscribe(id)` ends: the record was updated, there was none, or a call threw. */
  datatype Removal = Updated | NotFound | Threw

  // Properties of the subscriber lifecycle

  /** Subscribing keeps one record per email, and afterwards the email has an active
      record; exactly one record is created, and only for an unknown email. */
  lemma SubscriptionKeepsEmailsUnique(records: map<nat, Subscriber>, nextId: nat, email: string, now: int)
    requires UniqueEmails(records) && nextId !in records
    ensures UniqueEmails(Subscription(records, nextId, email, now).0)
    ensures var after := Subscription(records, nextId, email, now).0;
            exists id :: id in after && after[id].email == email && after[id].status == Active
    ensures Known(records, email) ==> Subscription(records, nextId, email, now).0.Keys == records.Keys
    ensures !Known(records, email) ==> Subscription(records, nextId, email, now).0.Keys == records.Keys + {nextId}
  {
    var after := Subscription(records, nextId, email, now).0;
    if Known(records, email) {
      var id :| id in records && records[id].email == email;
      SubscriptionOfKnown(records, nextId, email, now, id);
      assert after[id].email == email && after[id].status == Active;
    } else {
      assert after[nextId].email == email && after[nextId].status == Active;
    }
  }

  /** A second subscribe with the same email changes nothing and sends nothing, so a
      repeated subscribe mails a single confirmation. */
  lemma SubscribeTwiceSendsOnce(records: map<nat, Subscriber>, nextId: nat, email: string, t1: int,
                                laterId: nat, t2: int)
    requires UniqueEmails(records) && nextId !in records
    ensures var after := Subscription(records, nextId, email, t1).0;
            Subscription(after, laterId, email, t2) == (after, None)
  {
    var after := Subscription(records, nextId, email, t1).0;
    SubscriptionKeepsEmailsUnique(records, nextId, email, t1);
    var id :| id in after && after[id].email == email && after[id].status == Active;
    SubscriptionOfKnown(after, laterId, email, t2, id);
  }

  /** Reactivation keeps the record's id and its confirmation, and mails the link of that
      same id. */
  lemma ReactivationKeepsConfirmation(records: map<nat, Subscriber>, nextId: nat, email: string, now: int, id: nat)
    requires UniqueEmails(records) && id in records && records[id].email == email
    requires records[id].status == Unsubscribed
    ensures Subscription(records, nextId, email, now).1 == Some(id)
    ensures var after := Subscription(records, nextId, email, now).0;
            after.Keys == records.Keys
            && after[id].emailConfirmed == records[id].emailConfirmed
            && after[id].emailConfirmedAt == records[id].emailConfirmedAt
            && after[id].status == Active && after[id].unsubscribedAt.None?
  {
    SubscriptionOfKnown(records, nextId, email, now, id);
  }

  /** A record becomes a broadcast recipient only once it is both active and confirmed:
      unsubscribing removes it, confirming an active record adds it. */
  lemma RecipientsFollowStatus(s: Subscriber, now: int)
    ensures Unsubscribing(s, now).status != Active
    ensures s.status == Active ==> Confirmed(s, now).status == Active && Confirmed(s, now).emailConfirmed
    ensures Reactivated(s, now).emailConfirmed == s.emailConfirmed
  {
  }

  /** Unsubscribing and subscribing again brings back the same record, confirmed as before. */
  lemma ResubscribeRestoresRecord(records: map<nat, Subscriber>, nextId: nat, id: nat, t1: int, t2: int)
    requires UniqueEmails(records) && id in records
    ensures var after := records[id := Unsubscribing(records[id], t1)];
            Subscription(after, nextId, records[id].email, t2)
              == (after[id := Reactivated(after[id], t2)], Some(id))
            && Reactivated(after[id], t2).emailConfirmed == records[id].emailConfirmed
  {
    var after := records[id := Unsubscribing(records[id], t1)];
    assert UniqueEmails(after);
    SubscriptionOfKnown(after, nextId, records[id].email, t2, id);
  }
}
