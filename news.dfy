/** The news store and the news admin actions: `createNews` (parse, normalise the slug,
    allocate a free one, insert), `togglePublish` and `deleteNews`, the row actions of the
    admin list, and the list order. Records are keyed by id; every store call may fail
    instead of answering. */
module News {
  import opened Common
  import opened Text
  import opened Slug
  import opened Schema
  import opened Validation
  import opened Allocation
  import opened Listing

  /** A news item. Times are milliseconds; `None` is a null column. */
  datatype NewsItem = NewsItem(
    slug: string, title: string, summary: Option<string>, content: string,
    language: Language, published: bool, publishedAt: Option<int>,
    emailSent: bool, emailSentAt: Option<int>, updatedAt: int)

  /** A publication time exactly for published items, a send time exactly for sent ones. */
  predicate WellFormed(n: NewsItem) {
    && (n.published <==> n.publishedAt.Some?)
    && (n.emailSent <==> n.emailSentAt.Some?)
  }

  /** The record `createNews` inserts: the parsed fields with the allocated slug, as a draft
      that has not been mailed. */
  function NewItem(p: NewsInput, slug: string, now: int): (n: NewsItem)
    ensures WellFormed(n) && !n.published && !n.emailSent
    ensures n.slug == slug && n.title == p.title && n.summary == p.summary
            && n.content == p.content && n.language == p.language
  {
    NewsItem(slug, p.title, p.summary, p.content, p.language, false, None, false, None, now)
  }

  /** The update `togglePublish(id, published)` applies to one record, with `updatedAt`
      moved to now as on every store update. */
  function Toggled(n: NewsItem, published: bool, now: int): (r: NewsItem)
    ensures r.published == published && (r.publishedAt.Some? <==> published)
    ensures r.updatedAt == now
    ensures published ==> r.publishedAt == Some(now)
    ensures r.emailSent == n.emailSent && r.emailSentAt == n.emailSentAt
    ensures r.(published := n.published, publishedAt := n.publishedAt, updatedAt := n.updatedAt) == n
    ensures WellFormed(n) ==> WellFormed(r)
  {
    n.(published := published, publishedAt := if published then Some(now) else None,
       updatedAt := now)
  }

  /** The update the send route makes after the last mail: `{ emailSent: true,
      emailSentAt: now }`, with `updatedAt` moved to now as on every store update. */
  function Mailed(n: NewsItem, now: int): (r: NewsItem)
    ensures r.emailSent && r.emailSentAt == Some(now) && r.updatedAt == now
    ensures r.published == n.published && r.publishedAt == n.publishedAt
    ensures r.(emailSent := n.emailSent, emailSentAt := n.emailSentAt, updatedAt := n.updatedAt) == n
    ensures WellFormed(n) ==> WellFormed(r)
  {
    n.(emailSent := true, emailSentAt := Some(now), updatedAt := now)
  }

  /** What one row of the admin list offers. */
  datatype RowActions = RowActions(
    toggleTo: bool, toggleLabel: string, statusLabel: string, emailLabel: string,
    sendOffered: bool)

  function Actions(n: NewsItem): (a: RowActions)
    ensures a.toggleTo == !n.published
    ensures a.sendOffered <==> n.published
  {
    RowActions(!n.published, if n.published then "Unpublish" else "Publish",
               if n.published then "Published" else "Draft",
               if n.emailSent then "Sent" else "Not sent", n.published)
  }

  /** How `createNews` ends: the new record's id and slug, an error thrown with a message,
      an error thrown by the store, or (only in the model) the probing fuel used up. */
  datatype CreateOutcome =
    | Created(id: nat, slug: string)
    | Rejected(message: Message)
    | StoreFailed
    | Exhausted

  class NewsStore {
    var items: map<nat, NewsItem>
    var nextId: nat

    /** Ids below the next fresh one, slugs unique, every record well formed. */
    ghost predicate Valid()
      reads this
    {
      && (forall id :: id in items ==> id < nextId)
      && (forall a, b :: a in items && b in items && items[a].slug == items[b].slug ==> a == b)
      && (forall id :: id in items ==> WellFormed(items[id]))
    }

    function Slugs(): set<string>
      reads this
    {
      set id | id in items :: items[id].slug
    }

    constructor()
      ensures Valid() && items == map[] && nextId == 0
    {
      items := map[];
      nextId := 0;
    }

    /** Inserts a record under a fresh id, or fails without writing. */
    method Insert(n: NewsItem) returns (id: Option<nat>)
      requires Valid() && WellFormed(n) && n.slug !in Slugs()
      modifies this
      ensures Valid()
      ensures id.Some? ==> id.value == old(nextId) && nextId == old(nextId) + 1
                           && items == old(items)[id.value := n]
      ensures id.None? ==> items == old(items) && nextId == old(nextId)
    {
      var fails: bool := *;
      if fails {
        return None;
      }
      id := Some(nextId);
      items := items[nextId := n];
      nextId := nextId + 1;
    }

    /** `createNews(data)` */
    method CreateNews(data: Value, now: int, fuel: nat) returns (r: CreateOutcome)
      requires Valid()
      modifies this
      ensures Valid()
      ensures !r.Created? ==> items == old(items) && nextId == old(nextId)
      ensures ParseNewsInput(data).Failure? ==> r == Rejected(ParseNewsInput(data).error)
      ensures ParseNewsInput(data).Success? && Slugify(ParseNewsInput(data).value.slug) == [] ==>
                r == Rejected(Says("Slug is required"))
      ensures r.Created? ==>
        && ParseNewsInput(data).Success?
        && r.id == old(nextId) && nextId == old(nextId) + 1
        && items == old(items)[r.id := NewItem(ParseNewsInput(data).value, r.slug, now)]
        && r.slug !in old(Slugs())
        && IsSlug(r.slug) && r.slug != [] && HasDigitSuffix(r.slug)
        && StripDigitSuffix(r.slug) == Prefix(Slugify(ParseNewsInput(data).value.slug))
      ensures r.Created? && HasDigitSuffix(Slugify(ParseNewsInput(data).value.slug))
              && Slugify(ParseNewsInput(data).value.slug) !in old(Slugs()) ==>
                r.slug == Slugify(ParseNewsInput(data).value.slug)
    {
      var parsed := ParseNewsInput(data);
      if parsed.Failure? {
        return Rejected(parsed.error);
      }
      var p := parsed.value;
      var baseInput := if p.slug != [] then p.slug else p.title;
      var normalised := Slugify(baseInput);
      if normalised == [] {
        return Rejected(Says("Slug is required"));
      }
      SlugifyIsSlug(baseInput);
      var digits := RandomDigits(4);
      var baseSlug := BaseSlug(normalised, digits);
      BaseSlugShape(normalised, digits);
      var probe := FindFreeSlug(baseSlug, Slugs(), fuel);
      match probe {
        case LookupFailed => return StoreFailed;
        case OutOfFuel => return Exhausted;
        case Free(slug) =>
          CandidateShape(baseSlug, slug);
          var id := Insert(NewItem(p, slug, now));
          if id.None? {
            return StoreFailed;
          }
          return Created(id.value, slug);
      }
    }

    /** `togglePublish(id, published)`: updating a missing id throws. */
    method TogglePublish(id: nat, published: bool, now: int) returns (ok: bool)
      requires Valid()
      modifies this
      ensures Valid() && nextId == old(nextId)
      ensures ok ==> id in old(items) && items == old(items)[id := Toggled(old(items)[id], published, now)]
      ensures !ok ==> items == old(items)
      ensures id !in old(items) ==> !ok
    {
      var fails: bool := *;
      if fails || id !in items {
        return false;
      }
      items := items[id := Toggled(items[id], published, now)];
      ok := true;
    }

    /** `deleteNews(id)`: deleting a missing id throws. */
    method DeleteNews(id: nat) returns (ok: bool)
      requires Valid()
      modifies this
      ensures Valid() && nextId == old(nextId)
      ensures ok ==> id in old(items) && items == old(items) - {id}
      ensures !ok ==> items == old(items)
      ensures id !in old(items) ==> !ok
    {
      var fails: bool := *;
      if fails || id !in items {
        return false;
      }
      items := items - {id};
      ok := true;
    }

    /** `update({ where: { id }, data: { emailSent: true, emailSentAt: now } })` */
    method MarkSent(id: nat, now: int) returns (ok: bool)
      requires Valid()
      modifies this
      ensures Valid() && nextId == old(nextId)
      ensures ok ==> id in old(items)
                     && items == old(items)[id := Mailed(old(items)[id], now)]
      ensures !ok ==> items == old(items)
      ensures id !in old(items) ==> !ok
    {
      var fails: bool := *;
      if fails || id !in items {
        return false;
      }
      items := items[id := Mailed(items[id], now)];
      ok := true;
    }

    /** The admin list: every id once, most recently updated first. */
    method List() returns (ids: seq<nat>)
      ensures multiset(ids) == multiset(items.Keys)
      ensures forall i :: 0 <= i < |ids| ==> ids[i] in items
      ensures forall i, j :: 0 <= i < j < |ids| ==> items[ids[i]].updatedAt >= items[ids[j]].updatedAt
    {
      ids := OrderedIds(items, (n: NewsItem) => n.updatedAt);
    }
  }

  // Properties of the actions

  /** The row action passes the negation of the current flag, so a click flips it. */
  lemma ClickFlipsPublished(n: NewsItem, now: int)
    ensures Toggled(n, Actions(n).toggleTo, now).published == !n.published
  {
  }

  /** Unpublishing and publishing again keeps the sent flag, so it cannot re-enable a send,
      and the publication time is the time of the last publish. */
  lemma RepublishKeepsSent(n: NewsItem, t1: int, t2: int)
    ensures Toggled(Toggled(n, false, t1), true, t2).emailSent == n.emailSent
    ensures Toggled(Toggled(n, false, t1), true, t2).publishedAt == Some(t2)
  {
  }

  /** A parsed slug is never empty, so `parsed.slug || parsed.title` always takes the slug. */
  lemma TitleFallbackNeverTaken(data: Value)
    requires ParseNewsInput(data).Success?
    ensures ParseNewsInput(data).value.slug != []
  {
  }
}
