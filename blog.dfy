/** The article store and the blog admin actions: `createArticle`, `togglePublish` and
    `deleteArticle`, the row action of the admin list, and the list order (most recently
    updated first). Every store call may fail instead of answering. */
module Blog {
  import opened Common
  import opened Text
  import opened Slug
  import opened Schema
  import opened Validation
  import opened Allocation
  import opened Listing

  datatype Article = Article(
    slug: string, title: string, description: Option<string>, content: string,
    tags: seq<string>, language: Language, published: bool, publishedAt: Option<int>,
    updatedAt: int)

  /** A publication time exactly for published articles. */
  predicate WellFormed(a: Article) {
    a.published <==> a.publishedAt.Some?
  }

  /** The record `createArticle` inserts: the parsed fields with the allocated slug, as a
      draft. */
  function NewArticle(p: ArticleInput, slug: string, now: int): (a: Article)
    ensures WellFormed(a) && !a.published
    ensures a.slug == slug && a.title == p.title && a.description == p.description
            && a.content == p.content && a.tags == p.tags && a.language == p.language
  {
    Article(slug, p.title, p.description, p.content, p.tags, p.language, false, None, now)
  }

  /** The update `togglePublish(id, published)` applies to one article, with `updatedAt`
      moved to now as on every store update. */
  function Toggled(a: Article, published: bool, now: int): (r: Article)
    ensures r.published == published && (r.publishedAt.Some? <==> published)
    ensures r.updatedAt == now
    ensures published ==> r.publishedAt == Some(now)
    ensures r.(published := a.published, publishedAt := a.publishedAt, updatedAt := a.updatedAt) == a
    ensures WellFormed(r)
  {
    a.(published := published, publishedAt := if published then Some(now) else None,
       updatedAt := now)
  }

  /** The row action passes `!article.published`. */
  function ToggleArgument(a: Article): (p: bool)
    ensures p != a.published
  {
    !a.published
  }

  datatype CreateOutcome =
    | Created(id: nat, slug: string)
    | Rejected(message: Message)
    | StoreFailed
    | Exhausted

  class ArticleStore {
    var items: map<nat, Article>
    var nextId: nat

    /** Ids below the next fresh one, slugs unique, every article well formed. */
    ghost predicate Valid()
      reads this
    {
      && (forall id :: id in items ==> id < nextId)
      && (forall a, b :: a in items && b in items && items[a].slug == items[b].slug ==> a == b)
      && (forall id :: id in items ==> WellFormed(items[id]))
    }

    function Slugs(): set<string>
      reads this
    {
      set id | id in items :: items[id].slug
    }

    constructor()
      ensures Valid() && items == map[] && nextId == 0
    {
      items := map[];
      nextId := 0;
    }

    /** Inserts an article under a fresh id, or fails without writing. */
    method Insert(a: Article) returns (id: Option<nat>)
      requires Valid() && WellFormed(a) && a.slug !in Slugs()
      modifies this
      ensures Valid()
      ensures id.Some? ==> id.value == old(nextId) && nextId == old(nextId) + 1
                           && items == old(items)[id.value := a]
      ensures id.None? ==> items == old(items) && nextId == old(nextId)
    {
      var fails: bool := *;
      if fails {
        return None;
      }
      id := Some(nextId);
      items := items[nextId := a];
      nextId := nextId + 1;
    }

    /** `createArticle(data)` */
    method CreateArticle(data: Value, now: int, fuel: nat) returns (r: CreateOutcome)
      requires Valid()
      modifies this
      ensures Valid()
      ensures !r.Created? ==> items == old(items) && nextId == old(nextId)
      ensures ParseArticleInput(data).Failure? ==> r == Rejected(ParseArticleInput(data).error)
      ensures ParseArticleInput(data).Success? && Slugify(ParseArticleInput(data).value.slug) == [] ==>
                r == Rejected(Says("Slug is required"))
      ensures r.Created? ==>
        && ParseArticleInput(data).Success?
        && r.id == old(nextId) && nextId == old(nextId) + 1
        && items == old(items)[r.id := NewArticle(ParseArticleInput(data).value, r.slug, now)]
        && r.slug !in old(Slugs())
        && IsSlug(r.slug) && r.slug != [] && HasDigitSuffix(r.slug)
        && StripDigitSuffix(r.slug) == Prefix(Slugify(ParseArticleInput(data).value.slug))
      ensures r.Created? && HasDigitSuffix(Slugify(ParseArticleInput(data).value.slug))
              && Slugify(ParseArticleInput(data).value.slug) !in old(Slugs()) ==>
                r.slug == Slugify(ParseArticleInput(data).value.slug)
    {
      var parsed := ParseArticleInput(data);
      if parsed.Failure? {
        return Rejected(parsed.error);
      }
      var p := parsed.value;
      var baseInput := if p.slug != [] then p.slug else p.title;
      var normalised := Slugify(baseInput);
      if normalised == [] {
        return Rejected(Says("Slug is required"));
      }
      SlugifyIsSlug(baseInput);
      var digits := RandomDigits(4);
      var baseSlug := BaseSlug(normalised, digits);
      BaseSlugShape(normalised, digits);
      var probe := FindFreeSlug(baseSlug, Slugs(), fuel);
      match probe {
        case LookupFailed => return StoreFailed;
        case OutOfFuel => return Exhausted;
        case Free(slug) =>
          CandidateShape(baseSlug, slug);
          var id := Insert(NewArticle(p, slug, now));
          if id.None? {
            return StoreFailed;
          }
          return Created(id.value, slug);
      }
    }

    /** `togglePublish(id, published)`: updating a missing id throws. */
    method TogglePublish(id: nat, published: bool, now: int) returns (ok: bool)
      requires Valid()
      modifies this
      ensures Valid() && nextId == old(nextId)
      ensures ok ==> id in old(items) && items == old(items)[id := Toggled(old(items)[id], published, now)]
      ensures !ok ==> items == old(items)
      ensures id !in old(items) ==> !ok
    {
      var fails: bool := *;
      if fails || id !in items {
        return false;
      }
      items := items[id := Toggled(items[id], published, now)];
      ok := true;
    }

    /** `deleteArticle(id)`: deleting a missing id throws. */
    method DeleteArticle(id: nat) returns (ok: bool)
      requires Valid()
      modifies this
      ensures Valid() && nextId == old(nextId)
      ensures ok ==> id in old(items) && items == old(items) - {id}
      ensures !ok ==> items == old(items)
      ensures id !in old(items) ==> !ok
    {
      var fails: bool := *;
      if fails || id !in items {
        return false;
      }
      items := items - {id};
      ok := true;
    }

    /** The admin list: every id once, most recently updated first. */
    method List() returns (ids: seq<nat>)
      ensures multiset(ids) == multiset(items.Keys)
      ensures forall i :: 0 <= i < |ids| ==> ids[i] in items
      ensures forall i, j :: 0 <= i < j < |ids| ==> items[ids[i]].updatedAt >= items[ids[j]].updatedAt
    {
      ids := OrderedIds(items, (a: Article) => a.updatedAt);
    }
  }

  /** A click on the row action flips the flag, and a second click flips it back. */
  lemma ClickTwiceRestores(a: Article, t1: int, t2: int)
    ensures Toggled(a, ToggleArgument(a), t1).published == !a.published
    ensures var b := Toggled(a, ToggleArgument(a), t1);
            Toggled(b, ToggleArgument(b), t2).published == a.published
  {
  }

  /** Publishing again moves the publication time to the newer publish. */
  lemma RepublishOverwritesTime(a: Article, t1: int, t2: int)
    requires a.published
    ensures Toggled(Toggled(a, true, t1), true, t2).publishedAt == Some(t2)
  {
  }
}
