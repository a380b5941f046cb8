/** The declarative request schemas: subscribe (an email), article and news create/update,
    and the publish toggle. Every field check runs and reports its issues in field order;
    the email grammar is a parameter `isEmail`. String lengths count characters. */
module Validators {
  import opened Common
  import opened Text
  import opened Slug
  import opened Schema

  const SlugRequired := "Slug is required"
  const SlugFormat := "Slug can only contain lowercase letters, numbers, and hyphens"
  const TitleRequired := "Title is required"
  const TitleTooLong := "Title must be less than 200 characters"
  const ContentRequired := "Content is required"
  const InvalidEmail := "Invalid email address"

  /** The `max(200, …)` bound on titles */
  const MaxTitleLength := 200

  /** `/^[a-z0-9-]+$/.test(s)`, written as the regular expression reads: one slug character,
      then the rest of the string matching the same `+` loop or ending there. */
  predicate MatchesSlugPattern(s: string)
    decreases |s|
  {
    |s| >= 1 && IsSlugChar(s[0]) && (|s| == 1 || MatchesSlugPattern(s[1..]))
  }

  /** The pattern accepts exactly the non-empty strings over `[a-z0-9-]`. */
  lemma {:induction false} SlugPatternMeaning(s: string)
    ensures MatchesSlugPattern(s) <==> |s| >= 1 && AllSlugChars(s)
    decreases |s|
  {
    if |s| > 1 {
      SlugPatternMeaning(s[1..]);
      assert AllSlugChars(s) <==> IsSlugChar(s[0]) && AllSlugChars(s[1..]) by {
        if IsSlugChar(s[0]) && AllSlugChars(s[1..]) {
          forall i | 0 <= i < |s| ensures IsSlugChar(s[i]) {
            if i > 0 {
              assert s[i] == s[1..][i - 1];
            }
          }
        }
      }
    }
  }

  /** `z.string().min(1, 'Slug is required').regex(/^[a-z0-9-]+$/, …)`: both checks run, so
      an empty slug reports both messages. */
  function SlugRule(v: Option<Value>): (r: Check<string>)
    ensures r.Valid? <==> v.Some? && v.value.Str? && |v.value.s| >= 1 && AllSlugChars(v.value.s)
    ensures r.Valid? ==> r.value == v.value.s
    ensures v == Some(Str("")) ==> r == Invalid([Says(SlugRequired), Says(SlugFormat)])
    ensures r.Invalid? && v.Some? && v.value.Str? && v.value.s != [] ==> r == Invalid([Says(SlugFormat)])
    ensures r.Invalid? ==> |r.issues| >= 1
  {
    if v.Some? && v.value.Str? then
      var s := v.value.s;
      SlugPatternMeaning(s);
      var issues := (if |s| < 1 then [Says(SlugRequired)] else [])
                    + (if !MatchesSlugPattern(s) then [Says(SlugFormat)] else []);
      if issues == [] then Valid(s) else Invalid(issues)
    else Invalid([LibraryMessage("slug")])
  }

  /** `z.string().min(1, 'Title is required').max(200, …)` */
  function TitleRule(v: Option<Value>): (r: Check<string>)
    ensures r.Valid? <==> v.Some? && v.value.Str? && 1 <= |v.value.s| <= MaxTitleLength
    ensures r.Valid? ==> r.value == v.value.s
    ensures r.Invalid? && v.Some? && v.value.Str? && v.value.s == [] ==> r.issues == [Says(TitleRequired)]
    ensures r.Invalid? && v.Some? && v.value.Str? && |v.value.s| > MaxTitleLength ==>
              r.issues == [Says(TitleTooLong)]
    ensures r.Invalid? ==> |r.issues| >= 1
  {
    if v.Some? && v.value.Str? then
      var s := v.value.s;
      var issues := (if |s| < 1 then [Says(TitleRequired)] else [])
                    + (if |s| > MaxTitleLength then [Says(TitleTooLong)] else []);
      if issues == [] then Valid(s) else Invalid(issues)
    else Invalid([LibraryMessage("title")])
  }

  /** `z.string().min(1, 'Content is required')` */
  function ContentRule(v: Option<Value>): (r: Check<string>)
    ensures r.Valid? <==> v.Some? && v.value.Str? && |v.value.s| >= 1
    ensures r.Valid? ==> r.value == v.value.s
    ensures r.Invalid? && v.Some? && v.value.Str? ==> r.issues == [Says(ContentRequired)]
    ensures r.Invalid? ==> |r.issues| >= 1
  {
    if v.Some? && v.value.Str? then
      if |v.value.s| >= 1 then Valid(v.value.s) else Invalid([Says(ContentRequired)])
    else Invalid([LibraryMessage("content")])
  }

  datatype ArticleCreate = ArticleCreate(
    slug: string, title: string, description: Option<string>, content: string,
    tags: seq<string>, language: Language)

  datatype NewsCreate = NewsCreate(
    slug: string, title: string, summary: Option<string>, content: string, language: Language)

  /** `articleCreateSchema.safeParse(v)`: the parsed record, or every issue in field order. */
  function ArticleCreateSchema(v: Value): (r: Result<ArticleCreate, seq<Message>>)
    ensures r.Success? <==>
      && v.Object?
      && SlugRule(Field(v, "slug")).Valid?
      && TitleRule(Field(v, "title")).Valid?
      && PlainOptional(Field(v, "description"), "description").Valid?
      && ContentRule(Field(v, "content")).Valid?
      && StringArrayDefaultEmpty(Field(v, "tags"), "tags", false).Valid?
      && LanguageEnum(Field(v, "language"), "language", true).Valid?
    ensures r.Success? ==>
      && r.value.slug == Field(v, "slug").value.s
      && r.value.title == Field(v, "title").value.s
      && r.value.content == Field(v, "content").value.s
      && r.value.description == (if Field(v, "description").Some?
                                 then Some(Field(v, "description").value.s) else None)
      && (Field(v, "tags").None? ==> r.value.tags == [])
      && (Field(v, "tags").Some? ==>
            |r.value.tags| == |Field(v, "tags").value.items| &&
            forall i :: 0 <= i < |r.value.tags| ==> r.value.tags[i] == Field(v, "tags").value.items[i].s)
      && r.value.language == (if Field(v, "language") == Some(Str("EN")) then EN else ES)
    ensures r.Failure? ==> |r.error| >= 1
  {
    if !v.Object? then Failure([LibraryMessage("")])
    else
      var slug := SlugRule(Field(v, "slug"));
      var title := TitleRule(Field(v, "title"));
      var description := PlainOptional(Field(v, "description"), "description");
      var content := ContentRule(Field(v, "content"));
      var tags := StringArrayDefaultEmpty(Field(v, "tags"), "tags", false);
      var language := LanguageEnum(Field(v, "language"), "language", true);
      if slug.Valid? && title.Valid? && description.Valid? && content.Valid? && tags.Valid?
         && language.Valid?
      then
        Success(ArticleCreate(slug.value, title.value, description.value, content.value,
                              tags.value, language.value))
      else
        assert !slug.Valid? ==> |IssuesOf(slug)| >= 1;
        assert !title.Valid? ==> |IssuesOf(title)| >= 1;
        assert !content.Valid? ==> |IssuesOf(content)| >= 1;
        Failure(IssuesOf(slug) + IssuesOf(title) + IssuesOf(description) + IssuesOf(content)
                + IssuesOf(tags) + IssuesOf(language))
  }

  /** `newsCreateSchema.safeParse(v)` */
  function NewsCreateSchema(v: Value): (r: Result<NewsCreate, seq<Message>>)
    ensures r.Success? <==>
      && v.Object?
      && SlugRule(Field(v, "slug")).Valid?
      && TitleRule(Field(v, "title")).Valid?
      && PlainOptional(Field(v, "summary"), "summary").Valid?
      && ContentRule(Field(v, "content")).Valid?
      && LanguageEnum(Field(v, "language"), "language", true).Valid?
    ensures r.Success? ==>
      && r.value.slug == Field(v, "slug").value.s
      && r.value.title == Field(v, "title").value.s
      && r.value.content == Field(v, "content").value.s
      && r.value.summary == (if Field(v, "summary").Some?
                             then Some(Field(v, "summary").value.s) else None)
      && r.value.language == (if Field(v, "language") == Some(Str("EN")) then EN else ES)
    ensures r.Failure? ==> |r.error| >= 1
  {
    if !v.Object? then Failure([LibraryMessage("")])
    else
      var slug := SlugRule(Field(v, "slug"));
      var title := TitleRule(Field(v, "title"));
      var summary := PlainOptional(Field(v, "summary"), "summary");
      var content := ContentRule(Field(v, "content"));
      var language := LanguageEnum(Field(v, "language"), "language", true);
      if slug.Valid? && title.Valid? && summary.Valid? && content.Valid? && language.Valid? then
        Success(NewsCreate(slug.value, title.value, summary.value, content.value, language.value))
      else
        assert !slug.Valid? ==> |IssuesOf(slug)| >= 1;
        assert !title.Valid? ==> |IssuesOf(title)| >= 1;
        assert !content.Valid? ==> |IssuesOf(content)| >= 1;
        Failure(IssuesOf(slug) + IssuesOf(title) + IssuesOf(summary) + IssuesOf(content)
                + IssuesOf(language))
  }

  /** A field of a `.partial()` schema: absent, or present and passing its rule. */
  predicate PartialField<T>(v: Value, key: string, c: Check<T>)
  {
    Field(v, key).None? || c.Valid?
  }

  /** `articleUpdateSchema = articleCreateSchema.partial()`: every field is optional, and a
      field that is present must pass the rule it has in the create schema. */
  predicate ArticleUpdateAccepts(v: Value)
  {
    && v.Object?
    && PartialField(v, "slug", SlugRule(Field(v, "slug")))
    && PartialField(v, "title", TitleRule(Field(v, "title")))
    && PartialField(v, "description", PlainOptional(Field(v, "description"), "description"))
    && PartialField(v, "content", ContentRule(Field(v, "content")))
    && PartialField(v, "tags", StringArrayDefaultEmpty(Field(v, "tags"), "tags", false))
    && PartialField(v, "language", LanguageEnum(Field(v, "language"), "language", true))
  }

  /** `newsUpdateSchema = newsCreateSchema.partial()` */
  predicate NewsUpdateAccepts(v: Value)
  {
    && v.Object?
    && PartialField(v, "slug", SlugRule(Field(v, "slug")))
    && PartialField(v, "title", TitleRule(Field(v, "title")))
    && PartialField(v, "summary", PlainOptional(Field(v, "summary"), "summary"))
    && PartialField(v, "content", ContentRule(Field(v, "content")))
    && PartialField(v, "language", LanguageEnum(Field(v, "language"), "language", true))
  }

  /** `subscribeSchema.safeParse(v)`: the email, or the issue that rejects it. For an object
      body, the message given to `z.email(...)` is the message of every issue at the email
      field, a missing or non-string email included; a body that is not an object fails the
      `z.object` type check itself, with the library's message at the root. */
  function SubscribeSchema(v: Value, isEmail: string -> bool): (r: Check<string>)
    ensures r.Valid? <==> Field(v, "email").Some? && Field(v, "email").value.Str?
                          && isEmail(Field(v, "email").value.s)
    ensures r.Valid? ==> r.value == Field(v, "email").value.s
    ensures r.Invalid? ==> r.issues == [if v.Object? then Says(InvalidEmail) else LibraryMessage("")]
  {
    if !v.Object? then Invalid([LibraryMessage("")])
    else
      var e := Field(v, "email");
      if e.Some? && e.value.Str? && isEmail(e.value.s) then Valid(e.value.s)
      else Invalid([Says(InvalidEmail)])
  }

  /** `publishToggleSchema.safeParse(v)` */
  function PublishToggleSchema(v: Value): (r: Check<bool>)
    ensures r.Valid? <==> Field(v, "published").Some? && Field(v, "published").value.Bool?
    ensures r.Valid? ==> r.value == Field(v, "published").value.b
  {
    var p := Field(v, "published");
    if p.Some? && p.value.Bool? then Valid(p.value.b) else Invalid([LibraryMessage("published")])
  }

  // Properties of the schemas

  /** A slug is accepted exactly when it is non-empty and every character is in `[a-z0-9-]`. */
  lemma SlugAcceptedIff(s: string)
    ensures SlugRule(Some(Str(s))).Valid? <==> |s| >= 1 && AllSlugChars(s)
  {
  }

  /** 'Test Article!' has an upper-case letter, a space and a '!', so it is rejected. */
  lemma TestArticleSlugRejected()
    ensures SlugRule(Some(Str("Test Article!"))) == Invalid([Says(SlugFormat)])
  {
    assert !IsSlugChar("Test Article!"[0]);
  }

  /** The length bound on titles is inclusive: 200 characters pass, 201 do not. */
  lemma TitleBoundInclusive(t: string)
    ensures |t| == MaxTitleLength ==> TitleRule(Some(Str(t))).Valid?
    ensures |t| == MaxTitleLength + 1 ==> TitleRule(Some(Str(t))) == Invalid([Says(TitleTooLong)])
  {
  }

  /** Every non-empty result of `slugify` passes the slug rule of the validators. */
  lemma SlugifyPassesSlugRule(input: string)
    requires Slugify(input) != []
    ensures SlugRule(Some(Str(Slugify(input)))).Valid?
  {
    SlugifyIsSlug(input);
  }

  /** An object without title or content is rejected by both create schemas. */
  lemma MissingTitleOrContentRejected(v: Value)
    requires v.Object? && (Field(v, "title").None? || Field(v, "content").None?)
    ensures ArticleCreateSchema(v).Failure? && NewsCreateSchema(v).Failure?
  {
  }

  /** Without a language field both create schemas choose ES; without tags, the article
      schema chooses the empty list. */
  lemma CreateDefaults(v: Value)
    requires ArticleCreateSchema(v).Success? && Field(v, "language").None? && Field(v, "tags").None?
    ensures ArticleCreateSchema(v).value.language == ES && ArticleCreateSchema(v).value.tags == []
  {
  }

  /** A language other than "ES" or "EN" is rejected even though the field has a default. */
  lemma UnknownLanguageRejected(v: Value)
    requires v.Object? && Field(v, "language").Some?
    requires Field(v, "language") != Some(Str("ES")) && Field(v, "language") != Some(Str("EN"))
    ensures ArticleCreateSchema(v).Failure? && NewsCreateSchema(v).Failure?
  {
  }

  /** Whatever the create schema accepts, the update schema accepts too. */
  lemma CreateImpliesUpdate(v: Value)
    ensures ArticleCreateSchema(v).Success? ==> ArticleUpdateAccepts(v)
    ensures NewsCreateSchema(v).Success? ==> NewsUpdateAccepts(v)
  {
  }

  /** A single valid field is enough for the update schemas, and so is the empty object. */
  lemma UpdateAcceptsSingleField(key: string, value: Value)
    requires (key == "title" && TitleRule(Some(value)).Valid?)
             || (key == "summary" && value.Str?)
    ensures key == "title" ==> ArticleUpdateAccepts(Object(map[key := value]))
    ensures NewsUpdateAccepts(Object(map[key := value]))
    ensures ArticleUpdateAccepts(Object(map[])) && NewsUpdateAccepts(Object(map[]))
  {
  }

  /** The fields of `v` whose keys are in `keys`. */
  function Restrict(v: Value, keys: set<string>): (r: Value)
    requires v.Object?
    ensures r.Object? && r.fields.Keys == v.fields.Keys * keys
    ensures forall k :: k in r.fields ==> r.fields[k] == v.fields[k]
  {
    Object(map k | k in v.fields && k in keys :: v.fields[k])
  }

  /** `.partial()`: any subset of the fields of an accepted article, the empty one included,
      is an accepted update. */
  lemma ArticleUpdateAcceptsSubset(v: Value, keys: set<string>)
    requires v.Object? && ArticleCreateSchema(v).Success?
    ensures ArticleUpdateAccepts(Restrict(v, keys))
  {
    var u := Restrict(v, keys);
    assert forall k :: Field(u, k) == (if k in keys then Field(v, k) else None);
  }

  /** The same for news: any subset of the fields of an accepted item is an accepted update. */
  lemma NewsUpdateAcceptsSubset(v: Value, keys: set<string>)
    requires v.Object? && NewsCreateSchema(v).Success?
    ensures NewsUpdateAccepts(Restrict(v, keys))
  {
    var u := Restrict(v, keys);
    assert forall k :: Field(u, k) == (if k in keys then Field(v, k) else None);
  }

  /** An object body without an email field is rejected whatever the email grammar says,
      with the email field's message. */
  lemma SubscribeRejectsMissingEmail(v: Value, isEmail: string -> bool)
    requires v.Object? && Field(v, "email").None?
    ensures SubscribeSchema(v, isEmail) == Invalid([Says(InvalidEmail)])
  {
  }

  /** A body that is not an object is rejected by the object check, not by the email rule. */
  lemma SubscribeRejectsNonObject(v: Value, isEmail: string -> bool)
    requires !v.Object?
    ensures SubscribeSchema(v, isEmail) == Invalid([LibraryMessage("")])
  {
  }
}
