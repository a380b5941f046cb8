/** `parseArticleInput` and `parseNewsInput`: the server-side parse of the admin forms.
    Slug, title and content are trimmed and must not be empty afterwards; the optional text
    field is trimmed when present; every tag is trimmed (empty tags are kept); the language
    must be exactly "ES" or "EN". On failure the thrown error carries the first issue's
    message, in field order. */
module Validation {
  import opened Common
  import opened Text
  import opened Schema

  datatype ArticleInput = ArticleInput(
    slug: string, title: string, description: Option<string>, content: string,
    tags: seq<string>, language: Language)

  datatype NewsInput = NewsInput(
    slug: string, title: string, summary: Option<string>, content: string, language: Language)

  const ArticleFallback := "Invalid article data"
  const NewsFallback := "Invalid news data"

  /** A string that is not empty once trimmed. */
  predicate TrimsNonEmpty(o: Option<Value>) {
    o.Some? && o.value.Str? && Trim(o.value.s) != []
  }

  /** Absent, or a string. */
  predicate OptionalString(o: Option<Value>) {
    o.None? || o.value.Str?
  }

  /** Absent, or an array whose elements are all strings. */
  predicate OptionalStringArray(o: Option<Value>) {
    o.None? || (o.value.Array? && forall i :: 0 <= i < |o.value.items| ==> o.value.items[i].Str?)
  }

  predicate IsLanguageTag(o: Option<Value>) {
    o == Some(Str("ES")) || o == Some(Str("EN"))
  }

  /** What `articleInputSchema` accepts, stated field by field. */
  predicate ArticleAcceptable(v: Value) {
    && v.Object?
    && TrimsNonEmpty(Field(v, "slug"))
    && TrimsNonEmpty(Field(v, "title"))
    && OptionalString(Field(v, "description"))
    && TrimsNonEmpty(Field(v, "content"))
    && OptionalStringArray(Field(v, "tags"))
    && IsLanguageTag(Field(v, "language"))
  }

  /** What `newsInputSchema` accepts, stated field by field. */
  predicate NewsAcceptable(v: Value) {
    && v.Object?
    && TrimsNonEmpty(Field(v, "slug"))
    && TrimsNonEmpty(Field(v, "title"))
    && OptionalString(Field(v, "summary"))
    && TrimsNonEmpty(Field(v, "content"))
    && IsLanguageTag(Field(v, "language"))
  }

  /** `issues[0]?.message ?? fallback` */
  function FirstMessage(issues: seq<Message>, fallback: string): Message
  {
    if |issues| > 0 then issues[0] else Says(fallback)
  }

  /** The issue a trimmed required field raises when it fails: its own message for a string
      that trims to "", the library's type message otherwise. */
  function RequiredIssue(o: Option<Value>, field: string, msg: string): Message
  {
    if o.Some? && o.value.Str? then Says(msg) else LibraryMessage(field)
  }

  /** The message `parseArticleInput` throws for an object it rejects: that of the first
      field that fails, in the order slug, title, description, content, tags, language. */
  function ArticleError(v: Value): Message
    requires v.Object? && !ArticleAcceptable(v)
  {
    if !TrimsNonEmpty(Field(v, "slug")) then RequiredIssue(Field(v, "slug"), "slug", "Slug is required")
    else if !TrimsNonEmpty(Field(v, "title")) then
      RequiredIssue(Field(v, "title"), "title", "Title is required")
    else if !OptionalString(Field(v, "description")) then LibraryMessage("description")
    else if !TrimsNonEmpty(Field(v, "content")) then
      RequiredIssue(Field(v, "content"), "content", "Content is required")
    else if !OptionalStringArray(Field(v, "tags")) then LibraryMessage("tags")
    else LibraryMessage("language")
  }

  /** The message `parseNewsInput` throws for an object it rejects, by the same rule over
      slug, title, summary, content, language. */
  function NewsError(v: Value): Message
    requires v.Object? && !NewsAcceptable(v)
  {
    if !TrimsNonEmpty(Field(v, "slug")) then RequiredIssue(Field(v, "slug"), "slug", "Slug is required")
    else if !TrimsNonEmpty(Field(v, "title")) then
      RequiredIssue(Field(v, "title"), "title", "Title is required")
    else if !OptionalString(Field(v, "summary")) then LibraryMessage("summary")
    else if !TrimsNonEmpty(Field(v, "content")) then
      RequiredIssue(Field(v, "content"), "content", "Content is required")
    else LibraryMessage("language")
  }

  /** The outcome of each field check of `articleInputSchema`, in the schema's field order. */
  datatype ArticleChecks = ArticleChecks(
    slug: Check<string>, title: Check<string>, description: Check<Option<string>>,
    content: Check<string>, tags: Check<seq<string>>, language: Check<Language>)
  {
    predicate AllValid() {
      slug.Valid? && title.Valid? && description.Valid? && content.Valid? && tags.Valid?
      && language.Valid?
    }

    function Issues(): seq<Message> {
      IssuesOf(slug) + (IssuesOf(title) + (IssuesOf(description) + (IssuesOf(content)
      + (IssuesOf(tags) + IssuesOf(language)))))
    }
  }

  /** The outcome of each field check of `newsInputSchema`, in the schema's field order. */
  datatype NewsChecks = NewsChecks(
    slug: Check<string>, title: Check<string>, summary: Check<Option<string>>,
    content: Check<string>, language: Check<Language>)
  {
    predicate AllValid() {
      slug.Valid? && title.Valid? && summary.Valid? && content.Valid? && language.Valid?
    }

    function Issues(): seq<Message> {
      IssuesOf(slug) + (IssuesOf(title) + (IssuesOf(summary) + (IssuesOf(content)
      + IssuesOf(language))))
    }
  }

  function CheckArticle(v: Value): ArticleChecks
  {
    ArticleChecks(
      TrimmedRequired(Field(v, "slug"), "slug", "Slug is required"),
      TrimmedRequired(Field(v, "title"), "title", "Title is required"),
      TrimmedOptional(Field(v, "description"), "description"),
      TrimmedRequired(Field(v, "content"), "content", "Content is required"),
      StringArrayDefaultEmpty(Field(v, "tags"), "tags", true),
      LanguageEnum(Field(v, "language"), "language", false))
  }

  function CheckNews(v: Value): NewsChecks
  {
    NewsChecks(
      TrimmedRequired(Field(v, "slug"), "slug", "Slug is required"),
      TrimmedRequired(Field(v, "title"), "title", "Title is required"),
      TrimmedOptional(Field(v, "summary"), "summary"),
      TrimmedRequired(Field(v, "content"), "content", "Content is required"),
      LanguageEnum(Field(v, "language"), "language", false))
  }

  /** The field checks pass together exactly when the object is acceptable, and when one
      fails there is at least one issue, the first of them from the first failing field. */
  lemma ArticleChecksMeaning(v: Value)
    requires v.Object?
    ensures CheckArticle(v).AllValid() <==> ArticleAcceptable(v)
    ensures !CheckArticle(v).AllValid() ==> |CheckArticle(v).Issues()| >= 1
    ensures !CheckArticle(v).AllValid() ==> CheckArticle(v).Issues()[0] == ArticleError(v)
    ensures !CheckArticle(v).AllValid() ==> CheckArticle(v).Issues()[0] != Says(ArticleFallback)
  {
    var c := CheckArticle(v);
    assert c.slug.Valid? <==> TrimsNonEmpty(Field(v, "slug"));
    assert c.title.Valid? <==> TrimsNonEmpty(Field(v, "title"));
    assert c.description.Valid? <==> OptionalString(Field(v, "description"));
    assert c.content.Valid? <==> TrimsNonEmpty(Field(v, "content"));
    var t := Field(v, "tags");
    assert c.tags.Valid? <==> OptionalStringArray(t) by {
      if t.Some? && t.value.Array? {
        assert c.tags == StringElements(t.value.items, "tags", true);
      }
    }
    assert c.language.Valid? <==> IsLanguageTag(Field(v, "language"));
    if !c.AllValid() {
      InvalidHasIssues(c.slug);
      InvalidHasIssues(c.title);
      InvalidHasIssues(c.description);
      InvalidHasIssues(c.content);
      InvalidHasIssues(c.tags);
      InvalidHasIssues(c.language);
      var issues := c.Issues();
      if !c.slug.Valid? {
        assert issues[0] == c.slug.issues[0]
               == RequiredIssue(Field(v, "slug"), "slug", "Slug is required");
      } else if !c.title.Valid? {
        assert issues[0] == c.title.issues[0]
               == RequiredIssue(Field(v, "title"), "title", "Title is required");
      } else if !c.description.Valid? {
        assert issues[0] == c.description.issues[0] == LibraryMessage("description");
      } else if !c.content.Valid? {
        assert issues[0] == c.content.issues[0]
               == RequiredIssue(Field(v, "content"), "content", "Content is required");
      } else if !c.tags.Valid? {
        assert issues[0] == c.tags.issues[0] == LibraryMessage("tags");
      } else {
        assert issues[0] == c.language.issues[0] == LibraryMessage("language");
      }
    }
  }

  /** The values the article field checks produce when they all pass. */
  lemma ArticleCheckValues(v: Value)
    requires ArticleAcceptable(v)
    ensures var c := CheckArticle(v);
      && c.slug.value == Trim(Field(v, "slug").value.s)
      && c.title.value == Trim(Field(v, "title").value.s)
      && c.content.value == Trim(Field(v, "content").value.s)
      && (Field(v, "description").None? ==> c.description.value.None?)
      && (Field(v, "description").Some? ==>
            c.description.value == Some(Trim(Field(v, "description").value.s)))
      && (Field(v, "tags").None? ==> c.tags.value == [])
      && (Field(v, "tags").Some? ==>
            |c.tags.value| == |Field(v, "tags").value.items| &&
            forall i :: 0 <= i < |c.tags.value| ==>
              c.tags.value[i] == Trim(Field(v, "tags").value.items[i].s))
      && (c.language.value == ES <==> Field(v, "language") == Some(Str("ES")))
  {
    ArticleChecksMeaning(v);
    var t := Field(v, "tags");
    if t.Some? {
      assert CheckArticle(v).tags == StringElements(t.value.items, "tags", true);
    }
  }

  lemma NewsChecksMeaning(v: Value)
    requires v.Object?
    ensures CheckNews(v).AllValid() <==> NewsAcceptable(v)
    ensures !CheckNews(v).AllValid() ==> |CheckNews(v).Issues()| >= 1
    ensures !CheckNews(v).AllValid() ==> CheckNews(v).Issues()[0] == NewsError(v)
    ensures !CheckNews(v).AllValid() ==> CheckNews(v).Issues()[0] != Says(NewsFallback)
  {
    var c := CheckNews(v);
    assert c.slug.Valid? <==> TrimsNonEmpty(Field(v, "slug"));
    assert c.title.Valid? <==> TrimsNonEmpty(Field(v, "title"));
    assert c.summary.Valid? <==> OptionalString(Field(v, "summary"));
    assert c.content.Valid? <==> TrimsNonEmpty(Field(v, "content"));
    assert c.language.Valid? <==> IsLanguageTag(Field(v, "language"));
    if !c.AllValid() {
      InvalidHasIssues(c.slug);
      InvalidHasIssues(c.title);
      InvalidHasIssues(c.summary);
      InvalidHasIssues(c.content);
      InvalidHasIssues(c.language);
      var issues := c.Issues();
      if !c.slug.Valid? {
        assert issues[0] == c.slug.issues[0]
               == RequiredIssue(Field(v, "slug"), "slug", "Slug is required");
      } else if !c.title.Valid? {
        assert issues[0] == c.title.issues[0]
               == RequiredIssue(Field(v, "title"), "title", "Title is required");
      } else if !c.summary.Valid? {
        assert issues[0] == c.summary.issues[0] == LibraryMessage("summary");
      } else if !c.content.Valid? {
        assert issues[0] == c.content.issues[0]
               == RequiredIssue(Field(v, "content"), "content", "Content is required");
      } else {
        assert issues[0] == c.language.issues[0] == LibraryMessage("language");
      }
    }
  }

  /** No issue message is the fallback text. */
  lemma NoFallbackIssue(issues: seq<Message>, fallback: string)
    requires forall i :: 0 <= i < |issues| ==> issues[i] != Says(fallback)
    requires |issues| >= 1
    ensures FirstMessage(issues, fallback) != Says(fallback)
  {
  }

  /** `parseArticleInput(input)` */
  function ParseArticleInput(v: Value): (r: Result<ArticleInput, Message>)
    ensures r.Success? <==> ArticleAcceptable(v)
    ensures r.Success? ==>
      && r.value.slug == Trim(Field(v, "slug").value.s) && r.value.slug != []
      && r.value.title == Trim(Field(v, "title").value.s) && r.value.title != []
      && r.value.content == Trim(Field(v, "content").value.s) && r.value.content != []
      && (Field(v, "description").None? ==> r.value.description.None?)
      && (Field(v, "description").Some? ==>
            r.value.description == Some(Trim(Field(v, "description").value.s)))
      && (Field(v, "tags").None? ==> r.value.tags == [])
      && (Field(v, "tags").Some? ==>
            |r.value.tags| == |Field(v, "tags").value.items| &&
            forall i :: 0 <= i < |r.value.tags| ==>
              r.value.tags[i] == Trim(Field(v, "tags").value.items[i].s))
      && (r.value.language == ES <==> Field(v, "language") == Some(Str("ES")))
    ensures r.Failure? ==> r.error != Says(ArticleFallback)
    ensures r.Failure? && v.Object? ==> r.error == ArticleError(v)
    ensures !v.Object? ==> r == Failure(LibraryMessage(""))
  {
    if !v.Object? then Failure(FirstMessage([LibraryMessage("")], ArticleFallback))
    else
      var c := CheckArticle(v);
      ArticleChecksMeaning(v);
      if c.AllValid() then
        ArticleCheckValues(v);
        Success(ArticleInput(c.slug.value, c.title.value, c.description.value, c.content.value,
                             c.tags.value, c.language.value))
      else
        Failure(FirstMessage(c.Issues(), ArticleFallback))
  }

  /** `parseNewsInput(input)` */
  function ParseNewsInput(v: Value): (r: Result<NewsInput, Message>)
    ensures r.Success? <==> NewsAcceptable(v)
    ensures r.Success? ==>
      && r.value.slug == Trim(Field(v, "slug").value.s) && r.value.slug != []
      && r.value.title == Trim(Field(v, "title").value.s) && r.value.title != []
      && r.value.content == Trim(Field(v, "content").value.s) && r.value.content != []
      && (Field(v, "summary").None? ==> r.value.summary.None?)
      && (Field(v, "summary").Some? ==>
            r.value.summary == Some(Trim(Field(v, "summary").value.s)))
      && (r.value.language == ES <==> Field(v, "language") == Some(Str("ES")))
    ensures r.Failure? ==> r.error != Says(NewsFallback)
    ensures r.Failure? && v.Object? ==> r.error == NewsError(v)
    ensures !v.Object? ==> r == Failure(LibraryMessage(""))
  {
    if !v.Object? then Failure(FirstMessage([LibraryMessage("")], NewsFallback))
    else
      var c := CheckNews(v);
      NewsChecksMeaning(v);
      if c.AllValid() then
        Success(NewsInput(c.slug.value, c.title.value, c.summary.value, c.content.value,
                          c.language.value))
      else
        Failure(FirstMessage(c.Issues(), NewsFallback))
  }

  /** Whitespace-only text in a required field is rejected. */
  lemma WhitespaceOnlyRejected(v: Value, field: string)
    requires v.Object? && field in {"slug", "title", "content"}
    requires Field(v, field).Some? && Field(v, field).value.Str?
    requires forall i :: 0 <= i < |Field(v, field).value.s| ==> IsWhitespace(Field(v, field).value.s[i])
    ensures ParseArticleInput(v).Failure? && ParseNewsInput(v).Failure?
  {
    TrimOfWhitespace(Field(v, field).value.s);
  }

  /** When slug, title and the optional text pass but the content is blank, both parsers
      throw 'Content is required'. */
  lemma BlankContentMessage(v: Value)
    requires v.Object? && TrimsNonEmpty(Field(v, "slug")) && TrimsNonEmpty(Field(v, "title"))
    requires OptionalString(Field(v, "description")) && OptionalString(Field(v, "summary"))
    requires Field(v, "content").Some? && Field(v, "content").value.Str?
    requires Trim(Field(v, "content").value.s) == []
    ensures ParseArticleInput(v) == Failure(Says("Content is required"))
    ensures ParseNewsInput(v) == Failure(Says("Content is required"))
  {
  }

  lemma {:induction false} TrimOfWhitespace(s: string)
    requires forall i :: 0 <= i < |s| ==> IsWhitespace(s[i])
    ensures Trim(s) == []
  {
    if s != [] {
      assert TrimStart(s) == [] by {
        TrimStartOfWhitespace(s);
      }
    }
  }

  lemma {:induction false} TrimStartOfWhitespace(s: string)
    requires forall i :: 0 <= i < |s| ==> IsWhitespace(s[i])
    ensures TrimStart(s) == []
    decreases |s|
  {
    if s != [] {
      TrimStartOfWhitespace(s[1..]);
    }
  }
}
