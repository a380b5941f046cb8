/** The article and news editing forms. A new form draws a 4-digit suffix once and, until the
    slug field is edited by hand, derives the slug from the title on every title edit; an
    existing record's form never derives it. The article form turns its comma-separated tag
    text into a list on submit. A failing submit shows the thrown message. */
module Forms {
  import opened Common
  import opened Text
  import opened Slug
  import opened Allocation

  // The auto-slug rule, shared by both forms

  /** `base ? `${base}-${initialSuffix}` : ''` with `base = slugify(title)` */
  function AutoSlug(title: string, suffix: string): string
  {
    var base := Slugify(title);
    if base != [] then WithSuffix(base, suffix) else []
  }

  /** The slug after the title is edited to `title`. */
  function SlugAfterTitleEdit(slug: string, title: string, isNew: bool, slugTouched: bool,
                              suffix: string): string
  {
    if !isNew || slugTouched then slug else AutoSlug(title, suffix)
  }

  /** A derived slug is empty exactly when the title has no letter or digit; otherwise it
      is a slug ending in '-' and the form's suffix, after the slugified title. */
  lemma AutoSlugShape(title: string, suffix: string)
    requires IsSuffixDigits(suffix)
    ensures AutoSlug(title, suffix) == [] <==> Slugify(title) == []
    ensures AutoSlug(title, suffix) != [] ==>
              var a := AutoSlug(title, suffix);
              && IsSlug(a) && HasDigitSuffix(a)
              && a[|a| - 4..] == suffix
              && StripDigitSuffix(a) == Slugify(title)
  {
    var base := Slugify(title);
    if base != [] {
      SlugifyIsSlug(title);
      SuffixKeepsSlug(base, suffix);
      StripWithSuffix(base, suffix);
      var a := WithSuffix(base, suffix);
      assert a[|a| - 4..] == suffix;
    }
  }

  /** Every title edit of one new form ends its slug in the same suffix. */
  lemma SuffixReused(t1: string, t2: string, suffix: string)
    requires IsSuffixDigits(suffix)
    requires AutoSlug(t1, suffix) != [] && AutoSlug(t2, suffix) != []
    ensures var a1 := AutoSlug(t1, suffix);
            var a2 := AutoSlug(t2, suffix);
            a1[|a1| - 4..] == a2[|a2| - 4..] == suffix
  {
    AutoSlugShape(t1, suffix);
    AutoSlugShape(t2, suffix);
  }

  /** A derived slug submitted unchanged is kept by the create action: slugifying it
      changes nothing, and since it already ends in '-dddd' the first candidate is the
      slug itself, whatever digits the action draws. */
  lemma AutoSlugKeptByCreate(title: string, suffix: string, digits: string)
    requires IsSuffixDigits(suffix) && AutoSlug(title, suffix) != []
    ensures Slugify(AutoSlug(title, suffix)) == AutoSlug(title, suffix)
    ensures BaseSlug(Slugify(AutoSlug(title, suffix)), digits) == AutoSlug(title, suffix)
  {
    AutoSlugShape(title, suffix);
    SlugifyFixesSlugs(AutoSlug(title, suffix));
  }

  // Tags

  /** A tag the form can show and read back unchanged. */
  predicate CleanTag(t: string) {
    t != [] && ',' !in t && !IsWhitespace(t[0]) && !IsWhitespace(t[|t| - 1])
  }

  function TrimAll(pieces: seq<string>): (r: seq<string>)
    ensures |r| == |pieces|
  {
    seq(|pieces|, k requires 0 <= k < |pieces| => Trim(pieces[k]))
  }

  /** `.filter(Boolean)` on strings: the non-empty pieces, in order. */
  function DropEmpty(pieces: seq<string>): (r: seq<string>)
    ensures forall k :: 0 <= k < |r| ==> r[k] != []
  {
    if pieces == [] then []
    else if pieces[0] == [] then DropEmpty(pieces[1..])
    else [pieces[0]] + DropEmpty(pieces[1..])
  }

  /** `.filter(Boolean)` keeps every non-empty piece as often as it occurs and drops every
      empty one. */
  lemma {:induction false} DropEmptyCounts(pieces: seq<string>)
    ensures multiset(DropEmpty(pieces)) == multiset(pieces)[[] := 0]
    decreases |pieces|
  {
    if pieces != [] {
      DropEmptyCounts(pieces[1..]);
      assert pieces == [pieces[0]] + pieces[1..];
    }
  }

  /** `.filter` keeps the order: filtering a concatenation filters each part. */
  lemma {:induction false} DropEmptyKeepsOrder(a: seq<string>, b: seq<string>)
    ensures DropEmpty(a + b) == DropEmpty(a) + DropEmpty(b)
    decreases |a|
  {
    if a == [] {
      assert a + b == b;
    } else {
      var rest := a[1..];
      var head := if a[0] == [] then [] else [a[0]];
      assert DropEmpty(a + b) == head + DropEmpty(rest + b) by {
        assert a + b == [a[0]] + (rest + b);
        DropEmptyCons(a[0], rest + b);
      }
      assert DropEmpty(a) == head + DropEmpty(rest) by {
        assert a == [a[0]] + rest;
        DropEmptyCons(a[0], rest);
      }
      DropEmptyKeepsOrder(rest, b);
      assert head + (DropEmpty(rest) + DropEmpty(b)) == (head + DropEmpty(rest)) + DropEmpty(b);
    }
  }

  /** The first piece is kept exactly when it is non-empty, and the rest is filtered. */
  lemma DropEmptyCons(t: string, rest: seq<string>)
    ensures DropEmpty([t] + rest) == (if t == [] then [] else [t]) + DropEmpty(rest)
  {
    assert ([t] + rest)[1..] == rest;
  }

  /** `tags.split(',').map((t) => t.trim()).filter(Boolean)` */
  function ParseTags(text: string): seq<string>
  {
    DropEmpty(TrimAll(Split(text, ',')))
  }

  /** `tags.join(', ')`, the text the form starts from. */
  function ShowTags(tags: seq<string>): string
  {
    Join(tags, ", ")
  }

  /** A non-empty trimmed piece of a comma split is a clean tag. */
  lemma TrimmedPieceClean(p: string)
    requires ',' !in p && Trim(p) != []
    ensures CleanTag(Trim(p))
  {
    var s := TrimStart(p);
    var t := Trim(p);
    assert t == s[..|t|] && s == p[|p| - |s|..];
    assert forall i :: 0 <= i < |t| ==> t[i] == p[|p| - |s| + i];
  }

  /** Every submitted tag is non-empty, trimmed and free of commas. */
  lemma ParsedTagsClean(text: string)
    ensures forall k :: 0 <= k < |ParseTags(text)| ==> CleanTag(ParseTags(text)[k])
  {
    var pieces := Split(text, ',');
    var trimmed := TrimAll(pieces);
    var tags := ParseTags(text);
    forall k | 0 <= k < |tags| ensures CleanTag(tags[k]) {
      DropEmptyCounts(trimmed);
      assert tags[k] in multiset(tags);
      assert tags[k] in multiset(trimmed);
      var j :| 0 <= j < |trimmed| && trimmed[j] == tags[k];
      TrimmedPieceClean(pieces[j]);
    }
  }

  /** A blank tag field submits no tags. */
  lemma EmptyTagText()
    ensures ParseTags("") == []
  {
    assert Split("", ',') == [""];
    assert Trim("") == "";
  }

  /** The pieces `tags.join(', ')` splits into at ','. */
  function Padded(ts: seq<string>): (r: seq<string>)
    ensures |r| == |ts|
    ensures forall k :: 0 <= k < |ts| ==> r[k] == " " + ts[k]
  {
    seq(|ts|, k requires 0 <= k < |ts| => " " + ts[k])
  }

  lemma JoinExtendFirst(a: string, x: string, rest: seq<string>, sep: string)
    ensures Join([a + x] + rest, sep) == a + Join([x] + rest, sep)
  {
    if rest != [] {
      assert ([a + x] + rest)[1..] == rest && ([x] + rest)[1..] == rest;
    }
  }

  lemma {:induction false} JoinCommaSpace(t: string, ts: seq<string>)
    ensures Join([t] + ts, ", ") == Join([t] + Padded(ts), [','])
    decreases |ts|
  {
    if ts != [] {
      JoinCommaSpace(ts[0], ts[1..]);
      assert ([t] + ts)[1..] == ts == [ts[0]] + ts[1..];
      assert Padded(ts) == [" " + ts[0]] + Padded(ts[1..]);
      assert ([t] + Padded(ts))[1..] == Padded(ts);
      JoinExtendFirst(" ", ts[0], Padded(ts[1..]), [',']);
    }
  }

  lemma TrimOfSpaced(t: string)
    requires CleanTag(t)
    ensures Trim(" " + t) == t
  {
    assert (" " + t)[1..] == t;
    assert TrimStart(" " + t) == TrimStart(t) == t;
  }

  /** Clean tags shown in the edit form and submitted unchanged come back as they were. */
  lemma TagsRoundTrip(tags: seq<string>)
    requires forall k :: 0 <= k < |tags| ==> CleanTag(tags[k])
    ensures ParseTags(ShowTags(tags)) == tags
  {
    if tags == [] {
      EmptyTagText();
    } else {
      ShownTagsSplit(tags);
      ShownPiecesTrim(tags);
      KeepNonEmpty(tags);
    }
  }

  /** `tags.join(', ')` splits at ',' into the first tag and the others behind a space. */
  lemma ShownTagsSplit(tags: seq<string>)
    requires tags != [] && forall k :: 0 <= k < |tags| ==> CleanTag(tags[k])
    ensures Split(ShowTags(tags), ',') == [tags[0]] + Padded(tags[1..])
  {
    var pieces := [tags[0]] + Padded(tags[1..]);
    JoinCommaSpace(tags[0], tags[1..]);
    assert tags == [tags[0]] + tags[1..];
    forall k | 0 <= k < |pieces| ensures ',' !in pieces[k] {
      if k > 0 {
        assert pieces[k] == " " + tags[k];
        assert tags[k] == pieces[k][1..];
      }
    }
    SplitJoin(pieces, ',');
  }

  /** Trimming those pieces gives the tags back. */
  lemma ShownPiecesTrim(tags: seq<string>)
    requires tags != [] && forall k :: 0 <= k < |tags| ==> CleanTag(tags[k])
    ensures TrimAll([tags[0]] + Padded(tags[1..])) == tags
  {
    var pieces := [tags[0]] + Padded(tags[1..]);
    var trimmed := TrimAll(pieces);
    forall k | 0 <= k < |tags| ensures trimmed[k] == tags[k] {
      if k == 0 {
        TrimOfTrimmed(tags[0]);
      } else {
        assert pieces[k] == " " + tags[k] by {
          assert pieces[k] == Padded(tags[1..])[k - 1];
        }
        TrimOfSpaced(tags[k]);
      }
    }
    assert |trimmed| == |tags|;
  }

  lemma {:induction false} KeepNonEmpty(ts: seq<string>)
    requires forall k :: 0 <= k < |ts| ==> ts[k] != []
    ensures DropEmpty(ts) == ts
    decreases |ts|
  {
    if ts != [] {
      KeepNonEmpty(ts[1..]);
    }
  }

  // Submitting

  /** How the caller's `onSubmit` promise settles. */
  datatype Settled = Resolved | ThrewError(message: string) | ThrewValue

  /** The error the form shows afterwards. */
  function ErrorAfter(s: Settled): (e: Option<string>)
    ensures e.None? <==> s.Resolved?
    ensures s.ThrewError? ==> e == Some(s.message)
    ensures s.ThrewValue? ==> e == Some("An error occurred")
  {
    match s
    case Resolved => None
    case ThrewError(m) => Some(m)
    case ThrewValue => Some("An error occurred")
  }

  /** `'Saving...'` while loading, else the update or the create label. */
  function SubmitLabel(isLoading: bool, editing: bool, noun: string): string
  {
    if isLoading then "Saving..." else if editing then "Update " + noun else "Create " + noun
  }

  /** The label tells the state apart: loading, editing an existing record, or creating. */
  lemma LabelsDistinct(noun: string)
    ensures SubmitLabel(true, true, noun) == SubmitLabel(true, false, noun) == "Saving..."
    ensures SubmitLabel(false, true, noun) != SubmitLabel(false, false, noun)
    ensures SubmitLabel(false, true, noun) != "Saving..." && SubmitLabel(false, false, noun) != "Saving..."
  {
    assert SubmitLabel(false, true, noun)[0] == 'U' && SubmitLabel(false, false, noun)[0] == 'C';
  }

  // The article form

  /** What the form receives for an existing article. */
  datatype ArticleRecord = ArticleRecord(
    slug: string, title: string, description: Option<string>, content: string,
    tags: seq<string>, language: string)

  /** The form's text fields. */
  datatype ArticleFields = ArticleFields(
    slug: string, title: string, description: string, content: string, tags: string,
    language: string)

  /** What `onSubmit` receives. */
  datatype ArticleData = ArticleData(
    slug: string, title: string, description: string, content: string, tags: seq<string>,
    language: string)

  /** The fields a form starts with: the article's values (`|| ''`, language `|| 'ES'`), or
      blank with language ES for a new article. */
  function InitialArticleFields(article: Option<ArticleRecord>): (f: ArticleFields)
    ensures article.None? ==> f == ArticleFields("", "", "", "", "", "ES")
    ensures article.Some? ==>
              && f.slug == article.value.slug && f.title == article.value.title
              && f.content == article.value.content
              && f.tags == ShowTags(article.value.tags)
              && f.description == (if article.value.description.Some?
                                   then article.value.description.value else "")
              && f.language == (if article.value.language != "" then article.value.language else "ES")
  {
    match article
    case None => ArticleFields("", "", "", "", "", "ES")
    case Some(a) =>
      ArticleFields(a.slug, a.title, if a.description.Some? then a.description.value else "",
                    a.content, ShowTags(a.tags), if a.language != "" then a.language else "ES")
  }

  function ArticleSubmission(f: ArticleFields): (d: ArticleData)
    ensures d.tags == ParseTags(f.tags)
    ensures d.slug == f.slug && d.title == f.title && d.description == f.description
            && d.content == f.content && d.language == f.language
  {
    ArticleData(f.slug, f.title, f.description, f.content, ParseTags(f.tags), f.language)
  }

  /** A form opened on an article with clean tags and submitted without edits passes the
      article's own tags back. */
  lemma UneditedArticleKeepsTags(a: ArticleRecord)
    requires forall k :: 0 <= k < |a.tags| ==> CleanTag(a.tags[k])
    ensures ArticleSubmission(InitialArticleFields(Some(a))).tags == a.tags
  {
    TagsRoundTrip(a.tags);
  }

  lemma NewTitleDerivesNothing()
    ensures forall suffix :: AutoSlug("", suffix) == []
  {
    SlugifyEmptyIff("");
  }

  class ArticleForm {
    const isNew: bool
    const initialSuffix: string
    var fields: ArticleFields
    var slugTouched: bool
    var error: Option<string>

    /** The suffix is four digits for a new form and empty otherwise; while a new form's
        slug is untouched, it is the one derived from the current title. */
    ghost predicate Valid()
      reads this
    {
      && (isNew ==> IsSuffixDigits(initialSuffix))
      && (!isNew ==> initialSuffix == [])
      && (isNew && !slugTouched ==> fields.slug == AutoSlug(fields.title, initialSuffix))
    }

    constructor(article: Option<ArticleRecord>)
      ensures Valid() && isNew == article.None?
      ensures fields == InitialArticleFields(article) && !slugTouched && error.None?
    {
      var suffix := "";
      if article.None? {
        suffix := RandomDigits(4);
      }
      isNew := article.None?;
      initialSuffix := suffix;
      fields := InitialArticleFields(article);
      slugTouched := false;
      error := None;
      NewTitleDerivesNothing();
    }

    /** An edit of the slug field: from now on titles no longer change the slug. */
    method EditSlug(v: string)
      requires Valid()
      modifies this
      ensures Valid() && slugTouched
      ensures fields == old(fields).(slug := v) && error == old(error)
    {
      slugTouched := true;
      fields := fields.(slug := v);
    }

    /** An edit of the title field. */
    method EditTitle(v: string)
      requires Valid()
      modifies this
      ensures Valid() && slugTouched == old(slugTouched) && error == old(error)
      ensures fields == old(fields).(title := v,
                                     slug := SlugAfterTitleEdit(old(fields.slug), v, isNew, slugTouched, initialSuffix))
      ensures (!isNew || slugTouched) ==> fields.slug == old(fields.slug)
      ensures isNew && !slugTouched ==> fields.slug == AutoSlug(v, initialSuffix)
    {
      var next := fields.(title := v);
      if isNew && !slugTouched {
        next := next.(slug := AutoSlug(v, initialSuffix));
      }
      fields := next;
    }

    /** An edit of the description, content, tags or language field. */
    method EditOther(description: string, content: string, tags: string, language: string)
      requires Valid()
      modifies this
      ensures Valid() && slugTouched == old(slugTouched) && error == old(error)
      ensures fields == ArticleFields(old(fields.slug), old(fields.title), description, content, tags, language)
    {
      fields := fields.(description := description, content := content, tags := tags, language := language);
    }

    /** `handleSubmit`: passes the fields with parsed tags to `onSubmit`, whose settling is
        `settled`, and shows the error it threw. */
    method Submit(settled: Settled) returns (data: ArticleData)
      requires Valid()
      modifies this
      ensures Valid() && fields == old(fields) && slugTouched == old(slugTouched)
      ensures data == ArticleSubmission(fields)
      ensures error == ErrorAfter(settled)
    {
      data := ArticleSubmission(fields);
      error := ErrorAfter(settled);
    }

    function Label(isLoading: bool): string
      reads this
    {
      SubmitLabel(isLoading, !isNew, "Article")
    }
  }

  // The news form

  datatype NewsRecord = NewsRecord(
    slug: string, title: string, summary: Option<string>, content: string, language: string)

  /** The form's fields, which are also what `onSubmit` receives. */
  datatype NewsFields = NewsFields(
    slug: string, title: string, summary: string, content: string, language: string)

  function InitialNewsFields(news: Option<NewsRecord>): (f: NewsFields)
    ensures news.None? ==> f == NewsFields("", "", "", "", "ES")
    ensures news.Some? ==>
              && f.slug == news.value.slug && f.title == news.value.title
              && f.content == news.value.content
              && f.summary == (if news.value.summary.Some? then news.value.summary.value else "")
              && f.language == (if news.value.language != "" then news.value.language else "ES")
  {
    match news
    case None => NewsFields("", "", "", "", "ES")
    case Some(n) =>
      NewsFields(n.slug, n.title, if n.summary.Some? then n.summary.value else "", n.content,
                 if n.language != "" then n.language else "ES")
  }

  class NewsForm {
    const isNew: bool
    const initialSuffix: string
    var fields: NewsFields
    var slugTouched: bool
    var error: Option<string>

    /** As for the article form. */
    ghost predicate Valid()
      reads this
    {
      && (isNew ==> IsSuffixDigits(initialSuffix))
      && (!isNew ==> initialSuffix == [])
      && (isNew && !slugTouched ==> fields.slug == AutoSlug(fields.title, initialSuffix))
    }

    constructor(news: Option<NewsRecord>)
      ensures Valid() && isNew == news.None?
      ensures fields == InitialNewsFields(news) && !slugTouched && error.None?
    {
      var suffix := "";
      if news.None? {
        suffix := RandomDigits(4);
      }
      isNew := news.None?;
      initialSuffix := suffix;
      fields := InitialNewsFields(news);
      slugTouched := false;
      error := None;
      NewTitleDerivesNothing();
    }

    method EditSlug(v: string)
      requires Valid()
      modifies this
      ensures Valid() && slugTouched
      ensures fields == old(fields).(slug := v) && error == old(error)
    {
      slugTouched := true;
      fields := fields.(slug := v);
    }

    method EditTitle(v: string)
      requires Valid()
      modifies this
      ensures Valid() && slugTouched == old(slugTouched) && error == old(error)
      ensures fields == old(fields).(title := v,
                                     slug := SlugAfterTitleEdit(old(fields.slug), v, isNew, slugTouched, initialSuffix))
      ensures (!isNew || slugTouched) ==> fields.slug == old(fields.slug)
      ensures isNew && !slugTouched ==> fields.slug == AutoSlug(v, initialSuffix)
    {
      var next := fields.(title := v);
      if isNew && !slugTouched {
        next := next.(slug := AutoSlug(v, initialSuffix));
      }
      fields := next;
    }

    /** An edit of the summary, content or language field. */
    method EditOther(summary: string, content: string, language: string)
      requires Valid()
      modifies this
      ensures Valid() && slugTouched == old(slugTouched) && error == old(error)
      ensures fields == NewsFields(old(fields.slug), old(fields.title), summary, content, language)
    {
      fields := fields.(summary := summary, content := content, language := language);
    }

    /** `handleSubmit`: passes the fields unchanged to `onSubmit`. */
    method Submit(settled: Settled) returns (data: NewsFields)
      requires Valid()
      modifies this
      ensures Valid() && fields == old(fields) && slugTouched == old(slugTouched)
      ensures data == fields
      ensures error == ErrorAfter(settled)
    {
      data := fields;
      error := ErrorAfter(settled);
    }

    function Label(isLoading: bool): string
      reads this
    {
      SubmitLabel(isLoading, !isNew, "News")
    }
  }
}
