# arnml-site core in Dafny

A model of the sequential logic behind the arnml-site CMS and newsletter:

- **Slugs.** `slugify` and `randomDigits`; the create actions for news items and articles, which normalise the slug, append a 4-digit suffix, and keep drawing fresh suffixes while the store reports a collision; the slug the editing forms derive from the title.
- **Rate limiting.** The fixed-window rate limiter, plus the request proxy that keys it by client address, answers 429 with a Retry-After delay, and gates the admin area on the session cookie.
- **Subscribers.** The subscriber lifecycle: subscribe (create, reactivate, or nothing when already active, then mail a confirmation link), confirm, and unsubscribe by link and by one-click POST.
- **Broadcast.** The broadcast of a news item to every active, confirmed subscriber: four guards, one mail per recipient, then a one-shot "sent" flag.
- **Publishing.** The publish toggle, delete and list order of the admin pages.
- **Validation.** The input validators: the zod schemas of `lib/validators.ts` and the trimming parsers of `lib/validation/`.

Stores (Prisma) are classes holding a `map` from a numeric id to a record, with the class invariant as `Valid()`:

- ids are below the next fresh id;
- slugs are unique per store, and emails unique among subscribers;
- time fields are set exactly when their flag is.

Every store call and every mail can fail by throwing. The model writes this as a nondeterministic boolean, so each contract covers the failure path as well. Times are integer milliseconds passed in as `now`. Randomness is a nondeterministic choice within the range the code draws from. The mail transport is a class that logs every call (`Mail.Mailer.outbox`). HTTP responses are values (`Http.Response`).

The project has one module per file:

- `common`, `text`, `http`, `mail`;
- `slug`, `allocation`, `listing`;
- `schema`, `validators`, `validation`;
- `news`, `blog`;
- `ratelimit`, `proxy`;
- `subscribers`, `dispatch`;
- `forms`.

Two points of behaviour worth stating up front:

- **Suffix range.** The slug suffix is drawn from 1000–9999, so it never has a leading zero (`lib/slug.ts:11-13`).
- **Fixed window.** The limiter is a fixed window that opens at a key's first call.

The three routes with a dynamic segment are modelled from their code:

- `app/api/admin/send/[emailid]/route.ts`: guards at lines 21-58, the mail loop at 76-91, the update at 93-99 and the 500 at 102-107.
- `app/api/subscribe/confirm/[id]/route.ts`: the update and redirects at lines 14-83.
- `app/api/unsubscribe/[id]/route.ts`: the helper at lines 4-20, GET at 22-39 and POST at 42-59.

The table rows for these routes cite the tests that pin the same behaviour.

## Model

| member | source | states |
|---|---|---|
| Text.Lower | lib/slug.ts:3 | `toLowerCase()`: same length, each character mapped by `LowerChar` |
| Text.LowerChar | lib/slug.ts:3 | an upper-case ASCII letter becomes the lower-case letter at the same place in the alphabet; any other character is kept |
| Slug.CollapseRuns | lib/slug.ts:5 | every maximal run outside `[a-z0-9]` becomes one '-': the result holds only `[a-z0-9-]`, never "--", is empty iff the input is, and starts with '-' exactly when the input starts with a non-alphanumeric |
| Slug.CollapseIsIdentity | lib/slug.ts:5 | a `[a-z0-9-]` string without "--" is unchanged by the collapse step |
| Slug.SqueezeIsIdentity | lib/slug.ts:5-7 | the last replace (`-{2,}` to '-') is a no-op on a string without "--", which is all it is ever given |
| Slug.DropLeadingHyphens | lib/slug.ts:6 | `^-+` removed: exactly the leading hyphens go, and the rest does not start with '-' |
| Slug.DropTrailingHyphens | lib/slug.ts:6 | `-+$` removed: exactly the trailing hyphens go, and the rest does not end with '-' |
| Slug.StripGivesSlug | lib/slug.ts:6 | stripping end hyphens of a `[a-z0-9-]` string without "--" leaves a slug (no hyphen at either end) |
| Slug.SlugifyIsSlug | lib/slug.ts:2-7 | every result uses only a–z, 0–9, '-', never contains "--", and never begins or ends with '-' |
| Slug.SlugifyKeepsAlnums | lib/slug.ts:3-5 | the lower-cased letters and digits of the input all appear in the output, in order, none dropped and none added |
| Slug.SlugifyEmptyIff | lib/slug.ts:5-6 | the result is "" exactly when the lower-cased input has no letter or digit |
| Slug.SlugifyFixesSlugs | lib/slug.ts:2-7 | a string already in slug shape is returned unchanged |
| Slug.SlugifyIdempotent | lib/slug.ts:2-7 | `slugify(slugify(s)) == slugify(s)` |
| Slug.RandomDigits | lib/slug.ts:10-14 | for a length n with 1 ≤ n ≤ 15 (the code calls it with 4): n decimal digits with no leading zero whose value is in [10^(n-1), 10^n − 1], so 1000–9999 for 4; "0" for length 0 |
| Validators.SlugPatternMeaning | lib/validators.ts:11 | `/^[a-z0-9-]+$/` matches exactly the non-empty strings of `[a-z0-9-]` |
| Validators.SlugRule | lib/validators.ts:8-11 | accepted iff a non-empty `[a-z0-9-]` string; "" gets both the 'Slug is required' and the format issue, any other bad string only the format issue |
| Validators.SlugAcceptedIff | lib/validators.ts:8-11 | a slug string is accepted iff it is non-empty and every character is a–z, 0–9 or '-' |
| Validators.TestArticleSlugRejected | lib/validators.ts:11 | 'Test Article!' is rejected with the format message |
| Validators.SlugifyPassesSlugRule | lib/validators.ts:8-11 | any non-empty `slugify` result passes the slug rule |
| Validators.TitleRule | lib/validators.ts:12 | accepted iff 1 ≤ length ≤ 200; "" gets 'Title is required', a longer one 'Title must be less than 200 characters' |
| Validators.TitleBoundInclusive | lib/validators.ts:12 | a title of exactly 200 characters is accepted, one of 201 rejected |
| Validators.ContentRule | lib/validators.ts:14 | accepted iff a non-empty string, else 'Content is required' |
| Validators.ArticleCreateSchema | lib/validators.ts:7-17 | succeeds iff every field rule passes; the values are the inputs: slug, title, content, the description when present (else absent), the tags element by element when present (else []), and EN exactly for "EN" (else the default ES) |
| Validators.NewsCreateSchema | lib/validators.ts:21-30 | succeeds iff every field rule passes; the values are the inputs: slug, title, content, the summary when present (else absent), and EN exactly for "EN" (else the default ES) |
| Validators.MissingTitleOrContentRejected | lib/validators.ts:12-14 | an object without title or without content is rejected by both create schemas |
| Validators.CreateDefaults | lib/validators.ts:15-16 | absent tags parse as [] and absent language as ES |
| Validators.UnknownLanguageRejected | lib/validators.ts:16 | a language other than 'ES' or 'EN' is rejected by both create schemas |
| Validators.CreateImpliesUpdate | lib/validators.ts:19 | whatever a create schema accepts, its `.partial()` update schema accepts too |
| Validators.UpdateAcceptsSingleField | lib/validators.ts:19 | the update schemas accept the empty object, an object holding only a valid title, and (news) one holding only a string summary |
| Validators.ArticleUpdateAcceptsSubset | lib/validators.ts:19 | any subset of the fields of a body the article create schema accepts, the empty one included, is accepted by `articleUpdateSchema` |
| Validators.NewsUpdateAcceptsSubset | lib/validators.ts:32 | any subset of the fields of a body the news create schema accepts is accepted by `newsUpdateSchema` |
| Validators.SubscribeSchema | lib/validators.ts:3-5 | accepted iff the body has a string `email` that the email grammar accepts; the result is that email; every rejection of an object body, a missing or non-string email included, carries 'Invalid email address'; a body that is not an object is rejected by the object check with the library's root message |
| Validators.SubscribeRejectsMissingEmail | lib/validators.ts:3-5 | an object body without `email` is rejected with 'Invalid email address' |
| Validators.SubscribeRejectsNonObject | lib/validators.ts:3 | a body that is not an object (`null`, an array, a string, a number) is rejected with the library's root message, not the email message |
| Validators.PublishToggleSchema | lib/validators.ts:34-36 | accepted iff `published` is a boolean; the result is that boolean |
| Schema.TrimmedRequired | lib/validation/article.ts:4 | accepted iff a string whose trim is non-empty; the value is the trimmed string; a string that trims to "" gets the field's own message |
| Schema.TrimmedOptional | lib/validation/article.ts:6 | an absent field is accepted as absent, a string as its trim, anything else rejected |
| Schema.PlainOptional | lib/validators.ts:13 | `z.string().optional()`: absent is accepted as absent, a string as itself, anything else rejected |
| Schema.StringElements | lib/validation/article.ts:8 | an array is accepted iff every element is a string, giving them in order, each trimmed when asked |
| Schema.StringArrayDefaultEmpty | lib/validation/article.ts:8 | absent gives [], an array of strings gives its elements (trimmed when asked, empties kept), anything else is rejected |
| Schema.LanguageEnum | lib/validators.ts:16 | ES exactly for "ES" (or an absent field when there is a default), EN exactly for "EN", otherwise rejected |
| Validation.ArticleChecksMeaning | lib/validation/article.ts:3-10 | all field checks pass iff the input is acceptable; otherwise there is at least one issue, and the first is `ArticleError`: the message of the first failing field in the order slug, title, description, content, tags, language, never the fallback text |
| Validation.ArticleCheckValues | lib/validation/article.ts:3-10 | on acceptable input each field's value is the trimmed input, optional description trimmed when present, tags trimmed |
| Validation.ParseArticleInput | lib/validation/article.ts:12-18 | succeeds iff the input is acceptable (trimmed slug, title, content non-empty, description optional, tags strings, language exactly ES or EN with no default), returning the trimmed fields. On failure the message is that of the first failing field in schema order: 'Slug is required', 'Title is required' or 'Content is required' for a blank string, the library's message for a missing or mistyped field, bad tags or a bad language |
| Validation.NewsChecksMeaning | lib/validation/news.ts:3-9 | all checks pass iff acceptable; otherwise the first issue is `NewsError`, the message of the first failing field in the order slug, title, summary, content, language |
| Validation.ParseNewsInput | lib/validation/news.ts:11-17 | succeeds iff acceptable (trimmed slug, title, content non-empty, summary optional, language exactly ES or EN) with the trimmed fields. On failure the message is that of the first failing field in schema order, as for articles |
| Validation.NoFallbackIssue | lib/validation/article.ts:15 | when every issue carries its own message, the thrown message is never the 'Invalid … data' fallback |
| Validation.WhitespaceOnlyRejected | lib/validation/article.ts:4-7 | a whitespace-only slug, title or content is rejected by both parsers |
| Validation.BlankContentMessage | lib/validation/article.ts:7 | with slug and title fine, a blank content makes both parsers throw 'Content is required' |
| Allocation.StripWithSuffix | app/admin/news/new/page.tsx:32-33 | appending '-dddd' and stripping `/-\d{4}$/` gives the base back |
| Allocation.StripDigitSuffix | app/admin/news/new/page.tsx:32 | `replace(/-\d{4}$/, '')`: a trailing '-dddd' is removed and the rest followed by it is the input; any other string is unchanged |
| Allocation.StripKeepsSlug | app/admin/news/new/page.tsx:32 | stripping the '-dddd' of a slug leaves a non-empty slug |
| Allocation.SuffixKeepsSlug | app/admin/news/new/page.tsx:25-27 | a slug with '-' and four digits appended is still a slug and ends in '-dddd' |
| Allocation.BaseSlugShape | app/admin/news/new/page.tsx:25-27 | a base already ending in '-dddd' is kept as is, otherwise it gets one suffix. Either way it is a slug ending in '-dddd', and its stripped form is the shared prefix |
| Allocation.CandidateShape | app/admin/news/new/page.tsx:29-33 | every retry candidate is a non-empty slug ending in '-dddd' with the same suffix-stripped prefix as the base |
| Allocation.FindFreeSlug | app/admin/news/new/page.tsx:29-34 | a returned slug is not taken and is a candidate; if the base is free it is the base; a different slug is returned only when the base was taken; a throwing lookup is reported |
| News.NewsStore.CreateNews | app/admin/news/new/page.tsx:17-42 | bad input is rejected with the parser's message, and an empty slugified input with 'Slug is required', both with no write. On success exactly one record is added, with the parsed fields and a slug that was free, is a slug, ends in '-dddd' and keeps the normalised prefix |
| News.TitleFallbackNeverTaken | app/admin/news/new/page.tsx:17-18 | a parsed slug is never empty, so `parsed.slug \|\| parsed.title` always takes the slug |
| News.NewItem | app/admin/news/new/page.tsx:36-42 | the inserted record carries the parsed fields, the allocated slug, and is an unpublished, unsent draft |
| News.Toggled | app/admin/news/page.tsx:17-28 | sets published, with publishedAt non-null iff published (the new time when publishing), and moves updatedAt to now; emailSent, emailSentAt and every other field are untouched |
| News.NewsStore.TogglePublish | app/admin/news/page.tsx:17-28 | on success exactly that record is replaced by its toggled form; a missing id or store error writes nothing |
| News.NewsStore.DeleteNews | app/admin/news/page.tsx:30-35 | on success exactly that id is removed; otherwise nothing changes |
| News.Actions | app/admin/news/page.tsx:80-116 | the toggle passes the negation of the flag, and the send action is offered exactly for published items |
| News.ClickFlipsPublished | app/admin/news/page.tsx:98-102 | a click on the row action flips published |
| News.RepublishKeepsSent | app/admin/news/page.tsx:20-26 | unpublishing and republishing keeps emailSent and sets publishedAt to the last publish time |
| News.NewsStore.List | app/admin/news/page.tsx:38-40 | every id exactly once, in non-increasing updatedAt order |
| News.Mailed | tests/api/admin-send.test.ts:85-91 | sets emailSent true and emailSentAt now, moves updatedAt to now, and leaves published, publishedAt and every other field as they were |
| News.NewsStore.MarkSent | tests/api/admin-send.test.ts:85-91 | on success that record is replaced by its mailed form; otherwise nothing changes |
| Blog.ArticleStore.CreateArticle | app/admin/blog/new/page.tsx:18-42 | as for news: rejected input writes nothing, and success adds exactly one article with the parsed fields under a free, suffixed slug with the normalised prefix |
| Blog.NewArticle | app/admin/blog/new/page.tsx:36-42 | the inserted article carries the parsed fields and the allocated slug and is unpublished |
| Blog.Toggled | app/admin/blog/page.tsx:16-27 | sets published, with publishedAt non-null iff published, and moves updatedAt to now; no other field changes |
| Blog.ArticleStore.TogglePublish | app/admin/blog/page.tsx:16-27 | on success exactly that article is replaced by its toggled form; otherwise nothing changes |
| Blog.ArticleStore.DeleteArticle | app/admin/blog/page.tsx:29-34 | on success exactly that id is removed; otherwise nothing changes |
| Blog.ToggleArgument | app/admin/blog/page.tsx:90-94 | the row action passes the negation of the current flag |
| Blog.ClickTwiceRestores | app/admin/blog/page.tsx:90-94 | one click flips published and a second click restores it |
| Blog.RepublishOverwritesTime | app/admin/blog/page.tsx:19-25 | publishing again moves publishedAt to the newer time |
| Blog.ArticleStore.List | app/admin/blog/page.tsx:36-39 | every id exactly once, in non-increasing updatedAt order |
| Listing.InsertDesc | app/admin/blog/page.tsx:37-38 | inserting into a descending list keeps it descending and adds exactly that element |
| Listing.OrderedIds | app/admin/blog/page.tsx:37-38 | the result is a permutation of the map's ids, sorted by descending key |
| RateLimit.Step | lib/rate-limit.ts:20-41 | an absent or expired entry becomes {1, now+windowMs} with ok and remaining max(0, limit−1). Otherwise count grows by one, resetAt is kept, and ok iff the new count ≤ limit. remaining = max(0, limit − count) ≥ 0, and resetAt > now when windowMs > 0 |
| RateLimit.RateLimiter.Check | lib/rate-limit.ts:14-42 | returns the decision of `Step` and writes that key's new entry and no other key |
| RateLimit.RunInsideWindow | lib/rate-limit.ts:32-41 | calls inside an open window each add one to the count, with no clamping, and are refused once past the limit |
| RateLimit.WindowAdmitsLimit | lib/rate-limit.ts:22-41 | in a window opened by call 0, call i is accepted iff i < limit (call 0 always), with remaining max(0, limit−1−i) and a common resetAt |
| Proxy.ClientIp | proxy.ts:11-15 | the trimmed first comma-separated piece of x-forwarded-for if non-empty, else a non-empty x-real-ip, else 'unknown'; never empty |
| Text.DecimalRoundTrip | proxy.ts:31-34 | `String(n)` read back as a decimal number gives n |
| Text.JoinSplit | components/article-form.tsx:52 | joining the pieces of `split(sep)` with sep gives the string back |
| Text.SplitJoin | components/article-form.tsx:39 | splitting a join of pieces without the separator gives the pieces back |
| Proxy.ClientIpIsFirstHop | proxy.ts:11-13 | a non-blank first hop, trimmed, is the key whatever follows it |
| Proxy.ClientIpFallbacks | proxy.ts:13-15 | without x-forwarded-for, a non-empty x-real-ip is the key, else 'unknown' |
| Proxy.CeilDiv | proxy.ts:24 | `Math.ceil(x / d)`: the least q with x ≤ d·q |
| Proxy.RetryAfterSeconds | proxy.ts:22-25 | Retry-After is ≥ 1 and is the least whole number of seconds covering the time to reset (1 when that time is at most a second) |
| Proxy.Throttled | proxy.ts:26-37 | 429 with 'Too many requests. Try again later.' and the headers Retry-After, limit "10", the limiter's remaining and resetAt |
| Proxy.Gate | proxy.ts:18-61 | a refused limiter decision gives the 429. Otherwise an unauthenticated '/admin' path redirects (307) to origin+'/login', and an unauthenticated '/api/admin' path gets 401 'Unauthorized'. Everything else passes |
| Proxy.HandleRequest | proxy.ts:8-62 | only '/api/' paths touch the limiter, under key 'api:'+ip with limit 10 and window 60000; the answer is `Gate` of that decision |
| Proxy.ThrottleBeforeAuth | proxy.ts:18-59 | a throttled '/api/admin' call gets 429 even without a session, never 401 |
| Proxy.SessionPasses | proxy.ts:41-61 | with a non-empty session cookie every request the limiter lets through passes |
| Proxy.AdminApiIsLimited | proxy.ts:18-19 | every '/api/admin' path is an '/api/' path, so it is rate-limited |
| Proxy.AdminPrefixesDisjoint | proxy.ts:48-59 | no path starts with both '/admin' and '/api/admin', so at most one auth rule applies |
| RateLimit.Max | lib/rate-limit.ts:27 | `Math.max` |
| Text.Trim | proxy.ts:13 | `trim()`: no whitespace at either end of the result |
| Text.Split | proxy.ts:13 | `split(sep)`: at least one piece and no piece holds the separator |
| Text.NatToString | proxy.ts:31-34 | `String(n)` for n ≥ 0: a non-empty string of digits |
| Mail.Mailer.Send | app/api/subscribe/route.ts:47-52 | every send attempt is logged, whether or not it throws |
| Subscribers.NewRecord | app/api/subscribe/route.ts:22-27 | a new record is {email, ACTIVE}, unconfirmed, subscribed now, never unsubscribed |
| Subscribers.Reactivated | app/api/subscribe/route.ts:30-37 | sets status ACTIVE, subscribedAt now, unsubscribedAt null and nothing else |
| Subscribers.ConfirmLink | app/api/subscribe/route.ts:44-45 | the link is origin, then '/api/subscribe/confirm/', then a decimal segment that reads back as the record's id |
| Subscribers.ConfirmLinkDeterminesId | app/api/subscribe/route.ts:44-45 | two records never share a confirmation link, so confirming by the link updates the record it was mailed for |
| Subscribers.SubscriptionOfKnown | app/api/subscribe/route.ts:15-42 | for a known email, an UNSUBSCRIBED record is reactivated in place and mailed under its own id; an ACTIVE one is left alone with no mail |
| Subscribers.SubscriberStore.FindByEmail | app/api/subscribe/route.ts:15-17 | a found id holds that email; not found means no record holds it |
| Subscribers.SubscriberStore.Create | app/api/subscribe/route.ts:21-28 | on success exactly one record is added under the next id, keeping emails unique |
| Subscribers.SubscriberStore.FindById | tests/api/unsubscribe.test.ts:67-77 | when the lookup succeeds, found iff a record has that id |
| Subscribers.SubscriberStore.Replace | tests/api/unsubscribe.test.ts:58-64 | `update` by id: on success exactly that record is replaced; on failure nothing changes |
| Subscribers.SubscriberStore.Subscribe | app/api/subscribe/route.ts:10-69 | A non-JSON body gives 500 'Failed to subscribe', and an invalid email 400 'Invalid email address', both with no write and no mail. Otherwise success leaves the records as the subscription transition says and mails at most one confirmation link. A 500 either wrote nothing or kept the write with the mail attempted |
| Subscribers.SubscriptionKeepsEmailsUnique | app/api/subscribe/route.ts:15-28 | subscribing keeps one record per email, leaves an ACTIVE record for it, and creates exactly one record, only for an unknown email |
| Subscribers.SubscribeTwiceSendsOnce | app/api/subscribe/route.ts:39-42 | a second subscribe of the same email writes nothing and sends nothing |
| Subscribers.ReactivationKeepsConfirmation | app/api/subscribe/route.ts:29-38 | reactivation keeps the id and emailConfirmed, creates nothing, and mails the link of that id |
| Subscribers.ResubscribeRestoresRecord | app/api/subscribe/route.ts:29-38 | unsubscribing and subscribing again brings back the same record, confirmed as before |
| Subscribers.Confirmed | tests/api/subscribe-confirm.test.ts:58-64 | sets exactly emailConfirmed true and emailConfirmedAt now |
| Subscribers.SubscriberStore.Confirm | tests/api/subscribe-confirm.test.ts:52-90 | always a 307 redirect; '/confirmed' exactly when that record was updated to its confirmed form; an unknown id or store failure redirects to '/confirmed/error' with no write |
| Subscribers.Unsubscribing | tests/api/unsubscribe.test.ts:58-64 | sets exactly status UNSUBSCRIBED and unsubscribedAt now, leaving emailConfirmed as it was |
| Subscribers.SubscriberStore.Unsubscribe | tests/api/unsubscribe.test.ts:52-77 | updated exactly when the id exists and the write succeeds; not found only for an unknown id |
| Subscribers.SubscriberStore.UnsubscribeGet | tests/api/unsubscribe.test.ts:52-90 | always a 307 redirect; '/unsubscribed' exactly when that record was updated; an unknown id or failure redirects to '/' with no write |
| Subscribers.SubscriberStore.UnsubscribePost | tests/api/unsubscribe.test.ts:58-64 | the one-click POST makes the same update as the GET and answers {ok:true} after the update, 404 'Not found' only for an unknown id, 500 'Failed to unsubscribe' on a failure, with no write unless ok |
| Subscribers.RecipientsFollowStatus | tests/api/admin-send.test.ts:67-84 | unsubscribing leaves the recipient set, confirming an active record joins it, reactivation keeps confirmation |
| Subscribers.SubscriberStore.FindConfirmedActive | tests/api/admin-send.test.ts:67-84 | each active, confirmed subscriber exactly once |
| Dispatch.UnsubscribeLink | components/email/news-email-template.tsx:198-199 | the link is origin, then '/api/unsubscribe/', then a decimal segment that reads back as the recipient's id |
| Dispatch.UnsubscribeLinkDeterminesId | components/email/news-email-template.tsx:198-199 | two recipients never share an unsubscribe link, so the link unsubscribes the subscriber it was sent to |
| Dispatch.NewsMails | tests/api/admin-send.test.ts:81-84 | one mail per recipient, in order |
| Dispatch.MailsAddressRecipients | tests/api/admin-send.test.ts:57-84 | mail i goes to recipient i's address, with the item's title and recipient i's unsubscribe link |
| Dispatch.SendAll | tests/api/admin-send.test.ts:81-84 | the mails for the recipients in order, up to and including the first that throws |
| Dispatch.SendNews | tests/api/admin-send.test.ts:67-162 | The answer is 500 'Failed to send emails' or the guarded outcome. Only on success is the item marked sent, and then every recipient got exactly one mail. Otherwise the item is unchanged, and mails went out only to recipients that were reached |
| Dispatch.SendSucceedsIff | tests/api/admin-send.test.ts:67-84 | success exactly for a published, unsent item with at least one recipient, reporting `sent` = the number of recipients |
| Dispatch.GuardOrder | tests/api/admin-send.test.ts:94-148 | 404 'News item not found', then 400 'News item is not published', then 400 'Email already sent for this news item', then 400 'No confirmed subscribers found', in that order |
| Dispatch.SecondSendRefused | tests/api/admin-send.test.ts:121-135 | after a success any later send of the item is refused as already sent |
| Dispatch.RepublishStaysRefused | app/admin/news/page.tsx:20-26 | unpublishing and republishing a sent item does not re-enable the send |
| Forms.AutoSlugShape | components/article-form.tsx:97-108 | the derived slug is "" iff `slugify(title)` is, else slugify(title) + '-' + the form's suffix, a slug ending in '-dddd' |
| Forms.SuffixReused | components/article-form.tsx:33 | every title edit of one new form ends its slug in the same four digits |
| Forms.AutoSlugKeptByCreate | components/news-form.tsx:88-99 | a derived slug submitted unchanged is its own slugify and its own base slug, so the create action tries it first as is |
| Forms.ParsedTagsClean | components/article-form.tsx:52-55 | every submitted tag is non-empty, trimmed and without commas |
| Forms.DropEmpty | components/article-form.tsx:55 | `.filter(Boolean)`: every piece it returns is non-empty |
| Forms.DropEmptyCounts | components/article-form.tsx:55 | the filter keeps each non-empty piece exactly as often as the input holds it and drops every empty one (multisets) |
| Forms.DropEmptyCons | components/article-form.tsx:55 | the first piece is kept iff it is non-empty, and the rest is filtered independently |
| Forms.DropEmptyKeepsOrder | components/article-form.tsx:55 | the filter keeps the order: filtering a concatenation filters each part and concatenates the results |
| Forms.TagsRoundTrip | components/article-form.tsx:39-55 | clean tags shown as `join(', ')` and read back by split, trim and filter come back unchanged |
| Forms.InitialArticleFields | components/article-form.tsx:34-41 | a new form starts blank with language ES; an edit form starts from the article's slug, title, content, description (or ''), tags joined with ', ', and language (or 'ES' when empty) |
| Forms.ArticleSubmission | components/article-form.tsx:50-56 | the submitted data is the form's fields with the tags parsed |
| Forms.UneditedArticleKeepsTags | components/article-form.tsx:34-56 | opening an article with clean tags and submitting without edits passes its tags back |
| Forms.ErrorAfter | components/article-form.tsx:57-59 | no error after a resolved submit, the thrown Error's message, or 'An error occurred' for any other thrown value |
| Forms.LabelsDistinct | components/article-form.tsx:62-67 | 'Saving...' while loading, and otherwise the update and create labels differ from it and from each other (a fact about the three literals) |
| Forms.ArticleForm.constructor | components/article-form.tsx:31-43 | a new form has a fresh 4-digit suffix and an edit form none; the fields start as the initial ones, untouched, with no error |
| Forms.ArticleForm.EditSlug | components/article-form.tsx:82-85 | sets the slug and marks it touched |
| Forms.ArticleForm.EditTitle | components/article-form.tsx:97-108 | on an edit form or once the slug is touched only the title changes; on a new untouched form the slug becomes the one derived from the new title |
| Forms.ArticleForm.EditOther | components/article-form.tsx:116-156 | changes the other fields and never the slug or title |
| Forms.ArticleForm.Submit | components/article-form.tsx:45-60 | submits the fields with parsed tags, and the shown error is the one for how the submit settled |
| Forms.InitialNewsFields | components/news-form.tsx:32-38 | a new form starts blank with language ES; an edit form from the item's slug, title, content, summary (or ''), and language (or 'ES' when empty) |
| Forms.NewsForm.constructor | components/news-form.tsx:29-40 | as for articles: suffix only for a new form; untouched, no error |
| Forms.NewsForm.EditSlug | components/news-form.tsx:73-76 | sets the slug and marks it touched |
| Forms.NewsForm.EditTitle | components/news-form.tsx:88-99 | on an edit form or once touched only the title changes; otherwise the slug is re-derived |
| Forms.NewsForm.EditOther | components/news-form.tsx:107-151 | changes the other fields and never the slug or title |
| Forms.NewsForm.Submit | components/news-form.tsx:42-51 | submits the fields unchanged, with 'An error occurred' as fallback message |

The classes `Forms.ArticleForm` and `Forms.NewsForm` keep an invariant: while a new form's slug is untouched, it is the slug derived from the current title with the suffix drawn once.

## Left out

- FindFreeSlug: the collision retry loop has no cap in the code. The model bounds it with `fuel`, so a run that uses the fuel up ends in `Exhausted` (`OutOfFuel`), a case the code does not have. Termination and collision probability are not modelled.
- Text.Lower, Text.Trim: only ASCII upper case is lowered. Trim uses the ECMAScript whitespace set. Lengths count characters, not UTF-16 code units.
- Slug.RandomDigits: the floating-point draw is a nondeterministic choice of an integer in range. The contract is stated for every length, but it matches the code only up to length 15: from 16 digits on a double cannot hold every integer in range, and from 22 `toString` prints exponent notation. Only length 4 is called.
- Validators.SubscribeSchema: the email grammar is a parameter, `isEmail`.
- **Library messages.** Issues whose text comes from zod itself (wrong type, missing field, bad enum value) are `LibraryMessage(field)`, without the library's wording; an issue at the root of the body (not an object) is `LibraryMessage("")`.
- **Update schemas.** `articleUpdateSchema` and `newsUpdateSchema` are modelled as predicates of acceptance only, not by the values they return.
- **Partial failure.** Store failures are one nondeterministic failure per store call. A partial write by the store is not modelled.
- **Races.** Requests are processed one at a time. The check-then-insert race on slugs is not modelled, and neither is the limiter map being per process.
- **Headers.** Header values are modelled as strings. Only the four rate headers are modelled.
- **Confirm side effect.** The welcome mail sent on confirm is a best-effort side effect whose failure is swallowed. It is not modelled, so confirm does not touch the mail log.
- **Rendering.** The test-send route, the mail templates and markdown rendering are presentation and foreign code, so they are not modelled. The rendering step of the send route appears only as a possible failure before the first mail.
- **Edit pages.** The edit pages' update actions are not part of this model.
- **Login and sessions.** Session handling and login are reduced to the presence of a non-empty session cookie.
- **Ids.** Records get numeric ids from a counter, not cuid strings.
- **Store defaults.** Store defaults are assumed: new records are unpublished and unsent, `emailConfirmed` is false and `subscribedAt` is now. `updatedAt` moves to the time of every store write: create, toggle and the send's update, so a broadcast moves the item to the top of the admin list. Subscribers' `createdAt` and `updatedAt` are not modelled, since nothing reads them.
- **List order.** Ties in the list order (equal `updatedAt`) come in an order the store chooses.
- **Routing.** The proxy's matcher configuration (`proxy.ts:64-66`) is not modelled. `HandleRequest` takes any path.
- **Redirects.** The final `redirect(...)` of the create actions is left out.
- SubscriberStore.UnsubscribePost: the model shows only its effect on the subscriber store. The RFC 8058 header handling belongs to the mail template.
