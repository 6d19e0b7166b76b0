# courriers: newsletter navigation and subscription rules in Dafny

This project models the rules in `courriers/models.py` of django-courriers, a
newsletter module for Django. It covers:

- **Newsletter query set.** `status_online` keeps the newsletters whose status is
  online (1) and whose `published_at` is strictly before the current time, oldest
  first. `get_previous(d)` and `get_next(d)` filter those to strictly before or
  strictly after `d`, order them newest first and take the first row. The
  instance methods `Newsletter.get_previous` and `Newsletter.get_next` do the same
  within the newsletter's own list, using its own `published_at`. `is_online`
  checks the status only. New newsletters are drafts (2).
- **Subscriber query set.** `subscribed`, `has_lang` and `has_langs`. `has_langs`
  builds an OR of `Q(lang=...)` tests in a loop.
- **Subscription transitions.** `NewsletterSubscriber.subscribe` and `unsubscribe`
  set `is_unsubscribed` in memory. With `commit` they persist only that column,
  through `update_fields` (`courriers/compat.py:5`).

How the model is built:

- Tables are sequences of value records: `Newsletters.Newsletter` and
  `Subscribers.Subscriber`. A filter keeps rows in table order
  (`Filtering.FilterAppend`), and each kept row appears exactly as many times as
  in the input (`Filtering.Filter`).
- `order_by('published_at')` is a sort by date. Its result is stated to be sorted
  and a permutation of the filtered rows; the order of equal dates is not fixed.
- `order_by('-published_at').first()` is "some row of maximal date". Which of
  several rows with the same date is returned is not promised.
- Timestamps are integers. The current time is a parameter `now`, in place of
  `timezone.now()`.
- The persisted subscriber rows are a `map` from primary key to row, held by
  `SubscriberStore`. The in-memory subscriber is the class
  `NewsletterSubscriber`, with mutable fields.
- Two error paths of the ORM are modelled as results:
  - `Newsletter.get_previous` / `get_next` on a newsletter with a null
    `published_at` give `Failure(NullDate)`. Django rejects `None` as the value
    of a `__lt` / `__gt` lookup.
  - `update_fields` on a subscriber with no stored row gives
    `Fail(RowNotFound)`. Django raises when a save with `update_fields` affects
    no rows. The in-memory flag has already been set at that point, as in the
    source.
- A `has_lang` / `has_langs` argument is `Option<string>`. `None` selects rows
  with no language, as Django turns `lang=None` into `IS NULL`.
- Visibility uses the strict comparison of `published_at__lt`
  (courriers/models.py:45), not `<=`.
- The navigation test (courriers/tests/__init__.py:115-119) calls `n2.prev()` and
  `n2.next()`. `models.py` defines no such methods. The lemmas state the test's
  expectations for `get_previous` and `get_next`, which it evidently means. The
  test also creates its three newsletters without a `newsletter_list`
  (courriers/tests/__init__.py:111-113), although that foreign key is not
  nullable (courriers/models.py:94). `InstanceNavigation` assumes the three
  share one list.

Files: `wrappers.dfy` (Option, Result, Outcome), `filtering.dfy` (order-preserving
filter and its lemmas), `newsletters.dfy`, `subscribers.dfy`.

## Model

| member | source | states |
|---|---|---|
| `Newsletters.Create` | courriers/models.py:87-90 | a newsletter created without a status is a draft and not online; its other fields are those given |
| `Newsletters.CreatedIsNotListed` | courriers/models.py:87-90 | a newly created newsletter is never in `status_online`, whatever its date |
| `Newsletters.SortByDate` | courriers/models.py:46 | the result is sorted ascending by publication date and is a permutation of the input |
| `Newsletters.StatusOnline` | courriers/models.py:43-46 | exactly the input rows with online status and a non-null date strictly before `now`, each as often as in the input; drafts, future-dated and undated rows are excluded; the result is sorted ascending by date |
| `Newsletters.IsOnlineIsStatusOnly` | courriers/models.py:109-110 | `is_online` is true iff the status is online (1), whatever the publication date; a draft is never online |
| `Newsletters.ListedIsOnline` | courriers/models.py:109-110 | every newsletter in `status_online` satisfies `is_online` |
| `Newsletters.IsOnlineDoesNotImplyListed` | courriers/models.py:109-110 | `is_online` does not imply being listed: an online-status newsletter with a null date, or one dated at `now`, is not in `status_online` |
| `Newsletters.Latest` | courriers/models.py:51-52 | `first()` after a descending date order: none iff there are no rows, otherwise a row whose date is at least every row's date |
| `Newsletters.Earliest` | courriers/models.py:57-58 | `first()` after an ascending date order, used by the corrected next: none iff there are no rows, otherwise a row of minimal date |
| `Newsletters.GetPrevious` | courriers/models.py:48-52 | none iff no online newsletter is published strictly before `d`; otherwise an online newsletter published before `d` whose date is maximal among them |
| `Newsletters.GetNext` | courriers/models.py:54-58 | as written: none iff no online newsletter is published strictly after `d`; otherwise an online newsletter after `d` whose date is MAXIMAL among them (the latest, not the nearest) |
| `Newsletters.NearestNext` | courriers/models.py:54-58 | corrected next: none iff no online newsletter is after `d`; otherwise one after `d` whose date is minimal among them |
| `Newsletters.BracketSameDate` | courriers/models.py:54-58 | two rows that bound every online row after `d` from below and above have the same date iff all those rows share one date |
| `Newsletters.NextAgreesWithNearest` | courriers/models.py:54-58 | when `get_next` finds a row, so does the nearest next, and the two have the same date iff all online rows after `d` share one date |
| `Newsletters.GetNextSkipsNearest` | courriers/models.py:57 | for three online newsletters n1 < n2 < n3, `get_next` from n1's date returns n3, and the nearest next returns n2 |
| `Newsletters.ThreeNewslettersNavigation` | courriers/tests/__init__.py:110-119 | for three online newsletters n1 < n2 < n3, `get_previous` from n2's date is n1 and `get_next` from it is n3 (as is the nearest next) |
| `Newsletters.InList` | courriers/models.py:102 | `filter(newsletter_list=...)` keeps exactly the rows of that list |
| `Newsletters.InListDropsOtherLists` | courriers/models.py:102 | rows of other lists appended to a list's rows drop out of the filter, which returns that list's rows unchanged |
| `Newsletters.PreviousOf` | courriers/models.py:101-103 | fails iff the newsletter's date is null; otherwise none iff no online newsletter of the same list is published before it; a result has the same list, is online, is strictly earlier (so never the newsletter itself) and is the latest such |
| `Newsletters.NextOf` | courriers/models.py:105-107 | as written: fails iff the date is null; otherwise none iff no online newsletter of the same list is after it; a result has the same list, is strictly later (never the newsletter itself) and is the LATEST such |
| `Newsletters.NearestNextOf` | courriers/models.py:105-107 | corrected instance-level next: as `NextOf`, but the result is the EARLIEST later online newsletter of the same list |
| `Newsletters.InstanceNavigation` | courriers/tests/__init__.py:110-119 | three online newsletters of one list, with rows of other lists beside them: from the middle one, previous is the first and next is the third |
| `Filtering.Filter` | courriers/models.py:44 | a filter keeps exactly the rows that pass, each as often as in the input |
| `Filtering.FilterAppend` | courriers/models.py:44 | filtering distributes over concatenation, so the kept rows keep the relative order they have in the table |
| `Subscribers.Subscribed` | courriers/models.py:129-130 | exactly the subscribers with `is_unsubscribed` false, each as often as in the input |
| `Subscribers.HasLang` | courriers/models.py:132-133 | exactly the subscribers whose language equals the given one |
| `Subscribers.LangIn` | courriers/models.py:135-144 | exactly the subscribers whose language is in `langs`, each as often as in the input (no duplicates added) |
| `Subscribers.HasLangs` | courriers/models.py:135-144 | the OR-query built in the loop selects, in table order, exactly the subscribers whose language is in the non-empty `langs` |
| `Subscribers.LangInIsUnionOfHasLang` | courriers/models.py:135-144 | a subscriber is selected by `has_langs(langs)` iff `has_lang(l)` selects it for some `l` in `langs` |
| `Subscribers.LangInSingle` | courriers/models.py:138-140 | with a single language, `has_langs` gives the same rows in the same order as `has_lang` |
| `Subscribers.SubscribedAmongLangs` | courriers/models.py:129-144 | `subscribed()` applied after `has_langs` keeps a row iff it is not unsubscribed and its language is selected |
| `Subscribers.SaveFlag` | courriers/compat.py:5 | the one-column save fails iff the row is not stored; otherwise the same keys, the row's flag is the given value, the row's other columns and all other rows are unchanged |
| `Subscribers.SaveFlagIdempotent` | courriers/models.py:175-185 | writing the same flag twice leaves the store as writing it once |
| `Subscribers.SaveFlagLastWins` | courriers/models.py:175-185 | a second flag write overrides the first |
| `Subscribers.NewsletterSubscriber.constructor` | courriers/models.py:165 | a new subscriber is subscribed (`is_unsubscribed` false) |
| `Subscribers.NewsletterSubscriber.UpdateFlag` | courriers/compat.py:5 | persists the in-memory flag into this subscriber's stored row only; fails and changes nothing if there is no such row |
| `Subscribers.NewsletterSubscriber.Subscribe` | courriers/models.py:175-179 | the flag is false afterwards and no other in-memory field changes; without commit the store is unchanged; with commit only the stored flag of this row becomes false, or the save fails if the row is not stored |
| `Subscribers.NewsletterSubscriber.Unsubscribe` | courriers/models.py:181-185 | the flag is true afterwards and no other in-memory field changes; the store as for `Subscribe`, with the flag true |
| `Subscribers.TransitionsAreIdempotent` | courriers/models.py:175-185 | subscribing twice, or unsubscribing twice, leaves memory and store as a single call does, with the same outcome: without commit the store is unchanged; with commit the call fails iff the row is not stored, and then the store is unchanged |

## Left out

- `courriers/views.py`: class-based views, URL reversal, `get_object_or_404`, pagination and template context. This is HTTP plumbing over the framework.
- `get_file_path` (courriers/models.py:18-22): it depends on Django's `slugify` / `truncatechars` and on `os.path`.
- `NewsletterList`, `NewsletterItem` and the `__str__` / `get_absolute_url` methods. They are field declarations and URL reversal, with no rule to model.
- The managers (courriers/models.py:61-72, 147-158). They only delegate to the query-set methods, which are modelled.
- Record fields the rules never read are not modelled: name, headline, cover, languages.
- Lazy query sets, `Q` objects and database ordering are modelled as filters and sorts over sequences. Which of several rows with the same date the database returns first after `order_by('published_at')` or `order_by('-published_at')` is not modelled.
- `Subscribers.NewsletterSubscriber.Subscribe`, `Subscribers.NewsletterSubscriber.Unsubscribe`: `commit` is an explicit parameter. The source's default of `commit=True` (courriers/models.py:175, 181) has no Dafny counterpart; a call without the argument corresponds to `commit == true`.
- The subscriber queries (`Subscribed`, `HasLang`, `LangIn`, `HasLangs`) work on a sequence of rows. They are not evaluated over the `SubscriberStore` map that `Subscribe` and `Unsubscribe` write to. So the model does not state, across the two, that `subscribed()` excludes a row after a committed unsubscribe.
- `Subscribers.HasLangs`: requires a non-empty `langs`. With an empty `langs` the source calls `filter(None)`, and the Django behaviour of that call is not part of this model.
- Only the effect of the partial-field write is modelled. Concurrency and the database's transactions are not. Other save failures (database errors) are not modelled either.
- `timezone.now()` is the parameter `now`. Timezones and sub-second precision are not modelled.
- `SubscriptionForm`, the backends and duplicate-subscription validation are used by the tests, but they are not part of this model. Email uniqueness is not modelled.

## Findings

| source | as written | input that shows it | evidently intended | confidence | as-written member | corrected member |
|---|---|---|---|---|---|---|
| courriers/models.py:57 | `get_next` orders the rows after `d` by `-published_at` before `first()`, so it returns the latest newsletter after `d` | online newsletters n1, n2, n3 published at 1, 2, 3, now 10: `get_next(1)` returns n3, skipping n2 | the nearest later newsletter, n2 (ascending order, mirroring `get_previous`) | not executed; proved on the model; the three-row test cannot show it, because from the middle row the latest and the nearest later rows coincide | `Newsletters.GetNextSkipsNearest` (with `Newsletters.GetNext`, `Newsletters.NextOf`) | `Newsletters.NearestNext` (used by `Newsletters.NearestNextOf`) |

`NextOf` stays as written, so that the model matches the code. `NearestNextOf` is
the instance-level method with the fix applied. `NextAgreesWithNearest` states when
the two agree.
