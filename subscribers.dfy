/** Newsletter subscribers: the query-set filters on subscription state and
    language, and the subscribe/unsubscribe transitions with their optional
    one-column write to the store. */
module Subscribers {
  import opened Wrappers
  import opened Filtering

  /** A row of the subscriber table. `lang` is nullable, as is the linked user. */
  datatype Subscriber = Subscriber(
    id: int,
    email: string,
    lang: Option<string>,
    isUnsubscribed: bool,
    listId: int,
    userId: Option<int>,
    subscribedAt: int)

  /** `NewsletterSubscriberQuerySet.subscribed`: exactly the rows not flagged unsubscribed. */
  function Subscribed(s: seq<Subscriber>): (r: seq<Subscriber>)
    ensures forall x :: x in r <==> x in s && !x.isUnsubscribed
    ensures forall x :: multiset(r)[x] == if x.isUnsubscribed then 0 else multiset(s)[x]
  {
    Filter(s, (x: Subscriber) => !x.isUnsubscribed)
  }

  /** `NewsletterSubscriberQuerySet.has_lang`: exactly the rows whose language
      equals `lang`; a null `lang` selects the rows without a language. */
  function HasLang(s: seq<Subscriber>, lang: Option<string>): (r: seq<Subscriber>)
    ensures forall x :: x in r <==> x in s && x.lang == lang
    ensures forall x :: multiset(r)[x] == if x.lang == lang then multiset(s)[x] else 0
  {
    Filter(s, (x: Subscriber) => x.lang == lang)
  }

  /** The rows whose language is one of `langs`, in table order: what `has_langs` selects. */
  function LangIn(s: seq<Subscriber>, langs: seq<Option<string>>): (r: seq<Subscriber>)
    ensures forall x :: x in r <==> x in s && x.lang in langs
    ensures forall x :: multiset(r)[x] == if x.lang in langs then multiset(s)[x] else 0
  {
    Filter(s, (x: Subscriber) => x.lang in langs)
  }

  /** A disjunction of `Q(lang=...)` equality tests, as `has_langs` builds it. */
  datatype LangQuery = LangIs(lang: Option<string>) | Or(left: LangQuery, right: LangQuery)

  predicate Matches(q: LangQuery, lang: Option<string>)
  {
    match q
    case LangIs(l) => lang == l
    case Or(a, b) => Matches(a, lang) || Matches(b, lang)
  }

  /** `NewsletterSubscriberQuerySet.has_langs`: the query is grown one
      language at a time (the first becomes the query, each later one is
      OR-ed onto it), then applied as a filter. */
  method HasLangs(s: seq<Subscriber>, langs: seq<Option<string>>) returns (r: seq<Subscriber>)
    requires |langs| > 0
    ensures r == LangIn(s, langs)
    ensures forall x :: x in r <==> x in s && x.lang in langs
  {
    var filterQ: Option<LangQuery> := None;
    for i := 0 to |langs|
      invariant filterQ.None? <==> i == 0
      invariant filterQ.Some? ==> forall l :: Matches(filterQ.value, l) <==> l in langs[..i]
    {
      assert langs[..i + 1] == langs[..i] + [langs[i]];
      if filterQ.None? {
        filterQ := Some(LangIs(langs[i]));
      } else {
        filterQ := Some(Or(filterQ.value, LangIs(langs[i])));
      }
    }
    assert langs[..|langs|] == langs;
    var q := filterQ.value;
    r := Filter(s, (x: Subscriber) => Matches(q, x.lang));
    FilterCongruent(s, (x: Subscriber) => Matches(q, x.lang), (x: Subscriber) => x.lang in langs);
  }

  /** `has_langs` is the union of the `has_lang` results, one per language. */
  lemma LangInIsUnionOfHasLang(s: seq<Subscriber>, langs: seq<Option<string>>)
    ensures forall x :: x in LangIn(s, langs) <==> exists l :: l in langs && x in HasLang(s, l)
  {
  }

  /** With one language, `has_langs` is `has_lang`, row for row and in order. */
  lemma LangInSingle(s: seq<Subscriber>, lang: Option<string>)
    ensures LangIn(s, [lang]) == HasLang(s, lang)
  {
    FilterCongruent(s, (x: Subscriber) => x.lang in [lang], (x: Subscriber) => x.lang == lang);
  }

  /** An unsubscribed row is never offered by `subscribed()`, whatever its
      language; a subscribed row of a selected language is. */
  lemma SubscribedAmongLangs(s: seq<Subscriber>, langs: seq<Option<string>>, x: Subscriber)
    requires x in s
    ensures x in Subscribed(LangIn(s, langs)) <==> !x.isUnsubscribed && x.lang in langs
  {
  }

  /** `save(update_fields=...)` on a row the store does not hold fails. */
  datatype SaveError = RowNotFound

  /** The store after `save(update_fields=('is_unsubscribed',))` of subscriber
      `id` with flag value `flag`: only that column of that row is written. */
  function SaveFlag(rows: map<int, Subscriber>, id: int, flag: bool): (r: Result<map<int, Subscriber>, SaveError>)
    ensures r.Failure? <==> id !in rows
    ensures r.Success? ==> r.value.Keys == rows.Keys
    ensures r.Success? ==> r.value[id].isUnsubscribed == flag
    ensures r.Success? ==> r.value[id].(isUnsubscribed := rows[id].isUnsubscribed) == rows[id]
    ensures r.Success? ==> forall k :: k in rows && k != id ==> r.value[k] == rows[k]
  {
    if id !in rows then Failure(RowNotFound)
    else Success(rows[id := rows[id].(isUnsubscribed := flag)])
  }

  /** Writing the same flag twice is the same as writing it once. */
  lemma SaveFlagIdempotent(rows: map<int, Subscriber>, id: int, flag: bool)
    requires id in rows
    ensures SaveFlag(SaveFlag(rows, id, flag).value, id, flag) == SaveFlag(rows, id, flag)
  {
    var once := SaveFlag(rows, id, flag).value;
    assert once[id := once[id].(isUnsubscribed := flag)] == once;
  }

  /** A later write of the flag overrides an earlier one (subscribe, then
      unsubscribe, leaves the row unsubscribed). */
  lemma SaveFlagLastWins(rows: map<int, Subscriber>, id: int, first: bool, second: bool)
    requires id in rows
    ensures SaveFlag(SaveFlag(rows, id, first).value, id, second) == SaveFlag(rows, id, second)
  {
    var once := SaveFlag(rows, id, first).value;
    assert once[id].(isUnsubscribed := second) == rows[id].(isUnsubscribed := second);
    assert once[id := once[id].(isUnsubscribed := second)] == rows[id := rows[id].(isUnsubscribed := second)];
  }

  /** The persisted subscriber rows, keyed by primary key. */
  class SubscriberStore {
    var rows: map<int, Subscriber>

    constructor (rows: map<int, Subscriber>)
      ensures this.rows == rows
    {
      this.rows := rows;
    }
  }

  /** A subscriber instance held in memory, whose fields may differ from its stored row. */
  class NewsletterSubscriber {
    var id: int
    var email: string
    var lang: Option<string>
    var isUnsubscribed: bool
    var listId: int
    var userId: Option<int>
    var subscribedAt: int

    /** A new subscriber starts out subscribed. */
    constructor (id: int, email: string, lang: Option<string>, listId: int, userId: Option<int>, subscribedAt: int)
      ensures !isUnsubscribed
      ensures Record() == Subscriber(id, email, lang, false, listId, userId, subscribedAt)
    {
      this.id := id;
      this.email := email;
      this.lang := lang;
      this.isUnsubscribed := false;
      this.listId := listId;
      this.userId := userId;
      this.subscribedAt := subscribedAt;
    }

    /** The in-memory field values as a row. */
    function Record(): (r: Subscriber)
      reads this
    {
      Subscriber(id, email, lang, isUnsubscribed, listId, userId, subscribedAt)
    }

    /** `update_fields(self, fields=('is_unsubscribed',))`: persists the
        in-memory flag, and nothing else, into this subscriber's stored row. */
    method UpdateFlag(store: SubscriberStore) returns (outcome: Outcome<SaveError>)
      modifies store`rows
      ensures outcome.Fail? <==> id !in old(store.rows)
      ensures outcome.Fail? ==> store.rows == old(store.rows)
      ensures outcome.Pass? ==> store.rows == SaveFlag(old(store.rows), id, isUnsubscribed).value
    {
      var saved := SaveFlag(store.rows, id, isUnsubscribed);
      if saved.Failure? {
        outcome := Fail(saved.error);
      } else {
        store.rows := saved.value;
        outcome := Pass;
      }
    }

    /** `NewsletterSubscriber.subscribe`: clears the flag in memory, and with
        `commit` writes that one column to the store. */
    method Subscribe(commit: bool, store: SubscriberStore) returns (outcome: Outcome<SaveError>)
      modifies this`isUnsubscribed, store`rows
      ensures !isUnsubscribed
      ensures Record() == old(Record()).(isUnsubscribed := false)
      ensures !commit ==> outcome.Pass? && store.rows == old(store.rows)
      ensures commit ==> (outcome.Fail? <==> id !in old(store.rows))
      ensures commit && outcome.Fail? ==> store.rows == old(store.rows)
      ensures commit && outcome.Pass? ==> store.rows == SaveFlag(old(store.rows), id, false).value
    {
      isUnsubscribed := false;
      outcome := Pass;
      if commit {
        outcome := UpdateFlag(store);
      }
    }

    /** `NewsletterSubscriber.unsubscribe`: sets the flag in memory, and with
        `commit` writes that one column to the store. */
    method Unsubscribe(commit: bool, store: SubscriberStore) returns (outcome: Outcome<SaveError>)
      modifies this`isUnsubscribed, store`rows
      ensures isUnsubscribed
      ensures Record() == old(Record()).(isUnsubscribed := true)
      ensures !commit ==> outcome.Pass? && store.rows == old(store.rows)
      ensures commit ==> (outcome.Fail? <==> id !in old(store.rows))
      ensures commit && outcome.Fail? ==> store.rows == old(store.rows)
      ensures commit && outcome.Pass? ==> store.rows == SaveFlag(old(store.rows), id, true).value
    {
      isUnsubscribed := true;
      outcome := Pass;
      if commit {
        outcome := UpdateFlag(store);
      }
    }
  }

  /** Subscribing twice, or unsubscribing twice, ends in the same memory and
      store state, with the same outcome, as doing it once. */
  method TransitionsAreIdempotent(sub: NewsletterSubscriber, store: SubscriberStore, commit: bool, unsubscribe: bool)
    returns (outcome: Outcome<SaveError>)
    modifies sub`isUnsubscribed, store`rows
    ensures sub.isUnsubscribed == unsubscribe
    ensures sub.Record() == old(sub.Record()).(isUnsubscribed := unsubscribe)
    ensures !commit ==> outcome.Pass? && store.rows == old(store.rows)
    ensures commit ==> (outcome.Fail? <==> sub.id !in old(store.rows))
    ensures commit && sub.id !in old(store.rows) ==> store.rows == old(store.rows)
    ensures commit && sub.id in old(store.rows) ==> store.rows == SaveFlag(old(store.rows), sub.id, unsubscribe).value
  {
    if unsubscribe {
      var _ := sub.Unsubscribe(commit, store);
      outcome := sub.Unsubscribe(commit, store);
      if commit && sub.id in old(store.rows) {
        SaveFlagIdempotent(old(store.rows), sub.id, true);
      }
    } else {
      var _ := sub.Subscribe(commit, store);
      outcome := sub.Subscribe(commit, store);
      if commit && sub.id in old(store.rows) {
        SaveFlagIdempotent(old(store.rows), sub.id, false);
      }
    }
  }
}
