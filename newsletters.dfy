/** Newsletters and their query set: which newsletters are online at a given
    moment, in what order, and how a reader navigates to the previous and the
    next one. Timestamps are integers; the current time is a parameter. */
module Newsletters {
  import opened Wrappers
  import opened Filtering

  /** The two values of the status column. */
  const STATUS_ONLINE: nat := 1
  const STATUS_DRAFT: nat := 2

  /** A row of the newsletter table, reduced to what the query rules read:
      primary key, owning list, status and the nullable publication time. */
  datatype Newsletter = Newsletter(id: int, listId: int, status: nat, publishedAt: Option<int>)

  /** A newsletter as created without an explicit status: it is a draft. */
  function Create(id: int, listId: int, publishedAt: Option<int>): (n: Newsletter)
    ensures n.status == STATUS_DRAFT && !IsOnline(n)
    ensures n.id == id && n.listId == listId && n.publishedAt == publishedAt
  {
    Newsletter(id, listId, STATUS_DRAFT, publishedAt)
  }

  /** `Newsletter.is_online`: a check of the status alone. */
  predicate IsOnline(n: Newsletter)
  {
    n.status == STATUS_ONLINE
  }

  /** The lookup `published_at__lt=t`; a null publication time never matches. */
  predicate PublishedBefore(n: Newsletter, t: int)
  {
    n.publishedAt.Some? && n.publishedAt.value < t
  }

  /** The lookup `published_at__gt=t`. */
  predicate PublishedAfter(n: Newsletter, t: int)
  {
    n.publishedAt.Some? && n.publishedAt.value > t
  }

  /** The condition of `status_online`: online status and published strictly before now. */
  predicate OnlineAt(n: Newsletter, now: int)
  {
    IsOnline(n) && PublishedBefore(n, now)
  }

  /** The order of `order_by('published_at')` as a total preorder; rows with a
      null date come first, which never matters here because such rows are
      never online. */
  predicate DateLe(a: Newsletter, b: Newsletter)
  {
    a.publishedAt.None? || (b.publishedAt.Some? && a.publishedAt.value <= b.publishedAt.value)
  }

  predicate SortedByDate(s: seq<Newsletter>)
  {
    forall i, j | 0 <= i < j < |s| :: DateLe(s[i], s[j])
  }

  function InsertByDate(x: Newsletter, s: seq<Newsletter>): (r: seq<Newsletter>)
    requires SortedByDate(s)
    ensures SortedByDate(r)
    ensures multiset(r) == multiset(s) + multiset{x}
  {
    if s == [] then [x]
    else if DateLe(x, s[0]) then [x] + s
    else
      assert s == [s[0]] + s[1..];
      var t := InsertByDate(x, s[1..]);
      assert forall k | 0 <= k < |t| :: DateLe(s[0], t[k]) by {
        forall k | 0 <= k < |t| ensures DateLe(s[0], t[k]) {
          assert t[k] in multiset(t);
          assert t[k] == x || t[k] in s[1..];
        }
      }
      [s[0]] + t
  }

  /** Sorting by publication date, ascending; ties are left in no promised order. */
  function SortByDate(s: seq<Newsletter>): (r: seq<Newsletter>)
    ensures SortedByDate(r)
    ensures multiset(r) == multiset(s)
  {
    if s == [] then []
    else
      assert s == [s[0]] + s[1..];
      InsertByDate(s[0], SortByDate(s[1..]))
  }

  /** `NewsletterQuerySet.status_online`: the online newsletters published
      before `now`, oldest first. */
  function StatusOnline(s: seq<Newsletter>, now: int): (r: seq<Newsletter>)
    ensures forall n :: n in r <==> n in s && OnlineAt(n, now)
    ensures forall n :: multiset(r)[n] == if OnlineAt(n, now) then multiset(s)[n] else 0
    ensures SortedByDate(r)
  {
    var online := Filter(s, n => OnlineAt(n, now));
    var r := SortByDate(online);
    assert forall n :: n in r <==> n in online by {
      forall n ensures n in r <==> n in online {
        assert n in r <==> multiset(r)[n] > 0;
        assert n in online <==> multiset(online)[n] > 0;
      }
    }
    r
  }

  /** `order_by('-published_at').first()`: some row of maximal date, or none
      when there are no rows. Which of several rows with the same date is
      picked is not promised. */
  function Latest(rows: seq<Newsletter>): (r: Option<Newsletter>)
    ensures r.None? <==> rows == []
    ensures r.Some? ==> r.value in rows && forall m :: m in rows ==> DateLe(m, r.value)
  {
    if rows == [] then None
    else
      assert rows == [rows[0]] + rows[1..];
      var rest := Latest(rows[1..]);
      if rest.Some? && DateLe(rows[0], rest.value) then rest else Some(rows[0])
  }

  /** `order_by('published_at').first()`: some row of minimal date. */
  function Earliest(rows: seq<Newsletter>): (r: Option<Newsletter>)
    ensures r.None? <==> rows == []
    ensures r.Some? ==> r.value in rows && forall m :: m in rows ==> DateLe(r.value, m)
  {
    if rows == [] then None
    else
      assert rows == [rows[0]] + rows[1..];
      var rest := Earliest(rows[1..]);
      if rest.Some? && DateLe(rest.value, rows[0]) then rest else Some(rows[0])
  }

  /** An online newsletter of `s` published strictly before `d`: a row that
      `get_previous(d)` may return. */
  predicate OnlineBefore(s: seq<Newsletter>, now: int, d: int, n: Newsletter)
  {
    n in s && OnlineAt(n, now) && PublishedBefore(n, d)
  }

  /** An online newsletter of `s` published strictly after `d`. */
  predicate OnlineAfter(s: seq<Newsletter>, now: int, d: int, n: Newsletter)
  {
    n in s && OnlineAt(n, now) && PublishedAfter(n, d)
  }

  /** `NewsletterQuerySet.get_previous(d)`: the latest online newsletter
      published strictly before `d`. */
  function GetPrevious(s: seq<Newsletter>, now: int, d: int): (r: Option<Newsletter>)
    ensures r.None? <==> !exists n :: OnlineBefore(s, now, d, n)
    ensures r.Some? ==> OnlineBefore(s, now, d, r.value)
    ensures r.Some? ==> forall n :: OnlineBefore(s, now, d, n) ==> DateLe(n, r.value)
  {
    var rows := Filter(StatusOnline(s, now), n => PublishedBefore(n, d));
    assert forall n :: n in rows <==> OnlineBefore(s, now, d, n);
    assert rows != [] ==> OnlineBefore(s, now, d, rows[0]);
    Latest(rows)
  }

  /** `NewsletterQuerySet.get_next(d)` as written: the rows after `d` are ordered
      descending before `first()`, so this is the LATEST online newsletter
      published strictly after `d`, not the nearest one. */
  function GetNext(s: seq<Newsletter>, now: int, d: int): (r: Option<Newsletter>)
    ensures r.None? <==> !exists n :: OnlineAfter(s, now, d, n)
    ensures r.Some? ==> OnlineAfter(s, now, d, r.value)
    ensures r.Some? ==> forall n :: OnlineAfter(s, now, d, n) ==> DateLe(n, r.value)
  {
    var rows := Filter(StatusOnline(s, now), n => PublishedAfter(n, d));
    assert forall n :: n in rows <==> OnlineAfter(s, now, d, n);
    assert rows != [] ==> OnlineAfter(s, now, d, rows[0]);
    Latest(rows)
  }

  /** The evidently intended "next": the EARLIEST online newsletter published
      strictly after `d` (ascending order before `first()`). */
  function NearestNext(s: seq<Newsletter>, now: int, d: int): (r: Option<Newsletter>)
    ensures r.None? <==> !exists n :: OnlineAfter(s, now, d, n)
    ensures r.Some? ==> OnlineAfter(s, now, d, r.value)
    ensures r.Some? ==> forall n :: OnlineAfter(s, now, d, n) ==> DateLe(r.value, n)
  {
    var rows := Filter(StatusOnline(s, now), n => PublishedAfter(n, d));
    assert forall n :: n in rows <==> OnlineAfter(s, now, d, n);
    assert rows != [] ==> OnlineAfter(s, now, d, rows[0]);
    Earliest(rows)
  }

  /** `is_online` holds exactly for the online status and does not look at
      the publication time: changing the date never changes it. */
  lemma IsOnlineIsStatusOnly(n: Newsletter, publishedAt: Option<int>)
    ensures IsOnline(n) <==> n.status == STATUS_ONLINE
    ensures IsOnline(n.(publishedAt := publishedAt)) == IsOnline(n)
    ensures n.status == STATUS_DRAFT ==> !IsOnline(n)
  {
  }

  /** Membership in `status_online` implies `is_online`. */
  lemma ListedIsOnline(s: seq<Newsletter>, now: int, n: Newsletter)
    requires n in StatusOnline(s, now)
    ensures IsOnline(n) && PublishedBefore(n, now)
  {
  }

  /** The converse fails: `is_online` ignores the publication time, so an
      undated or future-dated newsletter with online status is not listed. */
  lemma IsOnlineDoesNotImplyListed(now: int)
    ensures exists n :: IsOnline(n) && n.publishedAt.None? && n !in StatusOnline([n], now)
    ensures exists n :: IsOnline(n) && n.publishedAt.Some? && n !in StatusOnline([n], now)
  {
    var undated := Newsletter(0, 0, STATUS_ONLINE, None);
    assert undated !in StatusOnline([undated], now);
    var future := Newsletter(0, 0, STATUS_ONLINE, Some(now));
    assert future !in StatusOnline([future], now);
  }

  /** A freshly created newsletter is a draft and so never listed, whatever its date. */
  lemma CreatedIsNotListed(s: seq<Newsletter>, now: int, id: int, listId: int, publishedAt: Option<int>)
    ensures Create(id, listId, publishedAt) !in StatusOnline(s, now)
  {
  }

  /** Two candidates bracketing every online row after `d` have the same date
      exactly when all those rows share one date. */
  lemma BracketSameDate(s: seq<Newsletter>, now: int, d: int, low: Newsletter, high: Newsletter)
    requires OnlineAfter(s, now, d, low) && OnlineAfter(s, now, d, high)
    requires forall n :: OnlineAfter(s, now, d, n) ==> DateLe(low, n) && DateLe(n, high)
    ensures high.publishedAt == low.publishedAt
        <==> forall m, n :: OnlineAfter(s, now, d, m) && OnlineAfter(s, now, d, n) ==> m.publishedAt == n.publishedAt
  {
  }

  /** Where the as-written `get_next` and the nearest next agree: they pick
      rows of the same date exactly when all online rows after `d` share one date. */
  lemma NextAgreesWithNearest(s: seq<Newsletter>, now: int, d: int)
    requires GetNext(s, now, d).Some?
    ensures NearestNext(s, now, d).Some?
    ensures GetNext(s, now, d).value.publishedAt == NearestNext(s, now, d).value.publishedAt
        <==> forall m, n :: OnlineAfter(s, now, d, m) && OnlineAfter(s, now, d, n) ==> m.publishedAt == n.publishedAt
  {
    var latest, nearest := GetNext(s, now, d).value, NearestNext(s, now, d).value;
    BracketSameDate(s, now, d, nearest, latest);
  }

  /** The finding: with three online newsletters, `get_next` of the first one's
      date skips the second and returns the third. */
  lemma GetNextSkipsNearest(n1: Newsletter, n2: Newsletter, n3: Newsletter, now: int)
    requires OnlineAt(n1, now) && OnlineAt(n2, now) && OnlineAt(n3, now)
    requires n1.publishedAt.value < n2.publishedAt.value < n3.publishedAt.value
    ensures GetNext([n1, n2, n3], now, n1.publishedAt.value) == Some(n3)
    ensures NearestNext([n1, n2, n3], now, n1.publishedAt.value) == Some(n2)
  {
    var s, d := [n1, n2, n3], n1.publishedAt.value;
    assert OnlineAfter(s, now, d, n2) && OnlineAfter(s, now, d, n3);
    var next, nearest := GetNext(s, now, d).value, NearestNext(s, now, d).value;
    assert next in s && nearest in s;
  }

  /** Three online newsletters published one after the other before `now`:
      from the middle one, the previous is the first and the next is the third. */
  lemma ThreeNewslettersNavigation(n1: Newsletter, n2: Newsletter, n3: Newsletter, now: int)
    requires OnlineAt(n1, now) && OnlineAt(n2, now) && OnlineAt(n3, now)
    requires n1.publishedAt.value < n2.publishedAt.value < n3.publishedAt.value
    ensures GetPrevious([n1, n2, n3], now, n2.publishedAt.value) == Some(n1)
    ensures GetNext([n1, n2, n3], now, n2.publishedAt.value) == Some(n3)
    ensures NearestNext([n1, n2, n3], now, n2.publishedAt.value) == Some(n3)
  {
    var s, d := [n1, n2, n3], n2.publishedAt.value;
    assert OnlineBefore(s, now, d, n1) && OnlineAfter(s, now, d, n3);
    var p, q, r := GetPrevious(s, now, d).value, GetNext(s, now, d).value, NearestNext(s, now, d).value;
    assert p in s && q in s && r in s;
  }

  /** The newsletters of one list: `filter(newsletter_list=listId)`. */
  function InList(s: seq<Newsletter>, listId: int): (r: seq<Newsletter>)
    ensures forall n :: n in r <==> n in s && n.listId == listId
  {
    Filter(s, (n: Newsletter) => n.listId == listId)
  }

  /** A comparison lookup against a null value is rejected by the ORM. */
  datatype LookupError = NullDate

  /** `Newsletter.get_previous`: the previous online newsletter of the same
      list, compared with this newsletter's own publication time. */
  function PreviousOf(s: seq<Newsletter>, now: int, n: Newsletter): (r: Result<Option<Newsletter>, LookupError>)
    ensures r.Failure? <==> n.publishedAt.None?
    ensures r.Success? ==>
      (r.value.None? <==>
         !exists m :: m in s && m.listId == n.listId && OnlineAt(m, now) && PublishedBefore(m, n.publishedAt.value))
    ensures r.Success? && r.value.Some? ==>
      var p := r.value.value;
      && p in s && p.listId == n.listId && p != n && OnlineAt(p, now)
      && PublishedBefore(p, n.publishedAt.value)
      && forall m :: m in s && m.listId == n.listId && OnlineAt(m, now) && PublishedBefore(m, n.publishedAt.value)
           ==> DateLe(m, p)
  {
    if n.publishedAt.None? then Failure(NullDate)
    else Success(GetPrevious(InList(s, n.listId), now, n.publishedAt.value))
  }

  /** `Newsletter.get_next` as written: the latest online newsletter of the
      same list published after this one. */
  function NextOf(s: seq<Newsletter>, now: int, n: Newsletter): (r: Result<Option<Newsletter>, LookupError>)
    ensures r.Failure? <==> n.publishedAt.None?
    ensures r.Success? ==>
      (r.value.None? <==>
         !exists m :: m in s && m.listId == n.listId && OnlineAt(m, now) && PublishedAfter(m, n.publishedAt.value))
    ensures r.Success? && r.value.Some? ==>
      var p := r.value.value;
      && p in s && p.listId == n.listId && p != n && OnlineAt(p, now)
      && PublishedAfter(p, n.publishedAt.value)
      && forall m :: m in s && m.listId == n.listId && OnlineAt(m, now) && PublishedAfter(m, n.publishedAt.value)
           ==> DateLe(m, p)
  {
    if n.publishedAt.None? then Failure(NullDate)
    else Success(GetNext(InList(s, n.listId), now, n.publishedAt.value))
  }

  /** The corrected `Newsletter.get_next`: the nearest later online newsletter of the same list. */
  function NearestNextOf(s: seq<Newsletter>, now: int, n: Newsletter): (r: Result<Option<Newsletter>, LookupError>)
    ensures r.Failure? <==> n.publishedAt.None?
    ensures r.Success? ==>
      (r.value.None? <==>
         !exists m :: m in s && m.listId == n.listId && OnlineAt(m, now) && PublishedAfter(m, n.publishedAt.value))
    ensures r.Success? && r.value.Some? ==>
      var p := r.value.value;
      && p in s && p.listId == n.listId && p != n && OnlineAt(p, now)
      && PublishedAfter(p, n.publishedAt.value)
      && forall m :: m in s && m.listId == n.listId && OnlineAt(m, now) && PublishedAfter(m, n.publishedAt.value)
           ==> DateLe(p, m)
  {
    if n.publishedAt.None? then Failure(NullDate)
    else Success(NearestNext(InList(s, n.listId), now, n.publishedAt.value))
  }

  /** Rows of other lists drop out of `filter(newsletter_list=...)`. */
  lemma InListDropsOtherLists(three: seq<Newsletter>, others: seq<Newsletter>, listId: int)
    requires forall m :: m in three ==> m.listId == listId
    requires forall m :: m in others ==> m.listId != listId
    ensures InList(three + others, listId) == three
  {
    FilterAppend(three, others, (n: Newsletter) => n.listId == listId);
    FilterAll(three, (n: Newsletter) => n.listId == listId);
  }

  /** The navigation test: three newsletters of one list, an hour apart, all
      published before now; seen from the second, previous is the first and
      next is the third. Rows of other lists do not interfere. */
  lemma InstanceNavigation(n1: Newsletter, n2: Newsletter, n3: Newsletter, others: seq<Newsletter>, now: int)
    requires OnlineAt(n1, now) && OnlineAt(n2, now) && OnlineAt(n3, now)
    requires n1.listId == n2.listId == n3.listId
    requires n1.publishedAt.value < n2.publishedAt.value < n3.publishedAt.value
    requires forall m :: m in others ==> m.listId != n2.listId
    ensures PreviousOf([n1, n2, n3] + others, now, n2) == Success(Some(n1))
    ensures NextOf([n1, n2, n3] + others, now, n2) == Success(Some(n3))
    ensures NearestNextOf([n1, n2, n3] + others, now, n2) == Success(Some(n3))
  {
    InListDropsOtherLists([n1, n2, n3], others, n2.listId);
    ThreeNewslettersNavigation(n1, n2, n3, now);
  }
}
