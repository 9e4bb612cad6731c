/**
 * The notifications table of src/app/actions/notifications.ts and the
 * inactive-quote alerts `checkInactiveQuotes` writes into it: for every
 * draft or sent quote of the user and every threshold of 7, 10, 15 and 30
 * days that the quote's age has reached, an alert is inserted unless the
 * user already has a notification for that quote whose title contains the
 * threshold's key. Clock readings are parameters (milliseconds); the quote
 * rows are the result of the quotes query (`None` when it failed); the
 * database assigns a new row its position as id and the current time as
 * creation time.
 */
module Notifications {
  import opened Wrappers
  import Strings
  import Numbers
  import Ranking
  import Seqs

  datatype Kind = Info | Success | Warning | Alert

  datatype Notification = Notification(id: nat, userId: string, title: string, message: string,
                                       link: string, kind: Kind, read: bool, createdAt: int)

  /** The columns of a quote row that the check reads; times are milliseconds. */
  datatype Quote = Quote(id: string, userId: string, clientName: string, status: string,
                         createdAt: int, updatedAt: Option<int>)

  const Thresholds: seq<nat> := [7, 10, 15, 30]

  /** Milliseconds in a day: 1000 * 60 * 60 * 24. */
  const DayMs: nat := 86400000

  /** How many notifications a listing returns at most. */
  const PageSize: nat := 20

  // ------------------------------------------------------------- quote age

  /** The quotes query: the user's quotes whose status is draft or sent. */
  predicate IsActive(q: Quote, userId: string) {
    q.userId == userId && (q.status == "draft" || q.status == "sent")
  }

  function ActiveQuotes(quotes: seq<Quote>, userId: string): (r: seq<Quote>)
    ensures forall q :: q in r <==> q in quotes && IsActive(q, userId)
  {
    var r := Seqs.Filter(quotes, ActiveFor(userId));
    assert forall q :: q in quotes && IsActive(q, userId) ==> q in r by {
      forall q | q in quotes && IsActive(q, userId) ensures q in r {
        var i :| 0 <= i < |quotes| && quotes[i] == q;
      }
    }
    r
  }

  function ActiveFor(userId: string): Quote -> bool {
    (q: Quote) => IsActive(q, userId)
  }

  /** `updated_at || created_at`. */
  function LastUpdate(q: Quote): (t: int)
    ensures q.updatedAt.Some? ==> t == q.updatedAt.value
    ensures q.updatedAt.None? ==> t == q.createdAt
  {
    if q.updatedAt.Some? then q.updatedAt.value else q.createdAt
  }

  function Abs(x: int): (a: nat)
    ensures a == x || a == -x
  {
    if x < 0 then -x else x
  }

  /** `Math.ceil(x / d)` for a non-negative `x`: the least `q` with `x <= q * d`. */
  function CeilDiv(x: nat, d: nat): (q: nat)
    requires d > 0
    ensures x <= q * d
    ensures q > 0 ==> (q - 1) * d < x
  {
    (x + d - 1) / d
  }

  /** `diffDays`: whole days, rounded up, between the last update and now. */
  function AgeDays(q: Quote, now: int): nat {
    CeilDiv(Abs(now - LastUpdate(q)), DayMs)
  }

  /** The age in days is exact to the day: `now` is within `AgeDays` days of the last
      update, and more than one day less would not reach it. */
  lemma AgeDaysBounds(q: Quote, now: int)
    ensures Abs(now - LastUpdate(q)) <= AgeDays(q, now) * DayMs
    ensures AgeDays(q, now) > 0 ==> (AgeDays(q, now) - 1) * DayMs < Abs(now - LastUpdate(q))
    ensures AgeDays(q, now) == 0 <==> now == LastUpdate(q)
  {
  }

  // ----------------------------------------------------------- alert texts

  /** `titleKey`: the text the existing-alert query looks for. */
  function TitleKey(days: nat): string {
    Numbers.NatToString(days) + " dias sem movimentação"
  }

  function AlertTitle(days: nat): string {
    "Alerta: " + TitleKey(days)
  }

  function QuoteLink(id: string): string {
    "/quotes/" + id
  }

  function AlertMessage(clientName: string, days: nat): string {
    "O orçamento para " + clientName + " não é atualizado há " + Numbers.NatToString(days) + " dias."
  }

  /** A row the existing-alert query counts: same user and link, and a title that
      contains the key ignoring case (`ilike '%key%'`). */
  predicate Matches(n: Notification, userId: string, link: string, key: string) {
    n.userId == userId && n.link == link && Strings.Contains(Strings.Lower(n.title), Strings.Lower(key))
  }

  predicate HasAlert(rows: seq<Notification>, userId: string, link: string, key: string) {
    exists k | 0 <= k < |rows| :: Matches(rows[k], userId, link, key)
  }

  /** The `count` of the existing-alert query. */
  function MatchCount(rows: seq<Notification>, userId: string, link: string, key: string): (c: nat)
    ensures c == 0 <==> !HasAlert(rows, userId, link, key)
    ensures c <= |rows|
  {
    if rows == [] then 0
    else
      var p := rows[..|rows| - 1];
      assert forall k | 0 <= k < |p| :: p[k] == rows[k];
      MatchCount(p, userId, link, key) + (if Matches(rows[|rows| - 1], userId, link, key) then 1 else 0)
  }

  /** The alert inserted for a quote and a threshold, as row `id` created at `now`. */
  function NewAlert(id: nat, userId: string, q: Quote, days: nat, now: int): Notification {
    Notification(id, userId, AlertTitle(days), AlertMessage(q.clientName, AgeDays(q, now)),
                 QuoteLink(q.id), Warning, false, now)
  }

  /** An alert's own title is found by the query for its threshold's key. */
  lemma AlertMatchesItsKey(id: nat, userId: string, q: Quote, days: nat, now: int)
    ensures Matches(NewAlert(id, userId, q, days, now), userId, QuoteLink(q.id), TitleKey(days))
  {
    Strings.LowerConcat("Alerta: ", TitleKey(days));
    Strings.ContainsSuffix(Strings.Lower("Alerta: "), Strings.Lower(TitleKey(days)));
  }

  // ---------------------------------------------- the check as a function

  /** Rows are ids 0, 1, 2, ... in insertion order. */
  predicate IdsArePositions(rows: seq<Notification>) {
    forall k :: 0 <= k < |rows| ==> rows[k].id == k
  }

  /** One iteration of the inner loop: quote `q`, threshold `days`. */
  function AfterThreshold(rows: seq<Notification>, userId: string, q: Quote, days: nat, now: int): seq<Notification> {
    if AgeDays(q, now) >= days && MatchCount(rows, userId, QuoteLink(q.id), TitleKey(days)) == 0
    then rows + [NewAlert(|rows|, userId, q, days, now)]
    else rows
  }

  /** The inner loop over the thresholds `ds` for quote `q`. Rows are only appended. */
  function AfterThresholds(rows: seq<Notification>, userId: string, q: Quote, ds: seq<nat>, now: int): (r: seq<Notification>)
    ensures |rows| <= |r| && r[..|rows|] == rows
    ensures IdsArePositions(rows) ==> IdsArePositions(r)
  {
    if ds == [] then rows
    else AfterThreshold(AfterThresholds(rows, userId, q, ds[..|ds| - 1], now), userId, q, ds[|ds| - 1], now)
  }

  /** The outer loop over the quotes `qs`. Rows are only appended. */
  function AfterQuotes(rows: seq<Notification>, userId: string, qs: seq<Quote>, now: int): (r: seq<Notification>)
    ensures |rows| <= |r| && r[..|rows|] == rows
    ensures IdsArePositions(rows) ==> IdsArePositions(r)
  {
    if qs == [] then rows
    else
      var mid := AfterQuotes(rows, userId, qs[..|qs| - 1], now);
      var r := AfterThresholds(mid, userId, qs[|qs| - 1], Thresholds, now);
      assert r[..|rows|] == mid[..|rows|];
      r
  }

  /** `checkInactiveQuotes(userId)` on the table `rows`: nothing when the quotes query
      failed, else the loops over the active quotes. */
  function Checked(rows: seq<Notification>, userId: string, quotes: Option<seq<Quote>>, now: int): (r: seq<Notification>)
    ensures |rows| <= |r| && r[..|rows|] == rows
    ensures IdsArePositions(rows) ==> IdsArePositions(r)
    ensures quotes.None? ==> r == rows
  {
    if quotes.None? then rows else AfterQuotes(rows, userId, ActiveQuotes(quotes.value, userId), now)
  }

  // ------------------------------------------------------------ coverage

  /** The pair (quote, threshold) is taken care of: the quote is not that old, or the
      user has an alert for it. */
  predicate Covered(rows: seq<Notification>, userId: string, q: Quote, days: nat, now: int) {
    AgeDays(q, now) >= days ==> HasAlert(rows, userId, QuoteLink(q.id), TitleKey(days))
  }

  lemma CoveredGrows(rows: seq<Notification>, r: seq<Notification>, userId: string, q: Quote, days: nat, now: int)
    requires |rows| <= |r| && r[..|rows|] == rows
    requires Covered(rows, userId, q, days, now)
    ensures Covered(r, userId, q, days, now)
  {
    if AgeDays(q, now) >= days {
      var k :| 0 <= k < |rows| && Matches(rows[k], userId, QuoteLink(q.id), TitleKey(days));
      assert r[k] == rows[k];
    }
  }

  lemma {:induction false} AfterThresholdsCovers(rows: seq<Notification>, userId: string, q: Quote, ds: seq<nat>, now: int)
    ensures forall d :: d in ds ==> Covered(AfterThresholds(rows, userId, q, ds, now), userId, q, d, now)
  {
    if ds != [] {
      var p := ds[..|ds| - 1];
      var last := ds[|ds| - 1];
      var mid := AfterThresholds(rows, userId, q, p, now);
      var r := AfterThresholds(rows, userId, q, ds, now);
      AfterThresholdsCovers(rows, userId, q, p, now);
      assert r == AfterThreshold(mid, userId, q, last, now);
      forall d | d in ds ensures Covered(r, userId, q, d, now) {
        if d in p {
          CoveredGrows(mid, r, userId, q, d, now);
        } else {
          assert d == last;
          if AgeDays(q, now) >= d && MatchCount(mid, userId, QuoteLink(q.id), TitleKey(d)) == 0 {
            AlertMatchesItsKey(|mid|, userId, q, d, now);
            assert r[|mid|] == NewAlert(|mid|, userId, q, d, now);
          }
        }
      }
    }
  }

  lemma {:induction false} AfterQuotesCovers(rows: seq<Notification>, userId: string, qs: seq<Quote>, now: int)
    ensures forall q, d :: q in qs && d in Thresholds ==> Covered(AfterQuotes(rows, userId, qs, now), userId, q, d, now)
  {
    if qs != [] {
      var p := qs[..|qs| - 1];
      var last := qs[|qs| - 1];
      var mid := AfterQuotes(rows, userId, p, now);
      var r := AfterQuotes(rows, userId, qs, now);
      AfterQuotesCovers(rows, userId, p, now);
      AfterThresholdsCovers(mid, userId, last, Thresholds, now);
      forall q, d | q in qs && d in Thresholds ensures Covered(r, userId, q, d, now) {
        if q in p {
          CoveredGrows(mid, r, userId, q, d, now);
        }
      }
    }
  }

  /** Once every checked pair is covered, the inner loop inserts nothing. */
  lemma {:induction false} CoveredThresholdsUnchanged(rows: seq<Notification>, userId: string, q: Quote, ds: seq<nat>, now: int)
    requires forall d :: d in ds ==> Covered(rows, userId, q, d, now)
    ensures AfterThresholds(rows, userId, q, ds, now) == rows
  {
    if ds != [] {
      CoveredThresholdsUnchanged(rows, userId, q, ds[..|ds| - 1], now);
      assert ds[|ds| - 1] in ds;
    }
  }

  lemma {:induction false} CoveredQuotesUnchanged(rows: seq<Notification>, userId: string, qs: seq<Quote>, now: int)
    requires forall q, d :: q in qs && d in Thresholds ==> Covered(rows, userId, q, d, now)
    ensures AfterQuotes(rows, userId, qs, now) == rows
  {
    if qs != [] {
      CoveredQuotesUnchanged(rows, userId, qs[..|qs| - 1], now);
      CoveredThresholdsUnchanged(rows, userId, qs[|qs| - 1], Thresholds, now);
    }
  }

  /** After the check, every active quote has an alert for every threshold its age has reached. */
  lemma CheckCoversActiveQuotes(rows: seq<Notification>, userId: string, quotes: seq<Quote>, now: int, q: Quote, d: nat)
    requires q in quotes && IsActive(q, userId)
    requires d in Thresholds && AgeDays(q, now) >= d
    ensures HasAlert(Checked(rows, userId, Some(quotes), now), userId, QuoteLink(q.id), TitleKey(d))
  {
    var qs := ActiveQuotes(quotes, userId);
    var r := AfterQuotes(rows, userId, qs, now);
    assert Checked(rows, userId, Some(quotes), now) == r;
    AfterQuotesCovers(rows, userId, qs, now);
    assert q in qs;
    assert Covered(r, userId, q, d, now);
  }

  /** Running the check a second time, on the same quotes at the same instant, inserts nothing. */
  lemma CheckIdempotent(rows: seq<Notification>, userId: string, quotes: Option<seq<Quote>>, now: int)
    ensures Checked(Checked(rows, userId, quotes, now), userId, quotes, now) == Checked(rows, userId, quotes, now)
  {
    if quotes.Some? {
      var qs := ActiveQuotes(quotes.value, userId);
      AfterQuotesCovers(rows, userId, qs, now);
      CoveredQuotesUnchanged(AfterQuotes(rows, userId, qs, now), userId, qs, now);
    }
  }

  // ------------------------------------------------------- what is inserted

  /** Row `k` of `r` is an alert for an active quote in `pool` and a threshold the quote's
      age has reached, and no row before it matched that quote and threshold. */
  ghost predicate FreshAlert(r: seq<Notification>, k: nat, userId: string, pool: seq<Quote>, now: int)
    requires k < |r|
  {
    exists q, d :: q in pool && d in Thresholds && AgeDays(q, now) >= d &&
      r[k] == NewAlert(k, userId, q, d, now) && !HasAlert(r[..k], userId, QuoteLink(q.id), TitleKey(d))
  }

  lemma FreshKept(r: seq<Notification>, t: seq<Notification>, k: nat, userId: string, pool: seq<Quote>, now: int)
    requires k < |r| <= |t| && t[..|r|] == r
    requires FreshAlert(r, k, userId, pool, now)
    ensures FreshAlert(t, k, userId, pool, now)
  {
    var q, d :| q in pool && d in Thresholds && AgeDays(q, now) >= d &&
      r[k] == NewAlert(k, userId, q, d, now) && !HasAlert(r[..k], userId, QuoteLink(q.id), TitleKey(d));
    assert t[..k] == r[..k];
    assert t[k] == r[k];
  }

  lemma {:induction false} AfterThresholdsFresh(rows: seq<Notification>, userId: string, q: Quote, ds: seq<nat>, now: int, pool: seq<Quote>)
    requires q in pool
    requires forall d :: d in ds ==> d in Thresholds
    ensures forall k :: |rows| <= k < |AfterThresholds(rows, userId, q, ds, now)| ==>
      FreshAlert(AfterThresholds(rows, userId, q, ds, now), k, userId, pool, now)
  {
    if ds != [] {
      var p := ds[..|ds| - 1];
      var last := ds[|ds| - 1];
      var mid := AfterThresholds(rows, userId, q, p, now);
      var r := AfterThresholds(rows, userId, q, ds, now);
      assert forall d :: d in p ==> d in ds;
      AfterThresholdsFresh(rows, userId, q, p, now, pool);
      forall k | |rows| <= k < |r| ensures FreshAlert(r, k, userId, pool, now) {
        if k < |mid| {
          FreshKept(mid, r, k, userId, pool, now);
        } else {
          assert r == mid + [NewAlert(|mid|, userId, q, last, now)];
          assert r[..k] == mid;
          assert last in ds;
        }
      }
    }
  }

  lemma {:induction false} AfterQuotesFresh(rows: seq<Notification>, userId: string, qs: seq<Quote>, now: int, pool: seq<Quote>)
    requires forall q :: q in qs ==> q in pool
    ensures forall k :: |rows| <= k < |AfterQuotes(rows, userId, qs, now)| ==>
      FreshAlert(AfterQuotes(rows, userId, qs, now), k, userId, pool, now)
  {
    if qs != [] {
      var p := qs[..|qs| - 1];
      var last := qs[|qs| - 1];
      var mid := AfterQuotes(rows, userId, p, now);
      var r := AfterQuotes(rows, userId, qs, now);
      assert forall q :: q in p ==> q in qs;
      AfterQuotesFresh(rows, userId, p, now, pool);
      assert last in qs;
      AfterThresholdsFresh(mid, userId, last, Thresholds, now, pool);
      forall k | |rows| <= k < |r| ensures FreshAlert(r, k, userId, pool, now) {
        if k < |mid| {
          FreshKept(mid, r, k, userId, pool, now);
        }
      }
    }
  }

  /** Every row the check inserts is a warning for the user, for one of the user's draft
      or sent quotes and a threshold its age has reached, with the alert's title, link
      and message, and no earlier row of the table matched that quote and threshold. */
  lemma CheckInsertsFreshAlerts(rows: seq<Notification>, userId: string, quotes: seq<Quote>, now: int)
    ensures forall k :: |rows| <= k < |Checked(rows, userId, Some(quotes), now)| ==>
      FreshAlert(Checked(rows, userId, Some(quotes), now), k, userId, ActiveQuotes(quotes, userId), now)
  {
    var qs := ActiveQuotes(quotes, userId);
    AfterQuotesFresh(rows, userId, qs, now, qs);
  }

  /** At most one alert per (quote, threshold): no two inserted rows share link and title. */
  lemma NoDuplicateAlerts(rows: seq<Notification>, userId: string, quotes: seq<Quote>, now: int)
    ensures var r := Checked(rows, userId, Some(quotes), now);
      forall i, j :: |rows| <= i < j < |r| ==> r[i].link != r[j].link || r[i].title != r[j].title
  {
    var r := Checked(rows, userId, Some(quotes), now);
    var pool := ActiveQuotes(quotes, userId);
    CheckInsertsFreshAlerts(rows, userId, quotes, now);
    forall i, j | |rows| <= i < j < |r| ensures r[i].link != r[j].link || r[i].title != r[j].title {
      assert FreshAlert(Checked(rows, userId, Some(quotes), now), j, userId, pool, now);
      assert FreshAlert(Checked(rows, userId, Some(quotes), now), i, userId, pool, now);
      FreshAlertsDiffer(r, i, j, userId, pool, now);
    }
  }

  /** A fresh alert is never a copy of an earlier fresh alert. */
  lemma FreshAlertsDiffer(r: seq<Notification>, i: nat, j: nat, userId: string, pool: seq<Quote>, now: int)
    requires i < j < |r|
    requires FreshAlert(r, i, userId, pool, now) && FreshAlert(r, j, userId, pool, now)
    ensures r[i].link != r[j].link || r[i].title != r[j].title
  {
    var q, d :| q in pool && d in Thresholds && AgeDays(q, now) >= d &&
      r[j] == NewAlert(j, userId, q, d, now) && !HasAlert(r[..j], userId, QuoteLink(q.id), TitleKey(d));
    var q', d' :| q' in pool && d' in Thresholds && AgeDays(q', now) >= d' &&
      r[i] == NewAlert(i, userId, q', d', now) && !HasAlert(r[..i], userId, QuoteLink(q'.id), TitleKey(d'));
    if r[i].link == r[j].link && r[i].title == r[j].title {
      AlertMatchesItsKey(j, userId, q, d, now);
      assert r[..j][i] == r[i];
      assert Matches(r[..j][i], userId, QuoteLink(q.id), TitleKey(d));
      assert false;
    }
  }

  // ------------------------------------------------------------ listings

  predicate IncreasingIds(rows: seq<Notification>) {
    forall i, j :: 0 <= i < j < |rows| ==> rows[i].id < rows[j].id
  }

  /** `.eq('user_id', userId)`, in table order. */
  function UserRows(rows: seq<Notification>, userId: string): (r: seq<Notification>)
    ensures forall n :: n in r <==> n in rows && n.userId == userId
    ensures IncreasingIds(rows) ==> IncreasingIds(r)
  {
    var r := Seqs.Filter(rows, OwnedBy(userId));
    assert forall n :: n in rows && n.userId == userId ==> n in r by {
      forall n | n in rows && n.userId == userId ensures n in r {
        var i :| 0 <= i < |rows| && rows[i] == n;
      }
    }
    if IncreasingIds(rows) then Seqs.FilterOrdered(rows, OwnedBy(userId), IdBefore); r else r
  }

  function OwnedBy(userId: string): Notification -> bool {
    (n: Notification) => n.userId == userId
  }

  function IdBefore(a: Notification, b: Notification): bool {
    a.id < b.id
  }

  /** Newest first; among rows created at the same instant the later insertion first. */
  function NewestKey(n: Notification): (int, int) {
    (n.createdAt, -(n.id as int))
  }

  /** `.order('created_at', { ascending: false }).limit(20)` over the user's rows. */
  function Newest(rows: seq<Notification>, userId: string): seq<Notification>
    requires IncreasingIds(rows)
  {
    Ranking.Top(UserRows(rows, userId), PageSize, NewestKey)
  }

  /** A page holds the user's 20 newest notifications (all of them when there are fewer),
      newest first. */
  lemma NewestPage(rows: seq<Notification>, userId: string)
    requires IncreasingIds(rows)
    ensures var page := Newest(rows, userId);
      |page| == if |UserRows(rows, userId)| < PageSize then |UserRows(rows, userId)| else PageSize
    ensures forall i :: 0 <= i < |Newest(rows, userId)| ==>
      Newest(rows, userId)[i] in rows && Newest(rows, userId)[i].userId == userId
    ensures forall i, j :: 0 <= i < j < |Newest(rows, userId)| ==>
      Newest(rows, userId)[i].createdAt >= Newest(rows, userId)[j].createdAt
    ensures forall n :: (n in rows && n.userId == userId && n !in Newest(rows, userId) && Newest(rows, userId) != []) ==>
      n.createdAt <= Newest(rows, userId)[|Newest(rows, userId)| - 1].createdAt
  {
    var us := UserRows(rows, userId);
    var page := Newest(rows, userId);
    assert page == Ranking.Top(us, PageSize, NewestKey);
    Ranking.TopIsTop(us, PageSize, NewestKey);
    forall i | 0 <= i < |page| ensures page[i] in rows && page[i].userId == userId {
      assert page[i] in us;
    }
    forall i, j | 0 <= i < j < |page| ensures page[i].createdAt >= page[j].createdAt {
      assert Ranking.Before(NewestKey, page[i], page[j]);
    }
    forall n | n in rows && n.userId == userId && n !in page && page != []
      ensures n.createdAt <= page[|page| - 1].createdAt
    {
      assert n in us;
    }
  }

  lemma PositionsIncrease(rows: seq<Notification>)
    requires IdsArePositions(rows)
    ensures IncreasingIds(rows)
  {
  }

  // ------------------------------------------------------------ read state

  /** `markAsRead(id)`: every row with that id is read; the user is not consulted. */
  function MarkRead(rows: seq<Notification>, id: nat): (r: seq<Notification>)
    ensures |r| == |rows|
    ensures forall k :: 0 <= k < |rows| ==> r[k] == if rows[k].id == id then rows[k].(read := true) else rows[k]
  {
    seq(|rows|, k requires 0 <= k < |rows| => if rows[k].id == id then rows[k].(read := true) else rows[k])
  }

  /** `markAllAsRead` for a signed-in user: the user's unread rows become read. */
  function MarkAllRead(rows: seq<Notification>, userId: string): (r: seq<Notification>)
    ensures |r| == |rows|
    ensures forall k :: 0 <= k < |rows| ==>
      r[k] == if rows[k].userId == userId && !rows[k].read then rows[k].(read := true) else rows[k]
  {
    seq(|rows|, k requires 0 <= k < |rows| =>
      if rows[k].userId == userId && !rows[k].read then rows[k].(read := true) else rows[k])
  }

  /** Only the user's unread rows change, only in their read flag, and afterwards the user
      has nothing unread; doing it twice is doing it once. */
  lemma MarkAllReadScope(rows: seq<Notification>, userId: string)
    ensures forall k :: 0 <= k < |rows| && MarkAllRead(rows, userId)[k] != rows[k] ==>
      rows[k].userId == userId && !rows[k].read && MarkAllRead(rows, userId)[k] == rows[k].(read := true)
    ensures forall k :: 0 <= k < |rows| && MarkAllRead(rows, userId)[k].userId == userId ==>
      MarkAllRead(rows, userId)[k].read
    ensures MarkAllRead(MarkAllRead(rows, userId), userId) == MarkAllRead(rows, userId)
  {
  }

  /** Marking one id read leaves every other row as it was and keeps the table's ids. */
  lemma MarkReadScope(rows: seq<Notification>, id: nat)
    ensures forall k :: 0 <= k < |rows| && rows[k].id != id ==> MarkRead(rows, id)[k] == rows[k]
    ensures forall k :: 0 <= k < |rows| && rows[k].id == id ==> MarkRead(rows, id)[k].read
    ensures IdsArePositions(rows) ==> IdsArePositions(MarkRead(rows, id))
  {
  }

  // ------------------------------------------------------------- the table

  class NotificationTable {
    var rows: seq<Notification>

    ghost predicate Valid()
      reads this
    {
      IdsArePositions(rows)
    }

    constructor ()
      ensures Valid() && rows == []
    {
      rows := [];
    }

    /** The insert of `createNotification`, whose type defaults to info. */
    method CreateNotification(userId: string, title: string, message: string, link: string, now: int, kind: Kind := Info)
      requires Valid()
      modifies this
      ensures Valid()
      ensures rows == old(rows) + [Notification(|old(rows)|, userId, title, message, link, kind, false, now)]
    {
      rows := rows + [Notification(|rows|, userId, title, message, link, kind, false, now)];
    }

    /** `checkInactiveQuotes(userId)`: the loop over the active quotes. */
    method CheckInactiveQuotes(userId: string, quotes: Option<seq<Quote>>, now: int)
      requires Valid()
      modifies this
      ensures Valid()
      ensures rows == Checked(old(rows), userId, quotes, now)
    {
      if quotes.None? {
        return;
      }
      var active := ActiveQuotes(quotes.value, userId);
      for i := 0 to |active|
        invariant rows == AfterQuotes(old(rows), userId, active[..i], now)
      {
        assert active[..i + 1][..i] == active[..i];
        CheckQuote(userId, active[i], now);
      }
      assert active[..|active|] == active;
    }

    /** The inner loop for one quote: one count query and at most one insert per threshold. */
    method CheckQuote(userId: string, q: Quote, now: int)
      modifies this
      ensures rows == AfterThresholds(old(rows), userId, q, Thresholds, now)
    {
      var diffDays := AgeDays(q, now);
      for j := 0 to |Thresholds|
        invariant rows == AfterThresholds(old(rows), userId, q, Thresholds[..j], now)
      {
        var days := Thresholds[j];
        ghost var before := rows;
        assert Thresholds[..j + 1][..j] == Thresholds[..j] && Thresholds[..j + 1][j] == days;
        assert AfterThresholds(old(rows), userId, q, Thresholds[..j + 1], now) ==
          AfterThreshold(before, userId, q, days, now);
        if diffDays >= days {
          var count := MatchCount(rows, userId, QuoteLink(q.id), TitleKey(days));
          if count == 0 {
            rows := rows + [NewAlert(|rows|, userId, q, days, now)];
          }
        }
        assert rows == AfterThreshold(before, userId, q, days, now);
      }
      assert Thresholds[..|Thresholds|] == Thresholds;
    }

    /** `getNotifications`: nothing without a user; otherwise the check runs first and the
        user's newest 20 rows are returned. */
    method GetNotifications(user: Option<string>, quotes: Option<seq<Quote>>, now: int) returns (page: seq<Notification>)
      requires Valid()
      modifies this
      ensures Valid()
      ensures user.None? ==> page == [] && rows == old(rows)
      ensures user.Some? ==> (rows == Checked(old(rows), user.value, quotes, now) &&
        IncreasingIds(rows) && page == Newest(rows, user.value))
    {
      if user.None? {
        return [];
      }
      CheckInactiveQuotes(user.value, quotes, now);
      PositionsIncrease(rows);
      page := Newest(rows, user.value);
    }

    method MarkAsRead(id: nat)
      requires Valid()
      modifies this
      ensures Valid()
      ensures rows == MarkRead(old(rows), id)
    {
      MarkReadScope(rows, id);
      rows := MarkRead(rows, id);
    }

    /** `markAllAsRead`: without a user nothing changes. */
    method MarkAllAsRead(user: Option<string>)
      requires Valid()
      modifies this
      ensures Valid()
      ensures user.None? ==> rows == old(rows)
      ensures user.Some? ==> rows == MarkAllRead(old(rows), user.value)
    {
      if user.Some? {
        rows := MarkAllRead(rows, user.value);
      }
    }
  }
}
