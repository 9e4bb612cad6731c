/**
 * The bell of src/components/notifications/notification-bell.tsx: the
 * fetched list, the unread dot, the mark-read handlers, and the age of a
 * notification rendered as `agora`, minutes, hours or days. The server
 * calls are effects outside this model; the elapsed time is an input in
 * milliseconds.
 */
module NotificationBell {
  import opened Wrappers
  import Numbers

  datatype Note = Note(id: string, title: string, message: string, read: bool, link: string,
                       kind: string, createdAt: string)

  /** `notifications.some(n => !n.read)`. */
  predicate AnyUnread(ns: seq<Note>) {
    exists k :: 0 <= k < |ns| && !ns[k].read
  }

  /** `notifications.map(n => n.id === id ? { ...n, read: true } : n)`. */
  function MarkRead(ns: seq<Note>, id: string): (r: seq<Note>)
    ensures |r| == |ns|
    ensures forall k :: 0 <= k < |ns| ==> r[k] == if ns[k].id == id then ns[k].(read := true) else ns[k]
  {
    seq(|ns|, k requires 0 <= k < |ns| => if ns[k].id == id then ns[k].(read := true) else ns[k])
  }

  /** `notifications.map(n => ({ ...n, read: true }))`. */
  function MarkAllRead(ns: seq<Note>): (r: seq<Note>)
    ensures |r| == |ns|
    ensures forall k :: 0 <= k < |ns| ==> r[k] == ns[k].(read := true)
  {
    seq(|ns|, k requires 0 <= k < |ns| => ns[k].(read := true))
  }

  /** The dot `handleMarkRead` computes from the old list is exactly the dot of the new
      list: something is still unread iff a notification with another id was unread. */
  lemma MarkReadUnread(ns: seq<Note>, id: string)
    ensures AnyUnread(MarkRead(ns, id)) <==> exists k :: 0 <= k < |ns| && ns[k].id != id && !ns[k].read
    ensures forall k :: 0 <= k < |ns| && ns[k].id == id ==> MarkRead(ns, id)[k].read
  {
    var r := MarkRead(ns, id);
    if AnyUnread(r) {
      var k :| 0 <= k < |r| && !r[k].read;
      assert ns[k].id != id && !ns[k].read;
    }
  }

  /** Marking everything read leaves nothing unread, and changes nothing but the flags. */
  lemma MarkAllReadUnread(ns: seq<Note>)
    ensures !AnyUnread(MarkAllRead(ns))
    ensures forall k :: 0 <= k < |ns| ==> MarkAllRead(ns)[k].id == ns[k].id
  {
  }

  /** Marking is idempotent and marking one id after all changes nothing more. */
  lemma MarkReadIdempotent(ns: seq<Note>, id: string)
    ensures MarkRead(MarkRead(ns, id), id) == MarkRead(ns, id)
    ensures MarkRead(MarkAllRead(ns), id) == MarkAllRead(ns)
  {
  }

  class BellState {
    var notifications: seq<Note>
    var open: bool
    var hasUnread: bool

    /** The dot shows exactly when the list holds an unread notification. */
    ghost predicate Valid()
      reads this
    {
      hasUnread == AnyUnread(notifications)
    }

    constructor ()
      ensures Valid() && notifications == [] && !open && !hasUnread
    {
      notifications := [];
      open := false;
      hasUnread := false;
    }

    /** `fetchNotifications`: a response replaces the list and recomputes the dot. */
    method Fetched(data: Option<seq<Note>>)
      modifies this
      ensures data.Some? ==> Valid()
      ensures old(Valid()) ==> Valid()
      ensures data.Some? ==> notifications == data.value && hasUnread == AnyUnread(data.value)
      ensures data.None? ==> notifications == old(notifications) && hasUnread == old(hasUnread)
      ensures open == old(open)
    {
      if data.Some? {
        notifications := data.value;
        hasUnread := exists k :: 0 <= k < |data.value| && !data.value[k].read;
      }
    }

    /** `handleMarkRead`: the notifications with that id are marked read, and the dot is
        recomputed from the other notifications of the old list. */
    method HandleMarkRead(id: string)
      modifies this
      ensures notifications == MarkRead(old(notifications), id)
      ensures hasUnread <==> exists k :: 0 <= k < |old(notifications)| && old(notifications)[k].id != id &&
                                          !old(notifications)[k].read
      ensures Valid()
      ensures open == old(open)
    {
      var before := notifications;
      notifications := MarkRead(notifications, id);
      hasUnread := exists k :: 0 <= k < |before| && before[k].id != id && !before[k].read;
      MarkReadUnread(before, id);
    }

    /** `handleMarkAllRead`. */
    method HandleMarkAllRead()
      modifies this
      ensures notifications == MarkAllRead(old(notifications)) && !hasUnread
      ensures Valid()
      ensures open == old(open)
    {
      MarkAllReadUnread(notifications);
      notifications := MarkAllRead(notifications);
      hasUnread := false;
    }

    /** The `Ver` link: the popover closes and the notification is marked read. */
    method FollowLink(id: string)
      modifies this
      ensures !open && notifications == MarkRead(old(notifications), id) && Valid()
    {
      open := false;
      HandleMarkRead(id);
    }
  }

  // ------------------------------------------------------------ time ago

  /** The age buckets of `formatTimeAgo`. */
  datatype Age = JustNow | Minutes(n: nat) | Hours(n: nat) | Days(n: nat)

  /** The bucket of an age of `elapsedMs` milliseconds (`diff` is in seconds): under a
      minute, under an hour, under a day, or days; each count is the whole number of
      units elapsed. */
  function AgeOf(elapsedMs: int): (a: Age)
    ensures a.JustNow? <==> elapsedMs < 60_000
    ensures a.Minutes? ==> 60_000 <= elapsedMs < 3_600_000 && a.n * 60_000 <= elapsedMs < (a.n + 1) * 60_000
    ensures a.Hours? ==> 3_600_000 <= elapsedMs < 86_400_000 &&
                         a.n * 3_600_000 <= elapsedMs < (a.n + 1) * 3_600_000
    ensures a.Days? ==> 86_400_000 <= elapsedMs && a.n * 86_400_000 <= elapsedMs < (a.n + 1) * 86_400_000
    ensures a.Minutes? ==> 1 <= a.n <= 59
    ensures a.Hours? ==> 1 <= a.n <= 23
    ensures a.Days? ==> 1 <= a.n
  {
    if elapsedMs < 60_000 then JustNow
    else if elapsedMs < 3_600_000 then Minutes(elapsedMs / 60_000)
    else if elapsedMs < 86_400_000 then Hours(elapsedMs / 3_600_000)
    else Days(elapsedMs / 86_400_000)
  }

  /** `'agora'`, `${n}m`, `${n}h`, `${n}d`. */
  function AgeText(a: Age): (s: string)
    ensures a.JustNow? ==> s == "agora"
    ensures a.Minutes? ==> s == Numbers.NatToString(a.n) + "m"
    ensures a.Hours? ==> s == Numbers.NatToString(a.n) + "h"
    ensures a.Days? ==> s == Numbers.NatToString(a.n) + "d"
  {
    match a
    case JustNow => "agora"
    case Minutes(n) => Numbers.NatToString(n) + "m"
    case Hours(n) => Numbers.NatToString(n) + "h"
    case Days(n) => Numbers.NatToString(n) + "d"
  }

  function FormatTimeAgo(elapsedMs: int): string {
    AgeText(AgeOf(elapsedMs))
  }

  /** A later moment never shows a smaller bucket, nor a smaller count in the same one. */
  lemma AgeMonotone(m: int, n: int)
    requires m <= n
    ensures Rank(AgeOf(m)) <= Rank(AgeOf(n))
    ensures AgeOf(m).Minutes? && AgeOf(n).Minutes? ==> AgeOf(m).n <= AgeOf(n).n
    ensures AgeOf(m).Hours? && AgeOf(n).Hours? ==> AgeOf(m).n <= AgeOf(n).n
    ensures AgeOf(m).Days? && AgeOf(n).Days? ==> AgeOf(m).n <= AgeOf(n).n
  {
  }

  function Rank(a: Age): nat {
    match a
    case JustNow => 0
    case Minutes(_) => 1
    case Hours(_) => 2
    case Days(_) => 3
  }

  /** Different ages are written differently: the text gives the bucket and the count back. */
  lemma AgeTextInjective(a: Age, b: Age)
    requires AgeText(a) == AgeText(b)
    ensures a == b
  {
    if !a.JustNow? {
      var s := AgeText(a);
      assert s[|s| - 1] in "mhd";
      assert s[..|s| - 1] == Numbers.NatToString(a.n);
    }
    if !b.JustNow? {
      var s := AgeText(b);
      assert s[..|s| - 1] == Numbers.NatToString(b.n);
    }
    if !a.JustNow? && !b.JustNow? {
      Numbers.NatToStringValue(a.n);
      Numbers.NatToStringValue(b.n);
    }
  }

  /** The boundaries: 59.999 s is still `agora`, a minute is `1m`, an hour `1h`, a day `1d`. */
  lemma AgeBoundaries()
    ensures FormatTimeAgo(59_999) == "agora"
    ensures FormatTimeAgo(60_000) == "1m"
    ensures FormatTimeAgo(3_599_999) == "59m"
    ensures FormatTimeAgo(3_600_000) == "1h"
    ensures FormatTimeAgo(86_400_000) == "1d"
  {
  }
}
