/** `NotificationBell`: the header's notification menu. It keeps the latest
    notifications and an unread count fetched from the server, and updates
    both locally once a mark-as-read request has succeeded. Each request's
    result is a parameter: `None` or `false` when it failed. */
module NotificationBell {
  import opened Wrappers
  import opened Text

  /** A notification as the page receives it. */
  datatype Item = Item(id: string, read: bool, message: string, auctionId: Option<string>, createdAt: int)

  /** How long ago a notification was created. */
  datatype Ago = JustNow | MinutesAgo(minutes: nat) | HoursAgo(hours: nat) | DaysAgo(days: nat)

  const MsPerMinute: int := 60000

  /** `formatTime` for `diffMs` = now minus the creation time. Whole
      minutes, hours and days are taken by flooring; under one minute,
      a creation time in the future included, is "Just now". */
  function FormatTime(diffMs: int): Ago {
    var diffMins := diffMs / MsPerMinute;
    var diffHours := diffMins / 60;
    var diffDays := diffHours / 24;
    if diffMins < 1 then JustNow
    else if diffMins < 60 then MinutesAgo(diffMins)
    else if diffHours < 24 then HoursAgo(diffHours)
    else DaysAgo(diffDays)
  }

  function AgoText(a: Ago): string {
    match a
    case JustNow => "Just now"
    case MinutesAgo(m) => NatToString(m) + "m ago"
    case HoursAgo(h) => NatToString(h) + "h ago"
    case DaysAgo(d) => NatToString(d) + "d ago"
  }

  /** Each form covers one range of elapsed time, and the number shown is
      the elapsed time rounded down to its unit: flooring minutes, then
      hours, then days gives the same as flooring the milliseconds
      directly. A timestamp in the future shows "Just now". */
  lemma FormatTimeSpec(diffMs: int)
    ensures FormatTime(diffMs).JustNow? <==> diffMs < MsPerMinute
    ensures FormatTime(diffMs).MinutesAgo? <==> MsPerMinute <= diffMs < 60 * MsPerMinute
    ensures FormatTime(diffMs).HoursAgo? <==> 60 * MsPerMinute <= diffMs < 24 * 60 * MsPerMinute
    ensures FormatTime(diffMs).DaysAgo? <==> diffMs >= 24 * 60 * MsPerMinute
    ensures FormatTime(diffMs).MinutesAgo? ==> FormatTime(diffMs).minutes == diffMs / MsPerMinute
    ensures FormatTime(diffMs).HoursAgo? ==> FormatTime(diffMs).hours == diffMs / (60 * MsPerMinute)
    ensures FormatTime(diffMs).DaysAgo? ==> FormatTime(diffMs).days == diffMs / (24 * 60 * MsPerMinute)
  {
    var diffMins := diffMs / MsPerMinute;
    var diffHours := diffMins / 60;
    var diffDays := diffHours / 24;
    HoursOfMinutes(diffMs);
    DaysOfHours(diffMs);
  }

  /** Flooring minutes into hours is flooring milliseconds into hours. */
  lemma HoursOfMinutes(x: int)
    ensures (x / MsPerMinute) / 60 == x / (60 * MsPerMinute)
  {
    var q := (x / MsPerMinute) / 60;
    var r1 := x % MsPerMinute;
    var r2 := (x / MsPerMinute) % 60;
    assert x == 3600000 * q + (60000 * r2 + r1);
  }

  /** Flooring hours into days is flooring milliseconds into days. */
  lemma DaysOfHours(x: int)
    ensures (x / (60 * MsPerMinute)) / 24 == x / (24 * 60 * MsPerMinute)
  {
    var q := (x / 3600000) / 24;
    var r1 := x % 3600000;
    var r2 := (x / 3600000) % 24;
    assert x == 86400000 * q + (3600000 * r2 + r1);
  }

  /** What the badge on the bell shows. */
  datatype Badge = Hidden | Count(n: nat) | Overflow

  /** The badge: hidden without unread notifications, the number up to 9, "9+" above. */
  function BadgeFor(unreadCount: int): (b: Badge)
    ensures b.Hidden? <==> unreadCount <= 0
    ensures b.Count? <==> 1 <= unreadCount <= 9
    ensures b.Count? ==> b.n == unreadCount
    ensures b.Overflow? <==> unreadCount > 9
  {
    if unreadCount <= 0 then Hidden
    else if unreadCount > 9 then Overflow
    else Count(unreadCount)
  }

  function BadgeText(b: Badge): Option<string> {
    match b
    case Hidden => None
    case Count(n) => Some(NatToString(n))
    case Overflow => Some("9+")
  }

  const ListSize: nat := 10

  /** The list kept from a fetch: the first ten, in the server's order. */
  function Latest(fetched: seq<Item>): (r: seq<Item>)
    ensures |r| == if |fetched| < ListSize then |fetched| else ListSize
    ensures r <= fetched
  {
    if |fetched| <= ListSize then fetched else fetched[..ListSize]
  }

  /** The list with notification `id` marked read. */
  function MarkedRead(items: seq<Item>, id: string): (r: seq<Item>)
    ensures |r| == |items|
    ensures forall i :: 0 <= i < |items| ==>
              r[i] == (if items[i].id == id then items[i].(read := true) else items[i])
  {
    seq(|items|, i requires 0 <= i < |items| => if items[i].id == id then items[i].(read := true) else items[i])
  }

  /** The list with every notification marked read. */
  function AllMarkedRead(items: seq<Item>): (r: seq<Item>)
    ensures |r| == |items|
    ensures forall i :: 0 <= i < |items| ==> r[i] == items[i].(read := true)
  {
    seq(|items|, i requires 0 <= i < |items| => items[i].(read := true))
  }

  /** The number of unread notifications in a list. */
  function UnreadIn(items: seq<Item>): nat {
    if items == [] then 0 else UnreadIn(items[..|items| - 1]) + (if items[|items| - 1].read then 0 else 1)
  }

  predicate DistinctIds(items: seq<Item>) {
    forall i, j :: 0 <= i < j < |items| ==> items[i].id != items[j].id
  }

  /** Marking an id read lowers the list's unread number by the unread
      items carrying it. */
  lemma {:induction false} UnreadAfterMark(items: seq<Item>, id: string)
    ensures UnreadIn(MarkedRead(items, id)) + UnreadIn(Unread(items, id)) == UnreadIn(items)
    decreases |items|
  {
    if items != [] {
      var p := items[..|items| - 1];
      assert MarkedRead(items, id)[..|items| - 1] == MarkedRead(p, id);
      if items[|items| - 1].id == id && !items[|items| - 1].read {
        assert Unread(items, id) == Unread(p, id) + [items[|items| - 1]];
        assert Unread(items, id)[..|Unread(items, id)| - 1] == Unread(p, id);
      } else {
        assert Unread(items, id) == Unread(p, id);
      }
      UnreadAfterMark(p, id);
    }
  }

  /** The unread items carrying `id`. */
  function Unread(items: seq<Item>, id: string): (r: seq<Item>)
    ensures forall k :: 0 <= k < |r| ==> !r[k].read
  {
    if items == [] then []
    else Unread(items[..|items| - 1], id) + (if items[|items| - 1].id == id && !items[|items| - 1].read then [items[|items| - 1]] else [])
  }

  lemma {:induction false} UnreadOfDistinct(items: seq<Item>, id: string, i: nat)
    requires DistinctIds(items) && i < |items| && items[i].id == id && !items[i].read
    ensures |Unread(items, id)| == 1 && UnreadIn(Unread(items, id)) == 1
    decreases |items|
  {
    var p := items[..|items| - 1];
    if i == |items| - 1 {
      UnreadNone(p, id);
    } else {
      UnreadOfDistinct(p, id, i);
    }
    var u := Unread(items, id);
    assert u[..0] == [];
  }

  lemma {:induction false} UnreadNone(items: seq<Item>, id: string)
    requires forall k :: 0 <= k < |items| ==> items[k].id != id
    ensures Unread(items, id) == []
    decreases |items|
  {
    if items != [] {
      UnreadNone(items[..|items| - 1], id);
    }
  }

  /** Clicking an unread listed notification keeps the badge in step with
      the list: when the count matched the list's unread number before,
      it still does after the decrement. */
  lemma MarkAsReadKeepsCountInSync(items: seq<Item>, id: string, i: nat, count: int)
    requires DistinctIds(items) && i < |items| && items[i].id == id && !items[i].read
    requires count == UnreadIn(items)
    ensures (if count - 1 < 0 then 0 else count - 1) == UnreadIn(MarkedRead(items, id))
  {
    UnreadAfterMark(items, id);
    UnreadOfDistinct(items, id, i);
  }

  /** After marking everything read, nothing in the list is unread. */
  lemma {:induction false} AllMarkedReadNoneUnread(items: seq<Item>)
    ensures UnreadIn(AllMarkedRead(items)) == 0
    decreases |items|
  {
    if items != [] {
      assert AllMarkedRead(items)[..|items| - 1] == AllMarkedRead(items[..|items| - 1]);
      AllMarkedReadNoneUnread(items[..|items| - 1]);
    }
  }

  class Bell {
    /** The signed-in user's id, if any. */
    var user: Option<string>
    var notifications: seq<Item>
    var unreadCount: int
    var loading: bool

    constructor(user: Option<string>)
      ensures this.user == user && notifications == [] && unreadCount == 0 && !loading
    {
      this.user := user;
      notifications := [];
      unreadCount := 0;
      loading := false;
    }

    /** `fetchNotifications`: keeps the first ten on success, keeps the old
        list on failure; loading is over either way. */
    method FetchNotifications(response: Option<seq<Item>>)
      modifies this
      ensures user == old(user) && unreadCount == old(unreadCount)
      ensures user.None? ==> notifications == old(notifications) && loading == old(loading)
      ensures user.Some? ==> !loading
      ensures user.Some? && response.Some? ==> notifications == Latest(response.value)
      ensures response.None? ==> notifications == old(notifications)
    {
      if user.None? {
        return;
      }
      loading := true;
      if response.Some? {
        notifications := Latest(response.value);
      }
      loading := false;
    }

    /** `fetchUnreadCount`: takes the server's count on success. */
    method FetchUnreadCount(response: Option<int>)
      modifies this
      ensures user == old(user) && notifications == old(notifications) && loading == old(loading)
      ensures unreadCount == if user.Some? && response.Some? then response.value else old(unreadCount)
    {
      if user.Some? && response.Some? {
        unreadCount := response.value;
      }
    }

    /** `markAsRead`: once the request succeeded, the matching notification
        is read and the count drops by one, never below zero. */
    method MarkAsRead(id: string, ok: bool)
      modifies this
      ensures user == old(user) && loading == old(loading)
      ensures user.Some? && ok ==>
                && notifications == MarkedRead(old(notifications), id)
                && unreadCount == (if old(unreadCount) - 1 < 0 then 0 else old(unreadCount) - 1)
      ensures !(user.Some? && ok) ==> notifications == old(notifications) && unreadCount == old(unreadCount)
    {
      if user.None? || !ok {
        return;
      }
      notifications := MarkedRead(notifications, id);
      unreadCount := if unreadCount - 1 < 0 then 0 else unreadCount - 1;
    }

    /** `markAllAsRead`: once the request succeeded, every listed
        notification is read and the count is zero. */
    method MarkAllAsRead(ok: bool)
      modifies this
      ensures user == old(user) && loading == old(loading)
      ensures user.Some? && ok ==> notifications == AllMarkedRead(old(notifications)) && unreadCount == 0
      ensures !(user.Some? && ok) ==> notifications == old(notifications) && unreadCount == old(unreadCount)
    {
      if user.None? || !ok {
        return;
      }
      notifications := AllMarkedRead(notifications);
      unreadCount := 0;
    }
  }
}
