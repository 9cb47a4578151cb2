/** `NotificationService`: a store of per-user notifications with a read
    flag. A notification's id is its position in the store; creating one
    publishes a `NotificationCreated` event for the listeners. */
module Notifications {
  import opened Wrappers
  import opened Users
  import opened AuctionModel

  datatype NotificationType = Outbid | AuctionWon | SaleComplete | AuctionStarted

  /** The text a notification carries, kept as its parts; the rendering of
      prices as dollars is not part of this model. */
  datatype Message =
    | OutbidMessage(title: string, newPrice: int)
    | WonMessage(title: string, price: int)
    | SoldMessage(title: string, price: int)
    | NoBidsMessage(title: string)

  datatype Notification = Notification(
    userId: UserId,
    kind: NotificationType,
    message: Message,
    auctionId: Option<AuctionId>,
    read: bool,
    createdAt: int)

  /** A stored notification together with its id. */
  datatype Entry = Entry(id: nat, item: Notification)

  datatype NotificationCreated = NotificationCreated(entry: Entry)

  // ---------------------------------------------------------------------
  // Unread count

  /** `countByUserIdAndReadFalse`. */
  function CountUnread(store: seq<Notification>, u: UserId): nat {
    if store == [] then 0
    else CountUnread(store[..|store| - 1], u) + (if store[|store| - 1].userId == u && !store[|store| - 1].read then 1 else 0)
  }

  ghost function UnreadIds(store: seq<Notification>, u: UserId): set<nat> {
    set i: nat | i < |store| && store[i].userId == u && !store[i].read
  }

  /** The unread count is the number of the user's notifications whose read
      flag is false. */
  lemma {:induction false} CountUnreadIsSize(store: seq<Notification>, u: UserId)
    ensures CountUnread(store, u) == |UnreadIds(store, u)|
    decreases |store|
  {
    if store != [] {
      var n := |store| - 1;
      var p := store[..n];
      CountUnreadIsSize(p, u);
      if store[n].userId == u && !store[n].read {
        assert UnreadIds(store, u) == UnreadIds(p, u) + {n};
      } else {
        assert UnreadIds(store, u) == UnreadIds(p, u);
      }
    }
  }

  /** The count is zero exactly when every notification of the user is read. */
  lemma {:induction false} CountUnreadZeroIff(store: seq<Notification>, u: UserId)
    ensures CountUnread(store, u) == 0 <==> forall i :: 0 <= i < |store| && store[i].userId == u ==> store[i].read
    decreases |store|
  {
    if store != [] {
      var n := |store| - 1;
      var p := store[..n];
      CountUnreadZeroIff(p, u);
      assert forall i :: 0 <= i < n ==> p[i] == store[i];
    }
  }

  // ---------------------------------------------------------------------
  // Marking as read

  /** `markAsRead`: sets the read flag of notification `id`, if it exists. */
  function MarkRead(store: seq<Notification>, id: nat): (r: seq<Notification>)
    ensures |r| == |store|
  {
    if id < |store| then store[id := store[id].(read := true)] else store
  }

  /** Marking one notification read lowers its owner's unread count by one
      when it was unread, and changes no other count. */
  lemma {:induction false} MarkReadCount(store: seq<Notification>, id: nat, u: UserId)
    ensures CountUnread(MarkRead(store, id), u) ==
              CountUnread(store, u) - (if id < |store| && store[id].userId == u && !store[id].read then 1 else 0)
    decreases |store|
  {
    if id < |store| {
      var n := |store| - 1;
      var r := MarkRead(store, id);
      if id < n {
        assert r[..n] == MarkRead(store[..n], id);
        MarkReadCount(store[..n], id, u);
      } else {
        assert r[..n] == store[..n];
      }
    }
  }

  lemma MarkReadIdempotent(store: seq<Notification>, id: nat)
    ensures MarkRead(MarkRead(store, id), id) == MarkRead(store, id)
  {
  }

  function ReadIfOwned(n: Notification, u: UserId): Notification {
    if n.userId == u then n.(read := true) else n
  }

  /** `markAllAsRead`: every notification of `u` becomes read. */
  function MarkAllRead(store: seq<Notification>, u: UserId): (r: seq<Notification>)
    ensures |r| == |store|
  {
    seq(|store|, i requires 0 <= i < |store| => ReadIfOwned(store[i], u))
  }

  /** After marking all of `u`'s notifications read, `u` has none unread,
      every other user's notifications are untouched and their counts
      unchanged, and marking again changes nothing. */
  lemma MarkAllReadSpec(store: seq<Notification>, u: UserId, v: UserId)
    ensures CountUnread(MarkAllRead(store, u), u) == 0
    ensures forall i :: 0 <= i < |store| && store[i].userId != u ==> MarkAllRead(store, u)[i] == store[i]
    ensures v != u ==> CountUnread(MarkAllRead(store, u), v) == CountUnread(store, v)
    ensures MarkAllRead(MarkAllRead(store, u), u) == MarkAllRead(store, u)
  {
    CountUnreadZeroIff(MarkAllRead(store, u), u);
    if v != u {
      MarkAllReadOtherCount(store, u, v);
    }
  }

  lemma {:induction false} MarkAllReadOtherCount(store: seq<Notification>, u: UserId, v: UserId)
    requires v != u
    ensures CountUnread(MarkAllRead(store, u), v) == CountUnread(store, v)
    decreases |store|
  {
    if store != [] {
      var n := |store| - 1;
      assert MarkAllRead(store, u)[..n] == MarkAllRead(store[..n], u);
      MarkAllReadOtherCount(store[..n], u, v);
    }
  }

  // ---------------------------------------------------------------------
  // Listing, newest first

  /** The entries of `u` among the first `n` notifications, in id order. */
  function EntriesOf(store: seq<Notification>, u: UserId, n: nat): (r: seq<Entry>)
    requires n <= |store|
    ensures forall k :: 0 <= k < |r| ==> r[k].id < n && r[k].item == store[r[k].id] && r[k].item.userId == u
    ensures forall k, l :: 0 <= k < l < |r| ==> r[k].id < r[l].id
    ensures forall i :: 0 <= i < n && store[i].userId == u ==> Entry(i, store[i]) in r
  {
    if n == 0 then []
    else
      var prefix := EntriesOf(store, u, n - 1);
      if store[n - 1].userId == u then prefix + [Entry(n - 1, store[n - 1])] else prefix
  }

  predicate NewestFirst(s: seq<Entry>) {
    forall k, l :: 0 <= k < l < |s| ==> s[k].item.createdAt >= s[l].item.createdAt
  }

  /** Inserts `e` before the first entry that is not newer than it. */
  function InsertNewest(e: Entry, s: seq<Entry>): (r: seq<Entry>)
    ensures multiset(r) == multiset(s) + multiset{e}
  {
    if s == [] then [e]
    else if e.item.createdAt >= s[0].item.createdAt then [e] + s
    else
      assert s == [s[0]] + s[1..];
      [s[0]] + InsertNewest(e, s[1..])
  }

  /** Inserting into a newest-first list keeps it newest first. */
  lemma {:induction false} InsertNewestSorted(e: Entry, s: seq<Entry>)
    requires NewestFirst(s)
    ensures NewestFirst(InsertNewest(e, s))
    decreases |s|
  {
    if s != [] && e.item.createdAt < s[0].item.createdAt {
      var tail := s[1..];
      var rest := InsertNewest(e, tail);
      InsertNewestSorted(e, tail);
      assert InsertNewest(e, s) == [s[0]] + rest;
      assert rest[0] == e || rest[0] == tail[0];
      var r := [s[0]] + rest;
      forall k, l | 0 <= k < l < |r| ensures r[k].item.createdAt >= r[l].item.createdAt {
        assert r[l] == rest[l - 1];
        if k > 0 {
          assert r[k] == rest[k - 1];
        }
      }
    }
  }

  /** Orders entries newest first; among equal timestamps the later id comes first. */
  function SortNewest(s: seq<Entry>): (r: seq<Entry>)
    ensures multiset(r) == multiset(s)
    ensures NewestFirst(r)
  {
    if s == [] then []
    else
      assert s == s[..|s| - 1] + [s[|s| - 1]];
      var sorted := SortNewest(s[..|s| - 1]);
      InsertNewestSorted(s[|s| - 1], sorted);
      InsertNewest(s[|s| - 1], sorted)
  }

  /** `findByUserIdOrderByCreatedAtDesc`: the user's notifications, newest first. */
  function ListFor(store: seq<Notification>, u: UserId): seq<Entry> {
    SortNewest(EntriesOf(store, u, |store|))
  }

  /** The listing holds exactly the user's notifications, each once, newest first. */
  lemma ListForSpec(store: seq<Notification>, u: UserId, e: Entry)
    ensures e in ListFor(store, u) <==> e.id < |store| && e.item == store[e.id] && store[e.id].userId == u
    ensures multiset(ListFor(store, u))[e] <= 1
    ensures NewestFirst(ListFor(store, u))
  {
    var s := EntriesOf(store, u, |store|);
    assert e in ListFor(store, u) <==> e in multiset(s);
    DistinctIdsOnce(s, e);
  }

  lemma {:induction false} DistinctIdsOnce(s: seq<Entry>, e: Entry)
    requires forall k, l :: 0 <= k < l < |s| ==> s[k].id < s[l].id
    ensures multiset(s)[e] <= 1
    decreases |s|
  {
    if s != [] {
      var n := |s| - 1;
      assert s == s[..n] + [s[n]];
      DistinctIdsOnce(s[..n], e);
      if s[n] == e {
        assert e !in s[..n];
      }
    }
  }

  // ---------------------------------------------------------------------
  // The service

  class NotificationService {
    var store: seq<Notification>
    /** `NotificationCreatedEvent`s published so far. */
    var published: seq<NotificationCreated>

    constructor()
      ensures store == [] && published == []
    {
      store := [];
      published := [];
    }

    /** `createNotification`: stores exactly one unread notification and
        publishes exactly one event carrying it. */
    method CreateNotification(userId: UserId, kind: NotificationType, message: Message,
                              auctionId: Option<AuctionId>, now: int) returns (saved: Entry)
      modifies this
      ensures saved == Entry(|old(store)|, Notification(userId, kind, message, auctionId, false, now))
      ensures store == old(store) + [saved.item]
      ensures published == old(published) + [NotificationCreated(saved)]
    {
      var notification := Notification(userId, kind, message, auctionId, false, now);
      saved := Entry(|store|, notification);
      store := store + [notification];
      published := published + [NotificationCreated(saved)];
    }

    /** `getNotifications`. */
    function GetNotifications(u: UserId): (r: seq<Entry>)
      reads this
      ensures forall e :: e in r <==> e.id < |store| && e.item == store[e.id] && store[e.id].userId == u
      ensures NewestFirst(r)
    {
      var r := ListFor(store, u);
      assert forall e :: e in r <==> e.id < |store| && e.item == store[e.id] && store[e.id].userId == u by {
        forall e ensures e in r <==> e.id < |store| && e.item == store[e.id] && store[e.id].userId == u {
          ListForSpec(store, u, e);
        }
      }
      r
    }

    /** `getUnreadCount`. */
    function GetUnreadCount(u: UserId): (r: nat)
      reads this
      ensures r == |UnreadIds(store, u)|
      ensures r == 0 <==> forall i :: 0 <= i < |store| && store[i].userId == u ==> store[i].read
    {
      CountUnreadIsSize(store, u);
      CountUnreadZeroIff(store, u);
      CountUnread(store, u)
    }

    /** `markAsRead`: an unknown id changes nothing; a known one gets its
        read flag set and nothing else changes. */
    method MarkAsRead(id: nat)
      modifies this
      ensures store == MarkRead(old(store), id)
      ensures id >= |old(store)| ==> store == old(store)
      ensures published == old(published)
    {
      if id < |store| {
        var n := store[id];
        n := n.(read := true);
        store := store[id := n];
      }
    }

    /** `markAllAsRead`: sets the read flag of each of `u`'s notifications. */
    method MarkAllAsRead(u: UserId)
      modifies this
      ensures store == MarkAllRead(old(store), u)
      ensures published == old(published)
    {
      var i := 0;
      while i < |store|
        invariant 0 <= i <= |store| == |old(store)|
        invariant forall k :: 0 <= k < i ==> store[k] == ReadIfOwned(old(store)[k], u)
        invariant forall k :: i <= k < |store| ==> store[k] == old(store)[k]
        invariant published == old(published)
      {
        if store[i].userId == u {
          store := store[i := store[i].(read := true)];
        }
        i := i + 1;
      }
    }
  }
}
