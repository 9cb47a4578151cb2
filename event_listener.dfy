/** `AuctionEventListener`: what each domain event turns into — messages on
    the push topics, the cached price and notifications for the users
    concerned. Sends and cache writes are recorded in an effect log. */
module EventRouting {
  import opened Wrappers
  import opened Users
  import opened AuctionModel
  import opened Text
  import opened Notifications
  import opened AuctionEngine

  /** The push topics the listener publishes on. */
  datatype Destination =
    | AuctionTopic(auctionId: AuctionId)
    | UserTopic(userId: UserId)
    | UserNotifications(userId: UserId)

  function TopicName(d: Destination): string {
    match d
    case AuctionTopic(a) => "/topic/auctions/" + NatToString(a)
    case UserTopic(u) => "/topic/users/" + NatToString(u)
    case UserNotifications(u) => "/topic/users/" + NatToString(u) + "/notifications"
  }

  /** A digit string never equals a digit string followed by a suffix that starts with '/'. */
  lemma DigitsThenSuffix(a: string, b: string, suffix: string)
    requires AllDigits(a) && AllDigits(b)
    requires |suffix| > 0 && suffix[0] == '/'
    ensures a != b + suffix
  {
    assert (b + suffix)[|b|] == '/';
    assert !AllDigits(b + suffix);
  }

  /** Distinct topics have distinct names: no auction's messages reach a
      user's topic, and no two users share a topic. */
  lemma TopicNameInjective(d1: Destination, d2: Destination)
    ensures TopicName(d1) == TopicName(d2) ==> d1 == d2
  {
    if d1.AuctionTopic? != d2.AuctionTopic? {
      AuctionAndUserTopicsDiffer(d1, d2);
    } else if TopicName(d1) == TopicName(d2) {
      match (d1, d2)
      case (AuctionTopic(a), AuctionTopic(b)) => SameAuctionTopic(a, b);
      case (UserTopic(u), UserTopic(v)) => SameUserTopic(u, v);
      case (UserTopic(u), UserNotifications(v)) => UserTopicIsNotNotifications(u, v);
      case (UserNotifications(u), UserTopic(v)) => UserTopicIsNotNotifications(v, u);
      case (UserNotifications(u), UserNotifications(v)) => SameNotificationTopic(u, v);
    }
  }

  lemma AuctionAndUserTopicsDiffer(d1: Destination, d2: Destination)
    requires d1.AuctionTopic? != d2.AuctionTopic?
    ensures TopicName(d1) != TopicName(d2)
  {
    var s, t := TopicName(d1), TopicName(d2);
    assert s[7] != t[7];
  }

  lemma SameAuctionTopic(a: AuctionId, b: AuctionId)
    requires TopicName(AuctionTopic(a)) == TopicName(AuctionTopic(b))
    ensures a == b
  {
    CommonPrefix("/topic/auctions/", NatToString(a), NatToString(b));
    NatToStringInjective(a, b);
  }

  lemma SameUserTopic(u: UserId, v: UserId)
    requires TopicName(UserTopic(u)) == TopicName(UserTopic(v))
    ensures u == v
  {
    CommonPrefix("/topic/users/", NatToString(u), NatToString(v));
    NatToStringInjective(u, v);
  }

  lemma UserTopicIsNotNotifications(u: UserId, v: UserId)
    ensures TopicName(UserTopic(u)) != TopicName(UserNotifications(v))
  {
    if TopicName(UserTopic(u)) == TopicName(UserNotifications(v)) {
      assert TopicName(UserNotifications(v)) == "/topic/users/" + (NatToString(v) + "/notifications");
      CommonPrefix("/topic/users/", NatToString(u), NatToString(v) + "/notifications");
      DigitsThenSuffix(NatToString(u), NatToString(v), "/notifications");
    }
  }

  lemma SameNotificationTopic(u: UserId, v: UserId)
    requires TopicName(UserNotifications(u)) == TopicName(UserNotifications(v))
    ensures u == v
  {
    assert TopicName(UserNotifications(u)) == "/topic/users/" + (NatToString(u) + "/notifications");
    assert TopicName(UserNotifications(v)) == "/topic/users/" + (NatToString(v) + "/notifications");
    CommonPrefix("/topic/users/", NatToString(u) + "/notifications", NatToString(v) + "/notifications");
    CommonSuffix(NatToString(u), NatToString(v), "/notifications");
    NatToStringInjective(u, v);
  }

  lemma CommonPrefix(p: string, x: string, y: string)
    requires p + x == p + y
    ensures x == y
  {
    assert x == (p + x)[|p|..];
    assert y == (p + y)[|p|..];
  }

  lemma CommonSuffix(x: string, y: string, q: string)
    requires x + q == y + q
    ensures x == y
  {
    assert |x| == |y|;
    assert x == (x + q)[..|x|];
    assert y == (y + q)[..|y|];
  }

  /** The cache key holding an auction's current price. */
  function PriceKey(auctionId: AuctionId): string {
    "auction:" + NatToString(auctionId) + ":price"
  }

  /** Distinct auctions cache their prices under distinct keys. */
  lemma PriceKeyInjective(a: AuctionId, b: AuctionId)
    requires PriceKey(a) == PriceKey(b)
    ensures a == b
  {
    var s := PriceKey(a);
    assert s[8..|s| - 6] == NatToString(a) == NatToString(b);
    NatToStringInjective(a, b);
  }

  datatype Body = EventBody(event: DomainEvent) | NotificationBody(entry: Entry)

  datatype Effect = Send(topic: string, body: Body) | CacheSet(key: string, value: int)

  /** A notification the listener asks `NotificationService` to create. */
  datatype Notice = Notice(userId: UserId, kind: NotificationType, message: Message, auctionId: AuctionId)

  /** `auctionRepository.findById`. */
  function FindAuction(auctions: seq<Auction>, id: AuctionId): (r: Option<Auction>)
    ensures r.Some? <==> id < |auctions|
    ensures r.Some? ==> r.value == auctions[id]
  {
    if id < |auctions| then Some(auctions[id]) else None
  }

  /** The notices a bid event produces: an OUTBID notice for the previous
      leader, only when there is one, it is not the new leader and the
      auction is found. */
  function OutbidNotices(e: DomainEvent, auction: Option<Auction>): (r: seq<Notice>)
    requires e.BidPlaced?
    ensures |r| <= 1
    ensures |r| == 1 <==> e.previousLeaderId.Some? && e.previousLeaderId.value != e.newLeaderId && auction.Some?
    ensures forall k :: 0 <= k < |r| ==>
              && r[k].userId == e.previousLeaderId.value && r[k].kind == Outbid
              && r[k].auctionId == e.auctionId && r[k].message.OutbidMessage?
              && r[k].message.title == auction.value.title && r[k].message.newPrice == e.newPrice
  {
    if e.previousLeaderId.Some? && e.previousLeaderId.value != e.newLeaderId && auction.Some? then
      [Notice(e.previousLeaderId.value, Outbid, OutbidMessage(auction.value.title, e.newPrice), e.auctionId)]
    else []
  }

  /** The notices a closed event produces: none when the auction is not
      found; otherwise AUCTION_WON for the winner exactly when there is
      one, then SALE_COMPLETE for the seller, whose "no bids" variant is
      used exactly when there is no winner. */
  function ClosedNotices(e: DomainEvent, auction: Option<Auction>): (r: seq<Notice>)
    requires e.AuctionClosed?
    ensures auction.None? ==> r == []
    ensures auction.Some? ==> |r| == (if e.winnerId.Some? then 2 else 1)
    ensures forall k :: 0 <= k < |r| ==> r[k].auctionId == e.auctionId
    ensures (exists k :: 0 <= k < |r| && r[k].kind == AuctionWon) <==> auction.Some? && e.winnerId.Some?
    ensures forall k :: 0 <= k < |r| && r[k].kind == AuctionWon ==>
              r[k].userId == e.winnerId.value && r[k].message == WonMessage(auction.value.title, e.closingPrice)
    ensures auction.Some? ==>
              var last := r[|r| - 1];
              && last.userId == auction.value.sellerId && last.kind == SaleComplete
              && (last.message.NoBidsMessage? <==> e.winnerId.None?)
              && last.message.title == auction.value.title
  {
    match auction
    case None => []
    case Some(a) =>
      var won := match e.winnerId
                 case Some(w) => [Notice(w, AuctionWon, WonMessage(a.title, e.closingPrice), e.auctionId)]
                 case None => [];
      var sale := if e.winnerId.Some? then SoldMessage(a.title, e.closingPrice) else NoBidsMessage(a.title);
      var r := won + [Notice(a.sellerId, SaleComplete, sale, e.auctionId)];
      assert r[|r| - 1].kind == SaleComplete;
      assert e.winnerId.Some? ==> r[0].kind == AuctionWon;
      r
  }

  /** The stored form of a notice created at `now`. */
  function Stored(n: Notice, now: int): Notification {
    Notification(n.userId, n.kind, n.message, Some(n.auctionId), false, now)
  }

  function StoredAll(notices: seq<Notice>, now: int): (r: seq<Notification>)
    ensures |r| == |notices|
    ensures forall k :: 0 <= k < |r| ==> r[k] == Stored(notices[k], now)
  {
    seq(|notices|, k requires 0 <= k < |notices| => Stored(notices[k], now))
  }

  /** The events announcing `notices` once they are stored from position
      `base` on: one per notice, in order, each carrying its new entry. */
  function CreatedEvents(base: nat, notices: seq<Notice>, now: int): (r: seq<NotificationCreated>)
    ensures |r| == |notices|
    ensures forall k :: 0 <= k < |r| ==> r[k] == NotificationCreated(Entry(base + k, Stored(notices[k], now)))
  {
    seq(|notices|, k requires 0 <= k < |notices| => NotificationCreated(Entry(base + k, Stored(notices[k], now))))
  }

  class AuctionEventListener {
    const engine: AuctionService
    const notifier: NotificationService
    /** Messages sent and cache entries written, in order. */
    var effects: seq<Effect>

    constructor(engine: AuctionService, notifier: NotificationService)
      ensures this.engine == engine && this.notifier == notifier && effects == []
    {
      this.engine := engine;
      this.notifier := notifier;
      effects := [];
    }

    /** `handleBidPlaced`: broadcasts the bid on the auction's topic, caches
        the new price, and notifies an outbid previous leader. */
    method HandleBidPlaced(e: DomainEvent, now: int)
      requires e.BidPlaced?
      modifies this, notifier
      ensures effects == old(effects) + [Send(TopicName(AuctionTopic(e.auctionId)), EventBody(e)),
                                         CacheSet(PriceKey(e.auctionId), e.newPrice)]
      ensures notifier.store == old(notifier.store) + StoredAll(OutbidNotices(e, FindAuction(engine.auctions, e.auctionId)), now)
      ensures notifier.published == old(notifier.published)
                + CreatedEvents(|old(notifier.store)|, OutbidNotices(e, FindAuction(engine.auctions, e.auctionId)), now)
    {
      effects := effects + [Send(TopicName(AuctionTopic(e.auctionId)), EventBody(e))];
      effects := effects + [CacheSet(PriceKey(e.auctionId), e.newPrice)];
      if e.previousLeaderId.Some? && e.previousLeaderId.value != e.newLeaderId {
        var auction := FindAuction(engine.auctions, e.auctionId);
        if auction.Some? {
          var message := OutbidMessage(auction.value.title, e.newPrice);
          var _ := notifier.CreateNotification(e.previousLeaderId.value, Outbid, message, Some(e.auctionId), now);
        }
      }
    }

    /** `handleAuctionClosed`: always broadcasts the closed event on the
        auction's topic; when the auction is found, notifies the winner (if
        any) and then the seller. */
    method HandleAuctionClosed(e: DomainEvent, now: int)
      requires e.AuctionClosed?
      modifies this, notifier
      ensures effects == old(effects) + [Send(TopicName(AuctionTopic(e.auctionId)), EventBody(e))]
      ensures notifier.store == old(notifier.store) + StoredAll(ClosedNotices(e, FindAuction(engine.auctions, e.auctionId)), now)
      ensures notifier.published == old(notifier.published)
                + CreatedEvents(|old(notifier.store)|, ClosedNotices(e, FindAuction(engine.auctions, e.auctionId)), now)
    {
      effects := effects + [Send(TopicName(AuctionTopic(e.auctionId)), EventBody(e))];
      var auction := FindAuction(engine.auctions, e.auctionId);
      if auction.None? {
        return;
      }
      var a := auction.value;
      if e.winnerId.Some? {
        var won := WonMessage(a.title, e.closingPrice);
        var _ := notifier.CreateNotification(e.winnerId.value, AuctionWon, won, Some(e.auctionId), now);
      }
      var sale := if e.winnerId.Some? then SoldMessage(a.title, e.closingPrice) else NoBidsMessage(a.title);
      var _ := notifier.CreateNotification(a.sellerId, SaleComplete, sale, Some(e.auctionId), now);
    }

    /** `handleUserBalanceChanged`: forwards the new balances to the user's topic. */
    method HandleUserBalanceChanged(e: DomainEvent)
      requires e.BalanceChanged?
      modifies this
      ensures effects == old(effects) + [Send(TopicName(UserTopic(e.userId)), EventBody(e))]
    {
      effects := effects + [Send(TopicName(UserTopic(e.userId)), EventBody(e))];
    }

    /** `handleNotificationCreated`: forwards the notification to its owner's
        notification topic. */
    method HandleNotificationCreated(e: NotificationCreated)
      modifies this
      ensures effects == old(effects) + [Send(TopicName(UserNotifications(e.entry.item.userId)), NotificationBody(e.entry))]
    {
      effects := effects + [Send(TopicName(UserNotifications(e.entry.item.userId)), NotificationBody(e.entry))];
    }
  }
}
