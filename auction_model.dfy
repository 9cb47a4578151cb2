/** The auction entity, the bid-acceptance rules and the ledger movements
    that `AuctionService` performs on accepted bids and on settlement.

    An auction's id is its position in the auction table, a bid's id its
    position in the bid table. Times are plain integers read from a clock
    the caller passes in. */
module AuctionModel {
  import opened Wrappers
  import opened Users

  type AuctionId = nat

  datatype Status = Scheduled | Live | Closing | Closed

  datatype Auction = Auction(
    sellerId: UserId,
    title: string,
    description: string,
    startPrice: int,
    currentPrice: int,
    status: Status,
    startTime: int,
    endTime: int,
    leader: Option<UserId>,
    leaderBidId: Option<nat>)

  datatype Bid = Bid(auctionId: AuctionId, bidderId: UserId, amount: int, timestamp: int)

  datatype Settlement = Settlement(auctionId: AuctionId, winnerId: UserId, sellerId: UserId, amount: int, createdAt: int)

  datatype CreateAuctionRequest = CreateAuctionRequest(
    sellerId: UserId, title: string, description: string,
    startPrice: int, startTime: int, endTime: int)

  datatype AuctionResponse = AuctionResponse(
    id: AuctionId, sellerId: UserId, title: string, description: string,
    startPrice: int, currentPrice: int, leader: Option<UserId>,
    startTime: int, endTime: int, status: Status)

  /** Events `AuctionService` publishes to the application's listeners. */
  datatype DomainEvent =
    | BalanceChanged(userId: UserId, available: int, reserved: int)
    | BidPlaced(auctionId: AuctionId, newPrice: int, newLeaderId: UserId, previousLeaderId: Option<UserId>)
    | AuctionClosed(auctionId: AuctionId, winnerId: Option<UserId>, closingPrice: int)

  // ---------------------------------------------------------------------
  // Bid acceptance

  function Max(a: int, b: int): int {
    if a >= b then a else b
  }

  /** The smallest raise over `price`: 5% of it rounded down, but at least
      100 cents. */
  function MinIncrement(price: int): int {
    Max(price / 20, 100)
  }

  /** The lowest bid accepted on an auction whose current price is `price`. */
  function MinimumBid(price: int): int {
    price + MinIncrement(price)
  }

  /** The minimum bid is a strict raise of at least 100 cents and of at
      least 5% of the price up to rounding, and it is exactly 100 cents or
      exactly 5% rounded down. */
  lemma MinimumBidIsRaise(price: int)
    requires price >= 0
    ensures MinimumBid(price) >= price + 100
    ensures 20 * (MinimumBid(price) - price) > price - 20
    ensures MinimumBid(price) - price == 100 || 20 * (MinimumBid(price) - price) <= price
  {
  }

  /** Two worked examples of the increment rule. */
  lemma MinimumBidExamples()
    ensures MinimumBid(1000) == 1100
    ensures MinimumBid(100000) == 105000
  {
  }

  datatype BidError =
    | AuctionNotFound
    | BidderNotFound
    | NotLive
    | Ended
    | NotHigherThanCurrent(current: int)
    | BelowMinimum(minBid: int)
    | InsufficientFunds
    | LeaderMissing

  /** The checks of `placeBid`, in the source's order: the first one that
      fails, or `None` when the bid is accepted. The lookup of the previous
      leader, which the source does after debiting the bidder, is checked
      last: its failure rolls the whole transaction back, so the outcome is
      the same. */
  function CheckBid(users: seq<User>, auctions: seq<Auction>, auctionId: AuctionId,
                    bidderId: UserId, amount: int, now: int): Option<BidError>
  {
    if auctionId >= |auctions| then Some(AuctionNotFound)
    else if bidderId >= |users| then Some(BidderNotFound)
    else
      var a := auctions[auctionId];
      if a.status != Live then Some(NotLive)
      else if now > a.endTime then Some(Ended)
      else if amount <= a.currentPrice then Some(NotHigherThanCurrent(a.currentPrice))
      else if amount < MinimumBid(a.currentPrice) then Some(BelowMinimum(MinimumBid(a.currentPrice)))
      else if users[bidderId].available < amount then Some(InsufficientFunds)
      else if a.leader.Some? && a.leader.value >= |users| then Some(LeaderMissing)
      else None
  }

  /** A bid is accepted exactly when the auction and bidder exist, the
      auction is live and not past its end, the amount reaches the minimum
      bid (which makes the "higher than current" check redundant), the
      bidder can cover it from available funds, and any previous leader
      exists. */
  lemma AcceptedBidIff(users: seq<User>, auctions: seq<Auction>, auctionId: AuctionId,
                       bidderId: UserId, amount: int, now: int)
    ensures CheckBid(users, auctions, auctionId, bidderId, amount, now).None? <==>
              && auctionId < |auctions|
              && bidderId < |users|
              && auctions[auctionId].status == Live
              && now <= auctions[auctionId].endTime
              && amount >= MinimumBid(auctions[auctionId].currentPrice)
              && users[bidderId].available >= amount
              && (auctions[auctionId].leader.Some? ==> auctions[auctionId].leader.value < |users|)
  {
    if auctionId < |auctions| {
      var p := auctions[auctionId].currentPrice;
      assert MinimumBid(p) > p;
    }
  }

  // ---------------------------------------------------------------------
  // Ledger movements

  /** Moves `amount` from a bidder's available balance into reserve. */
  function Reserve(u: User, amount: int): (r: User)
    ensures Funds(r) == Funds(u)
  {
    u.(available := u.available - amount, reserved := u.reserved + amount)
  }

  /** Returns `amount` from reserve to available: the refund of an outbid leader. */
  function Release(u: User, amount: int): (r: User)
    ensures Funds(r) == Funds(u)
  {
    u.(available := u.available + amount, reserved := u.reserved - amount)
  }

  /** The bidder's reservation, the first write of an accepted bid. */
  function ReserveFor(users: seq<User>, bidderId: UserId, amount: int): (r: seq<User>)
    requires bidderId < |users|
    ensures |r| == |users|
  {
    users[bidderId := Reserve(users[bidderId], amount)]
  }

  /** The table after an accepted bid of `amount` on auction `a`: the bidder
      reserves the amount, then the previous leader (possibly the bidder
      again) is refunded the old current price. */
  function BidLedger(users: seq<User>, a: Auction, bidderId: UserId, amount: int): (r: seq<User>)
    requires bidderId < |users|
    requires a.leader.Some? ==> a.leader.value < |users|
    ensures |r| == |users|
  {
    var reserved := ReserveFor(users, bidderId, amount);
    match a.leader
    case None => reserved
    case Some(p) => reserved[p := Release(reserved[p], a.currentPrice)]
  }

  /** An accepted bid moves money between accounts but creates or destroys none. */
  lemma BidConservesFunds(users: seq<User>, a: Auction, bidderId: UserId, amount: int)
    requires bidderId < |users|
    requires a.leader.Some? ==> a.leader.value < |users|
    ensures Total(BidLedger(users, a, bidderId, amount)) == Total(users)
  {
    var reserved := ReserveFor(users, bidderId, amount);
    TotalUpdate(users, bidderId, Reserve(users[bidderId], amount));
    if a.leader.Some? {
      TotalUpdate(reserved, a.leader.value, Release(reserved[a.leader.value], a.currentPrice));
    }
  }

  /** What an accepted bid does to each account: the bidder's available
      balance drops by the amount and its reserve rises by it; the previous
      leader gets the old price back from reserve into available; when the
      bidder is the previous leader both apply; nothing else changes. */
  lemma BidLedgerEffect(users: seq<User>, a: Auction, bidderId: UserId, amount: int, u: UserId)
    requires bidderId < |users|
    requires a.leader.Some? ==> a.leader.value < |users|
    requires u < |users|
    ensures var r := BidLedger(users, a, bidderId, amount);
            var debit := if u == bidderId then amount else 0;
            var refund := if a.leader == Some(u) then a.currentPrice else 0;
            && r[u].available == users[u].available - debit + refund
            && r[u].reserved == users[u].reserved + debit - refund
            && r[u].email == users[u].email
            && r[u].googleId == users[u].googleId
            && r[u].name == users[u].name
  {
  }

  /** The auction after accepting a bid: the amount becomes the price and
      the bidder the leader. */
  function Outbid(a: Auction, bidderId: UserId, amount: int, bidId: nat): Auction {
    a.(currentPrice := amount, leader := Some(bidderId), leaderBidId := Some(bidId))
  }

  /** An accepted bid strictly raises the price, by at least the minimum
      increment, and makes the bidder the leader. */
  lemma AcceptedBidRaisesPrice(users: seq<User>, auctions: seq<Auction>, auctionId: AuctionId,
                               bidderId: UserId, amount: int, now: int, bidId: nat)
    requires CheckBid(users, auctions, auctionId, bidderId, amount, now).None?
    ensures auctionId < |auctions|
    ensures var before := auctions[auctionId];
            var after := Outbid(before, bidderId, amount, bidId);
            && after.currentPrice >= before.currentPrice + 100
            && after.currentPrice >= MinimumBid(before.currentPrice)
            && after.leader == Some(bidderId)
            && after.status == before.status && after.endTime == before.endTime
  {
    AcceptedBidIff(users, auctions, auctionId, bidderId, amount, now);
  }

  /** The winner's payment out of reserve. */
  function Pay(u: User, price: int): (r: User)
    ensures Funds(r) == Funds(u) - price
  {
    u.(reserved := u.reserved - price)
  }

  /** The seller's proceeds, into available. */
  function Credit(u: User, price: int): (r: User)
    ensures Funds(r) == Funds(u) + price
  {
    u.(available := u.available + price)
  }

  /** The table after settling an auction: the winner's reserve pays
      `price`, then the seller's available balance receives it. */
  function CloseLedger(users: seq<User>, winnerId: UserId, sellerId: UserId, price: int): (r: seq<User>)
    requires winnerId < |users| && sellerId < |users|
    ensures |r| == |users|
  {
    var paid := users[winnerId := Pay(users[winnerId], price)];
    paid[sellerId := Credit(paid[sellerId], price)]
  }

  /** Settlement moves the closing price from the winner's reserve to the
      seller's available balance and leaves every other balance alone. */
  lemma CloseLedgerEffect(users: seq<User>, winnerId: UserId, sellerId: UserId, price: int, u: UserId)
    requires winnerId < |users| && sellerId < |users| && u < |users|
    ensures var r := CloseLedger(users, winnerId, sellerId, price);
            && r[u].reserved == users[u].reserved - (if u == winnerId then price else 0)
            && r[u].available == users[u].available + (if u == sellerId then price else 0)
            && r[u].email == users[u].email
  {
  }

  /** Settlement creates or destroys no money. */
  lemma CloseConservesFunds(users: seq<User>, winnerId: UserId, sellerId: UserId, price: int)
    requires winnerId < |users| && sellerId < |users|
    ensures Total(CloseLedger(users, winnerId, sellerId, price)) == Total(users)
  {
    var paid := users[winnerId := Pay(users[winnerId], price)];
    TotalUpdate(users, winnerId, Pay(users[winnerId], price));
    assert Total(paid) == Total(users) - price;
    TotalUpdate(paid, sellerId, Credit(paid[sellerId], price));
  }

  /** The repository's own bid scenario: a first bid of 200 on a live
      auction at 100 is accepted and moves the bidder from 1000/0 to
      800/200, and a bid of 1500 from that bidder is refused for funds. */
  lemma BidScenario(seller: User, bidder: User, a: Auction)
    requires bidder.available == 1000 && bidder.reserved == 0
    requires a.status == Live && a.currentPrice == 100 && a.endTime >= 0 && a.leader.None?
    ensures CheckBid([seller, bidder], [a], 0, 1, 200, 0).None?
    ensures BidLedger([seller, bidder], a, 1, 200)[1] == bidder.(available := 800, reserved := 200)
    ensures Outbid(a, 1, 200, 0).currentPrice == 200 && Outbid(a, 1, 200, 0).leader == Some(1)
    ensures CheckBid([seller, bidder], [a], 0, 1, 1500, 0) == Some(InsufficientFunds)
  {
    assert MinimumBid(100) == 200;
  }

  /** The repository's own settlement scenario: closing at 500 takes the
      winner's reserve from 500 to 0 and credits a seller at 0 with 500. */
  lemma SettlementScenario(seller: User, winner: User)
    requires seller.available == 0 && winner.available == 500 && winner.reserved == 500
    ensures var r := CloseLedger([seller, winner], 1, 0, 500);
            r[1].reserved == 0 && r[1].available == 500 && r[0].available == 500
  {
  }

  // ---------------------------------------------------------------------
  // Creation, start and projections

  /** The auction `createAuction` stores for a valid request. */
  function NewAuction(req: CreateAuctionRequest): (a: Auction)
    ensures a.status == Scheduled && a.currentPrice == a.startPrice == req.startPrice
    ensures a.leader.None? && a.leaderBidId.None?
    ensures a.sellerId == req.sellerId && a.startTime == req.startTime && a.endTime == req.endTime
  {
    Auction(req.sellerId, req.title, req.description, req.startPrice, req.startPrice,
            Scheduled, req.startTime, req.endTime, None, None)
  }

  /** The first failing check of `createAuction`, in the source's order. */
  function CheckCreate(users: seq<User>, req: CreateAuctionRequest): (r: Option<string>)
    ensures r.None? <==> req.startPrice > 0 && req.sellerId < |users| && req.startTime <= req.endTime
  {
    if req.startPrice <= 0 then Some("Start price must be greater than 0")
    else if req.sellerId >= |users| then Some("Seller not found")
    else if req.startTime > req.endTime then Some("Start time must be before end time")
    else None
  }

  /** `convertToLive` as the source writes it: the start moves to `now`,
      the duration is kept, the status becomes LIVE, whatever it was. */
  function Launch(a: Auction, now: int): (r: Auction)
    ensures r.startTime == now && r.endTime - r.startTime == a.endTime - a.startTime
    ensures r.status == Live
    ensures r.(startTime := a.startTime, endTime := a.endTime, status := a.status) == a
  {
    a.(startTime := now, endTime := now + (a.endTime - a.startTime), status := Live)
  }

  /** `mapToResponse`: the public view of auction `id`. */
  function MapToResponse(id: AuctionId, a: Auction): (r: AuctionResponse)
    ensures r.id == id && r.sellerId == a.sellerId && r.title == a.title
    ensures r.startPrice == a.startPrice && r.currentPrice == a.currentPrice
    ensures r.leader == a.leader && r.status == a.status
    ensures r.startTime == a.startTime && r.endTime == a.endTime && r.description == a.description
  {
    AuctionResponse(id, a.sellerId, a.title, a.description, a.startPrice, a.currentPrice,
                    a.leader, a.startTime, a.endTime, a.status)
  }

  predicate HasBidOn(bids: seq<Bid>, bidderId: UserId, auctionId: AuctionId) {
    exists j :: 0 <= j < |bids| && bids[j].bidderId == bidderId && bids[j].auctionId == auctionId
  }

  /** The auctions among the first `n` of the table that `bidderId` has bid on, in id order. */
  function BidOnAmong(bids: seq<Bid>, auctions: seq<Auction>, bidderId: UserId, n: nat): (r: seq<AuctionResponse>)
    requires n <= |auctions|
    ensures forall k :: 0 <= k < |r| ==> r[k].id < n && HasBidOn(bids, bidderId, r[k].id)
                                         && r[k] == MapToResponse(r[k].id, auctions[r[k].id])
    ensures forall k, l :: 0 <= k < l < |r| ==> r[k].id < r[l].id
    ensures forall id :: 0 <= id < n && HasBidOn(bids, bidderId, id) ==>
                           exists k :: 0 <= k < |r| && r[k].id == id
  {
    if n == 0 then []
    else
      var prefix := BidOnAmong(bids, auctions, bidderId, n - 1);
      if HasBidOn(bids, bidderId, n - 1) then
        ExtendBidOnListing(prefix, bids, auctions, bidderId, n);
        prefix + [MapToResponse(n - 1, auctions[n - 1])]
      else prefix
  }

  /** Appending auction `n - 1`, which the bidder has bid on, to the listing
      of the first `n - 1` auctions lists the first `n`. */
  lemma ExtendBidOnListing(prefix: seq<AuctionResponse>, bids: seq<Bid>, auctions: seq<Auction>, bidderId: UserId, n: nat)
    requires 0 < n <= |auctions| && HasBidOn(bids, bidderId, n - 1)
    requires forall k :: 0 <= k < |prefix| ==>
               prefix[k].id < n - 1 && HasBidOn(bids, bidderId, prefix[k].id)
               && prefix[k] == MapToResponse(prefix[k].id, auctions[prefix[k].id])
    requires forall k, l :: 0 <= k < l < |prefix| ==> prefix[k].id < prefix[l].id
    requires forall id :: 0 <= id < n - 1 && HasBidOn(bids, bidderId, id) ==>
                            exists k :: 0 <= k < |prefix| && prefix[k].id == id
    ensures var r := prefix + [MapToResponse(n - 1, auctions[n - 1])];
            && (forall k :: 0 <= k < |r| ==>
                  r[k].id < n && HasBidOn(bids, bidderId, r[k].id) && r[k] == MapToResponse(r[k].id, auctions[r[k].id]))
            && (forall k, l :: 0 <= k < l < |r| ==> r[k].id < r[l].id)
            && (forall id :: 0 <= id < n && HasBidOn(bids, bidderId, id) ==>
                               exists k :: 0 <= k < |r| && r[k].id == id)
  {
    var r := prefix + [MapToResponse(n - 1, auctions[n - 1])];
    assert r[|prefix|].id == n - 1;
    forall id | 0 <= id < n && HasBidOn(bids, bidderId, id) ensures exists k :: 0 <= k < |r| && r[k].id == id {
      if id < n - 1 {
        var k :| 0 <= k < |prefix| && prefix[k].id == id;
        assert r[k] == prefix[k];
      }
    }
  }

  /** `getAuctionsByBidder`: every existing auction the bidder has bid on,
      each exactly once. The source collects the ids into a hash set, whose
      iteration order is unspecified; the model lists them in id order. */
  function AuctionsByBidder(bids: seq<Bid>, auctions: seq<Auction>, bidderId: UserId): (r: seq<AuctionResponse>)
  {
    BidOnAmong(bids, auctions, bidderId, |auctions|)
  }

  /** A response is listed exactly when it is the view of an existing
      auction the bidder has bid on, and no auction is listed twice. */
  lemma AuctionsByBidderSpec(bids: seq<Bid>, auctions: seq<Auction>, bidderId: UserId, x: AuctionResponse)
    ensures x in AuctionsByBidder(bids, auctions, bidderId) <==>
              x.id < |auctions| && HasBidOn(bids, bidderId, x.id) && x == MapToResponse(x.id, auctions[x.id])
    ensures var r := AuctionsByBidder(bids, auctions, bidderId);
            forall k, l :: 0 <= k < |r| && 0 <= l < |r| && k != l ==> r[k].id != r[l].id
  {
    var r := AuctionsByBidder(bids, auctions, bidderId);
    if x.id < |auctions| && HasBidOn(bids, bidderId, x.id) && x == MapToResponse(x.id, auctions[x.id]) {
      var k :| 0 <= k < |r| && r[k].id == x.id;
      assert r[k] == x;
    }
    forall k, l | 0 <= k < |r| && 0 <= l < |r| && k != l ensures r[k].id != r[l].id {
      if k < l { assert r[k].id < r[l].id; } else { assert r[l].id < r[k].id; }
    }
  }

  /** Which repository query `searchAuctions` runs. The queries themselves
      are not part of this model. */
  datatype SearchQuery =
    | FindAll
    | FindByStatus(status: Status)
    | SearchText(text: string)
    | SearchTextAndStatus(text: string, status: Status)

  /** Java's `Character.isWhitespace`: the ASCII controls it names and the
      Unicode space, line and paragraph separators except the non-breaking ones. */
  predicate IsWhitespace(c: char) {
    || c == ' ' || c == '\t' || c == '\n' || c == '\r' || c == '\U{000B}' || c == '\U{000C}'
    || ('\U{001C}' <= c <= '\U{001F}')
    || c == '\U{1680}'
    || ('\U{2000}' <= c <= '\U{2006}')
    || ('\U{2008}' <= c <= '\U{200A}')
    || c == '\U{2028}' || c == '\U{2029}' || c == '\U{205F}' || c == '\U{3000}'
  }

  /** Java's `String.isBlank`: empty or only whitespace. */
  predicate IsBlank(s: string) {
    forall i :: 0 <= i < |s| ==> IsWhitespace(s[i])
  }

  /** `searchAuctions`: a null or blank query searches nothing by text; a
      null status filters nothing. */
  function SearchPlan(query: Option<string>, status: Option<Status>): (r: SearchQuery)
    ensures (query.None? || IsBlank(query.value)) ==> (r.FindAll? || r.FindByStatus?)
    ensures r.FindByStatus? || r.SearchTextAndStatus? <==> status.Some?
    ensures r.SearchText? || r.SearchTextAndStatus? ==> query == Some(r.text)
  {
    if query.None? || IsBlank(query.value) then
      (if status.None? then FindAll else FindByStatus(status.value))
    else if status.None? then SearchText(query.value)
    else SearchTextAndStatus(query.value, status.value)
  }
}
