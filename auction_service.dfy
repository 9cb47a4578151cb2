/** `AuctionService`: the transactional operations of the auction engine
    over the auction, bid and settlement tables and the shared user table.
    A call that throws in the source returns `Fail` here and changes
    nothing, as the transaction's rollback guarantees. */
module AuctionEngine {
  import opened Wrappers
  import opened Users
  import opened AuctionModel
  import opened Ledger

  /** The events an accepted bid publishes, in order: the bidder's new
      balances after the reservation, the previous leader's balances after
      the refund (when there is one), then the bid itself. */
  function BidEvents(users: seq<User>, a: Auction, auctionId: AuctionId, bidderId: UserId, amount: int): seq<DomainEvent>
    requires bidderId < |users|
    requires a.leader.Some? ==> a.leader.value < |users|
  {
    var mid := ReserveFor(users, bidderId, amount);
    var after := BidLedger(users, a, bidderId, amount);
    [BalanceChanged(bidderId, mid[bidderId].available, mid[bidderId].reserved)]
    + (match a.leader
       case None => []
       case Some(p) => [BalanceChanged(p, after[p].available, after[p].reserved)])
    + [BidPlaced(auctionId, amount, bidderId, a.leader)]
  }

  /** The tables `closeAuction` reads and writes. */
  datatype Tables = Tables(users: seq<User>, auctions: seq<Auction>, settlements: seq<Settlement>, events: seq<DomainEvent>)

  /** What one `closeAuction` call returns and leaves behind. */
  datatype Step = Step(outcome: Outcome<string>, after: Tables)

  /** Whether the settlements table already holds a row for the auction. */
  predicate Settled(settlements: seq<Settlement>, auctionId: AuctionId) {
    exists j :: 0 <= j < |settlements| && settlements[j].auctionId == auctionId
  }

  /** The unique `auction_id` column of the settlements table: no auction is
      settled twice. */
  predicate OneSettlementEach(settlements: seq<Settlement>) {
    forall j, k :: 0 <= j < k < |settlements| ==> settlements[j].auctionId != settlements[k].auctionId
  }

  /** Every settlement names an existing auction, and that auction is CLOSED. */
  predicate SettledAreClosed(settlements: seq<Settlement>, auctions: seq<Auction>) {
    forall j :: 0 <= j < |settlements| ==>
      settlements[j].auctionId < |auctions| && auctions[settlements[j].auctionId].status == Closed
  }

  /** The service invariant: the escrow invariant over users and auctions,
      and a settlements table in which each auction appears at most once and
      only once it is CLOSED. */
  ghost predicate Sound(t: Tables) {
    && Escrow(t.users, t.auctions)
    && SettledAreClosed(t.settlements, t.auctions)
    && OneSettlementEach(t.settlements)
  }

  /** `closeAuction` on values: the outcome and the tables after the call.
      A failure leaves every table as it was; only the named auction can
      change, a claimed existing auction that passes ends CLOSED, and an
      auction that is already settled is never settled again: the second
      settlement row violates the unique `auction_id` column, so the
      transaction rolls back and the call fails. */
  function Close(t: Tables, auctionId: AuctionId, claimed: bool, now: int): (r: Step)
    ensures r.outcome.Fail? ==> r.after == t
    ensures |r.after.users| == |t.users|
    ensures |r.after.auctions| == |t.auctions|
    ensures forall i :: 0 <= i < |t.auctions| && i != auctionId ==> r.after.auctions[i] == t.auctions[i]
    ensures r.outcome.Pass? && claimed && auctionId < |t.auctions| ==> r.after.auctions[auctionId].status == Closed
    ensures !claimed ==> r == Step(Pass, t)
    ensures t.settlements <= r.after.settlements
    ensures Settled(t.settlements, auctionId) ==>
              r.after.settlements == t.settlements && r.after.users == t.users && r.after.events == t.events
  {
    if !claimed then Step(Pass, t)
    else if auctionId >= |t.auctions| then Step(Fail("Auction not found"), t)
    else
      var a := t.auctions[auctionId];
      var closed := t.auctions[auctionId := a.(status := Closed)];
      if a.leader.None? then Step(Pass, t.(auctions := closed))
      else
        var w := a.leader.value;
        if w >= |t.users| then Step(Fail("Winner not found"), t)
        else if a.sellerId >= |t.users| then Step(Fail("Seller not found"), t)
        else if t.users[w].reserved < a.currentPrice then Step(Fail("Winner has insufficient funds"), t)
        else if Settled(t.settlements, auctionId) then Step(Fail("Duplicate settlement"), t)
        else
          Step(Pass, Tables(CloseLedger(t.users, w, a.sellerId, a.currentPrice), closed,
                            t.settlements + [Settlement(auctionId, w, a.sellerId, a.currentPrice, now)],
                            t.events + [AuctionClosed(auctionId, Some(w), a.currentPrice)]))
  }

  /** Closing moves money between accounts and creates none. */
  lemma CloseConservesTotal(t: Tables, auctionId: AuctionId, claimed: bool, now: int)
    ensures Total(Close(t, auctionId, claimed, now).after.users) == Total(t.users)
  {
    if claimed && auctionId < |t.auctions| && t.auctions[auctionId].leader.Some? {
      var a := t.auctions[auctionId];
      if a.leader.value < |t.users| && a.sellerId < |t.users| {
        CloseConservesFunds(t.users, a.leader.value, a.sellerId, a.currentPrice);
      }
    }
  }

  /** A claimed auction that already has a settlement and whose winner
      could pay again is refused, and every table stays as it was. */
  lemma SecondCloseRefused(t: Tables, auctionId: AuctionId, now: int)
    requires auctionId < |t.auctions| && Settled(t.settlements, auctionId)
    requires t.auctions[auctionId].leader.Some?
    requires t.auctions[auctionId].leader.value < |t.users| && t.auctions[auctionId].sellerId < |t.users|
    requires t.users[t.auctions[auctionId].leader.value].reserved >= t.auctions[auctionId].currentPrice
    ensures Close(t, auctionId, true, now) == Step(Fail("Duplicate settlement"), t)
  {
  }

  /** Closing never records a second settlement for an auction. */
  lemma CloseKeepsOneSettlementEach(t: Tables, auctionId: AuctionId, claimed: bool, now: int)
    requires OneSettlementEach(t.settlements)
    ensures OneSettlementEach(Close(t, auctionId, claimed, now).after.settlements)
  {
    var after := Close(t, auctionId, claimed, now).after.settlements;
    if |after| != |t.settlements| {
      assert after == t.settlements + [after[|t.settlements|]];
      assert after[|t.settlements|].auctionId == auctionId;
      assert !Settled(t.settlements, auctionId);
    }
  }

  /** Under the service invariant a claimed open auction always closes: its
      leader's reserve covers the price and it has no settlement yet. The
      invariant still holds afterwards. */
  lemma CloseOpenAuction(t: Tables, auctionId: AuctionId, now: int)
    requires Sound(t) && auctionId < |t.auctions|
    requires t.auctions[auctionId].status == Live || t.auctions[auctionId].status == Closing
    ensures Close(t, auctionId, true, now).outcome == Pass
    ensures Sound(Close(t, auctionId, true, now).after)
  {
    NotClosedNotSettled(t, auctionId);
    if t.auctions[auctionId].leader.Some? {
      EscrowCoversLeader(t.users, t.auctions, auctionId);
    }
    CloseKeepsBalance(t, auctionId, true, now);
  }

  /** Under the service invariant an auction that is not CLOSED has no settlement. */
  lemma NotClosedNotSettled(t: Tables, auctionId: AuctionId)
    requires SettledAreClosed(t.settlements, t.auctions) && auctionId < |t.auctions|
    requires t.auctions[auctionId].status != Closed
    ensures !Settled(t.settlements, auctionId)
  {
  }

  /** Closing keeps the service invariant unless the auction was already
      CLOSED (whose price no reserve backs any more). */
  lemma CloseKeepsBalance(t: Tables, auctionId: AuctionId, claimed: bool, now: int)
    requires Sound(t)
    requires !(claimed && auctionId < |t.auctions| && t.auctions[auctionId].status == Closed)
    ensures Sound(Close(t, auctionId, claimed, now).after)
  {
    CloseKeepsOneSettlementEach(t, auctionId, claimed, now);
    var r := Close(t, auctionId, claimed, now);
    if claimed && auctionId < |t.auctions| && r.outcome.Pass? {
      var a := t.auctions[auctionId];
      if a.leader.None? {
        CloseWithoutLeaderKeepsEscrow(t.users, t.auctions, auctionId);
      } else {
        assert WellFormed(a, |t.users|);
        CloseKeepsEscrow(t.users, t.auctions, auctionId);
      }
      forall j | 0 <= j < |r.after.settlements|
        ensures r.after.settlements[j].auctionId < |r.after.auctions|
        ensures r.after.auctions[r.after.settlements[j].auctionId].status == Closed
      {
        if j < |t.settlements| {
          assert r.after.settlements[j] == t.settlements[j];
        }
      }
    }
  }

  /** An accepted bid keeps the service invariant: the escrow part by
      `BidKeepsEscrow`, and the settlements part because a bid changes no
      auction's status. */
  lemma BidKeepsSound(t: Tables, auctionId: AuctionId, bidderId: UserId, amount: int, now: int, bidId: nat,
                      events: seq<DomainEvent>)
    requires Sound(t) && CheckBid(t.users, t.auctions, auctionId, bidderId, amount, now).None?
    ensures auctionId < |t.auctions| && bidderId < |t.users|
    ensures Sound(Tables(BidLedger(t.users, t.auctions[auctionId], bidderId, amount),
                         t.auctions[auctionId := Outbid(t.auctions[auctionId], bidderId, amount, bidId)],
                         t.settlements, events))
  {
    BidKeepsEscrow(t.users, t.auctions, auctionId, bidderId, amount, now, bidId);
  }

  class AuctionService {
    const userRepo: UserRepository
    var auctions: seq<Auction>
    var bids: seq<Bid>
    var settlements: seq<Settlement>
    /** Everything published to the application's event listeners. */
    var events: seq<DomainEvent>

    constructor(userRepo: UserRepository)
      ensures this.userRepo == userRepo
      ensures auctions == [] && bids == [] && settlements == [] && events == []
    {
      this.userRepo := userRepo;
      auctions := [];
      bids := [];
      settlements := [];
      events := [];
    }

    /** The tables `closeAuction` works on. */
    function Snapshot(): Tables
      reads this, userRepo
    {
      Tables(userRepo.rows, auctions, settlements, events)
    }

    /** The service invariant over this service's tables and the shared user table. */
    ghost predicate Balanced()
      reads this, userRepo
    {
      Sound(Snapshot())
    }

    /** `createAuction`: the first failing check in the source's order, or a
        new SCHEDULED auction at its start price with no leader. */
    method CreateAuction(req: CreateAuctionRequest) returns (r: Result<AuctionResponse, string>)
      modifies this
      ensures CheckCreate(userRepo.rows, req).Some? ==>
                r == Failure(CheckCreate(userRepo.rows, req).value) && auctions == old(auctions)
      ensures CheckCreate(userRepo.rows, req).None? ==>
                && auctions == old(auctions) + [NewAuction(req)]
                && r == Success(AuctionModel.MapToResponse(|old(auctions)|, NewAuction(req)))
      ensures bids == old(bids) && settlements == old(settlements) && events == old(events)
      ensures old(Balanced()) ==> Balanced()
    {
      if req.startPrice <= 0 {
        return Failure("Start price must be greater than 0");
      }
      if req.sellerId >= |userRepo.rows| {
        return Failure("Seller not found");
      }
      if req.startTime > req.endTime {
        return Failure("Start time must be before end time");
      }
      var auction := NewAuction(req);
      var id := |auctions|;
      if old(Balanced()) {
        CreateKeepsEscrow(userRepo.rows, auctions, req);
      }
      auctions := auctions + [auction];
      r := Success(AuctionModel.MapToResponse(id, auction));
    }

    /** `getAuction`: the view of auction `id`, or "Auction not found". */
    function GetAuction(id: AuctionId): (r: Result<AuctionResponse, string>)
      reads this
      ensures r.Failure? <==> id >= |auctions|
      ensures r.Failure? ==> r.error == "Auction not found"
      ensures r.Success? ==> r.value == AuctionModel.MapToResponse(id, auctions[id])
    {
      if id < |auctions| then Success(AuctionModel.MapToResponse(id, auctions[id])) else Failure("Auction not found")
    }

    /** `getAuctionsByBidder` over this service's tables. */
    function GetAuctionsByBidder(bidderId: UserId): (r: seq<AuctionResponse>)
      reads this
      ensures forall k :: 0 <= k < |r| ==> r[k].id < |auctions| && HasBidOn(bids, bidderId, r[k].id)
      ensures forall id :: 0 <= id < |auctions| && HasBidOn(bids, bidderId, id) ==>
                             AuctionModel.MapToResponse(id, auctions[id]) in r
    {
      var r := AuctionsByBidder(bids, auctions, bidderId);
      assert forall id :: 0 <= id < |auctions| && HasBidOn(bids, bidderId, id) ==>
                            AuctionModel.MapToResponse(id, auctions[id]) in r by {
        forall id | 0 <= id < |auctions| && HasBidOn(bids, bidderId, id)
          ensures AuctionModel.MapToResponse(id, auctions[id]) in r
        {
          AuctionsByBidderSpec(bids, auctions, bidderId, AuctionModel.MapToResponse(id, auctions[id]));
        }
      }
      r
    }

    /** `convertToLive`, corrected: a SCHEDULED auction starts now and keeps
        its duration; any other auction is refused and left alone. The
        source's version, which restarts auctions of any status, is
        `AuctionModel.Launch`. */
    method ConvertToLive(auctionId: AuctionId, now: int) returns (r: Outcome<string>)
      modifies this
      ensures auctionId >= |old(auctions)| ==> r == Fail("Auction not found") && auctions == old(auctions)
      ensures auctionId < |old(auctions)| && old(auctions)[auctionId].status != Scheduled ==>
                r == Fail("Auction is not scheduled") && auctions == old(auctions)
      ensures auctionId < |old(auctions)| && old(auctions)[auctionId].status == Scheduled ==>
                r == Pass && auctions == old(auctions)[auctionId := Launch(old(auctions)[auctionId], now)]
      ensures bids == old(bids) && settlements == old(settlements) && events == old(events)
      ensures old(Balanced()) ==> Balanced()
    {
      if auctionId >= |auctions| {
        return Fail("Auction not found");
      }
      var auction := auctions[auctionId];
      if auction.status != Scheduled {
        return Fail("Auction is not scheduled");
      }
      var duration := auction.endTime - auction.startTime;
      auction := auction.(startTime := now, endTime := now + duration, status := Live);
      if old(Balanced()) {
        LaunchScheduledKeepsEscrow(userRepo.rows, auctions, auctionId, now);
      }
      auctions := auctions[auctionId := auction];
      r := Pass;
    }

    /** `placeBid`: a rejected bid changes nothing; an accepted one reserves
        the amount from the bidder, refunds the previous leader, records the
        bid, raises the price and publishes its events. Money is conserved
        and the service invariant is kept either way. */
    method PlaceBid(auctionId: AuctionId, bidderId: UserId, amount: int, now: int) returns (r: Outcome<BidError>)
      modifies this, userRepo
      ensures var check := CheckBid(old(userRepo.rows), old(auctions), auctionId, bidderId, amount, now);
              check.Some? ==>
                && r == Fail(check.value)
                && userRepo.rows == old(userRepo.rows) && auctions == old(auctions)
                && bids == old(bids) && events == old(events)
      ensures var check := CheckBid(old(userRepo.rows), old(auctions), auctionId, bidderId, amount, now);
              check.None? ==>
                && r == Pass
                && auctionId < |old(auctions)| && bidderId < |old(userRepo.rows)|
                && var a := old(auctions)[auctionId];
                   && userRepo.rows == BidLedger(old(userRepo.rows), a, bidderId, amount)
                   && auctions == old(auctions)[auctionId := Outbid(a, bidderId, amount, |old(bids)|)]
                   && bids == old(bids) + [Bid(auctionId, bidderId, amount, now)]
                   && events == old(events) + BidEvents(old(userRepo.rows), a, auctionId, bidderId, amount)
      ensures settlements == old(settlements)
      ensures Total(userRepo.rows) == Total(old(userRepo.rows))
      ensures r.Pass? ==> auctions[auctionId].currentPrice >= MinimumBid(old(auctions)[auctionId].currentPrice)
      ensures old(Balanced()) ==> Balanced()
    {
      ghost var t0 := Snapshot();
      ghost var bidId := |bids|;
      r := CheckAndApplyBid(auctionId, bidderId, amount, now);
      if r.Pass? {
        AcceptedBidRaisesPrice(t0.users, t0.auctions, auctionId, bidderId, amount, now, bidId);
        BidConservesFunds(t0.users, t0.auctions[auctionId], bidderId, amount);
        if Sound(t0) {
          BidKeepsSound(t0, auctionId, bidderId, amount, now, bidId, events);
        }
      }
    }

    /** The body of `placeBid`: the checks in the source's order, then the
        bidder's reservation, the previous leader's refund, the bid row, the
        new price and leader, and the events, in the source's order. */
    method CheckAndApplyBid(auctionId: AuctionId, bidderId: UserId, amount: int, now: int) returns (r: Outcome<BidError>)
      modifies this, userRepo
      ensures var check := CheckBid(old(userRepo.rows), old(auctions), auctionId, bidderId, amount, now);
              check.Some? ==>
                && r == Fail(check.value)
                && userRepo.rows == old(userRepo.rows) && auctions == old(auctions)
                && bids == old(bids) && events == old(events)
      ensures var check := CheckBid(old(userRepo.rows), old(auctions), auctionId, bidderId, amount, now);
              check.None? ==>
                && r == Pass
                && auctionId < |old(auctions)| && bidderId < |old(userRepo.rows)|
                && var a := old(auctions)[auctionId];
                   && userRepo.rows == BidLedger(old(userRepo.rows), a, bidderId, amount)
                   && auctions == old(auctions)[auctionId := Outbid(a, bidderId, amount, |old(bids)|)]
                   && bids == old(bids) + [Bid(auctionId, bidderId, amount, now)]
                   && events == old(events) + BidEvents(old(userRepo.rows), a, auctionId, bidderId, amount)
      ensures settlements == old(settlements)
    {
      ghost var t0 := Snapshot();
      if auctionId >= |auctions| {
        r := Fail(AuctionNotFound);
      } else if bidderId >= |userRepo.rows| {
        r := Fail(BidderNotFound);
      } else {
        var auction := auctions[auctionId];
        var bidder := userRepo.rows[bidderId];
        var minIncrement := Max(auction.currentPrice / 20, 100);
        var minBid := auction.currentPrice + minIncrement;
        if auction.status != Live {
          r := Fail(NotLive);
        } else if now > auction.endTime {
          r := Fail(Ended);
        } else if amount <= auction.currentPrice {
          r := Fail(NotHigherThanCurrent(auction.currentPrice));
        } else if amount < minBid {
          r := Fail(BelowMinimum(minBid));
        } else if bidder.available < amount {
          r := Fail(InsufficientFunds);
        } else if auction.leader.Some? && auction.leader.value >= |userRepo.rows| {
          // The source looks the previous leader up after debiting the
          // bidder; a missing one rolls everything back, so it is refused
          // here first.
          r := Fail(LeaderMissing);
        } else {
          var previousLeaderId := auction.leader;
          bidder := bidder.(available := bidder.available - amount, reserved := bidder.reserved + amount);
          userRepo.rows := userRepo.rows[bidderId := bidder];
          events := events + [BalanceChanged(bidderId, bidder.available, bidder.reserved)];
          assert userRepo.rows == ReserveFor(t0.users, bidderId, amount);

          if previousLeaderId.Some? {
            var p := previousLeaderId.value;
            var prevLeader := userRepo.rows[p];
            var refundAmount := auction.currentPrice;
            prevLeader := prevLeader.(reserved := prevLeader.reserved - refundAmount,
                                      available := prevLeader.available + refundAmount);
            userRepo.rows := userRepo.rows[p := prevLeader];
            events := events + [BalanceChanged(p, prevLeader.available, prevLeader.reserved)];
          }

          var bidId := |bids|;
          bids := bids + [Bid(auctionId, bidderId, amount, now)];

          auction := auction.(currentPrice := amount, leader := Some(bidderId), leaderBidId := Some(bidId));
          auctions := auctions[auctionId := auction];

          events := events + [BidPlaced(auctionId, amount, bidderId, previousLeaderId)];
          r := Pass;

        }
      }
    }

    /** `closeAuction`. `claimed` is the outcome of the repository's
        conditional update that moves the auction to CLOSING; when it
        claims nothing the call does nothing. An auction without a leader
        is closed with no money moved and no event; otherwise the winner's
        reserve pays the seller, one settlement is recorded and one closed
        event is published, unless the auction already has a settlement: the
        unique `auction_id` column then fails the commit and nothing changes. */
    method CloseAuction(auctionId: AuctionId, claimed: bool, now: int) returns (r: Outcome<string>)
      modifies this, userRepo
      ensures Step(r, Snapshot()) == Close(old(Snapshot()), auctionId, claimed, now)
      ensures !claimed ==>
                && r == Pass && userRepo.rows == old(userRepo.rows) && auctions == old(auctions)
                && settlements == old(settlements) && events == old(events)
      ensures claimed && auctionId >= |old(auctions)| ==>
                && r == Fail("Auction not found") && userRepo.rows == old(userRepo.rows)
                && auctions == old(auctions) && settlements == old(settlements) && events == old(events)
      ensures claimed && auctionId < |old(auctions)| && old(auctions)[auctionId].leader.None? ==>
                && r == Pass && userRepo.rows == old(userRepo.rows)
                && auctions == old(auctions)[auctionId := old(auctions)[auctionId].(status := Closed)]
                && settlements == old(settlements) && events == old(events)
      ensures claimed && auctionId < |old(auctions)| && old(auctions)[auctionId].leader.Some? ==>
                var a := old(auctions)[auctionId];
                var w := a.leader.value;
                var users := old(userRepo.rows);
                var refusal := if w >= |users| then Some("Winner not found")
                               else if a.sellerId >= |users| then Some("Seller not found")
                               else if users[w].reserved < a.currentPrice then Some("Winner has insufficient funds")
                               else if Settled(old(settlements), auctionId) then Some("Duplicate settlement")
                               else None;
                && (refusal.Some? ==>
                      && r == Fail(refusal.value) && userRepo.rows == users && auctions == old(auctions)
                      && settlements == old(settlements) && events == old(events))
                && (refusal.None? ==>
                      && w < |users| && a.sellerId < |users|
                      && r == Pass
                      && userRepo.rows == CloseLedger(users, w, a.sellerId, a.currentPrice)
                      && auctions == old(auctions)[auctionId := a.(status := Closed)]
                      && settlements == old(settlements) + [Settlement(auctionId, w, a.sellerId, a.currentPrice, now)]
                      && events == old(events) + [AuctionClosed(auctionId, Some(w), a.currentPrice)])
      ensures bids == old(bids)
      ensures |auctions| == |old(auctions)|
      ensures forall i :: 0 <= i < |auctions| && i != auctionId ==> auctions[i] == old(auctions)[i]
      ensures old(settlements) <= settlements
      ensures OneSettlementEach(old(settlements)) ==> OneSettlementEach(settlements)
      ensures r.Pass? && claimed && auctionId < |auctions| ==> auctions[auctionId].status == Closed
      ensures Total(userRepo.rows) == Total(old(userRepo.rows))
      ensures (old(Balanced()) && claimed && auctionId < |old(auctions)|
               && (old(auctions)[auctionId].status == Live || old(auctions)[auctionId].status == Closing)) ==> r == Pass
      ensures old(Balanced()) && !(claimed && auctionId < |old(auctions)| && old(auctions)[auctionId].status == Closed) ==>
                Balanced()
    {
      ghost var t0 := Snapshot();
      r := ClaimAndSettle(auctionId, claimed, now);
      CloseConservesTotal(t0, auctionId, claimed, now);
      if OneSettlementEach(t0.settlements) {
        CloseKeepsOneSettlementEach(t0, auctionId, claimed, now);
      }
      if Sound(t0) && !(claimed && auctionId < |t0.auctions| && t0.auctions[auctionId].status == Closed) {
        CloseKeepsBalance(t0, auctionId, claimed, now);
      }
      if Sound(t0) && claimed && auctionId < |t0.auctions|
         && (t0.auctions[auctionId].status == Live || t0.auctions[auctionId].status == Closing) {
        CloseOpenAuction(t0, auctionId, now);
      }
    }

    /** The body of `closeAuction`: the checks in the source's order, then
        the winner's payment, the seller's credit, the settlement row, the
        CLOSED status and the closed event. */
    method ClaimAndSettle(auctionId: AuctionId, claimed: bool, now: int) returns (r: Outcome<string>)
      modifies this, userRepo
      ensures Step(r, Snapshot()) == Close(old(Snapshot()), auctionId, claimed, now)
      ensures bids == old(bids)
    {
      if !claimed {
        r := Pass;
      } else if auctionId >= |auctions| {
        r := Fail("Auction not found");
      } else {
        var auction := auctions[auctionId];
        if auction.leader.None? {
          auction := auction.(status := Closed);
          auctions := auctions[auctionId := auction];
          r := Pass;
        } else {
          var winnerId := auction.leader.value;
          if winnerId >= |userRepo.rows| {
            r := Fail("Winner not found");
          } else if auction.sellerId >= |userRepo.rows| {
            r := Fail("Seller not found");
          } else {
            var winner := userRepo.rows[winnerId];
            var closingPrice := auction.currentPrice;
            if winner.reserved < closingPrice {
              r := Fail("Winner has insufficient funds");
            } else if Settled(settlements, auctionId) {
              // The second row violates the unique `auction_id` column when
              // the transaction commits, which rolls the whole call back.
              r := Fail("Duplicate settlement");
            } else {
              winner := winner.(reserved := winner.reserved - closingPrice);
              userRepo.rows := userRepo.rows[winnerId := winner];

              var seller := userRepo.rows[auction.sellerId];
              seller := seller.(available := seller.available + closingPrice);
              userRepo.rows := userRepo.rows[auction.sellerId := seller];

              settlements := settlements + [Settlement(auctionId, winnerId, auction.sellerId, closingPrice, now)];

              auction := auction.(status := Closed);
              auctions := auctions[auctionId := auction];

              events := events + [AuctionClosed(auctionId, Some(winnerId), closingPrice)];
              r := Pass;
            }
          }
        }
      }
    }
  }
}
