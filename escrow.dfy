/** The escrow invariant of the ledger: every user's reserved balance is
    exactly the sum of the current prices of the open auctions that user
    leads. Placing a bid, settling, creating, starting a scheduled auction
    and registering users all keep it; it is what makes the refund of an
    outbid leader and the payment of a winner always covered. */
module Ledger {
  import opened Wrappers
  import opened Users
  import opened AuctionModel

  /** The part of `u`'s reserve that auction `a` holds. */
  function Held(a: Auction, u: UserId): int {
    if (a.status == Live || a.status == Closing) && a.leader == Some(u) then a.currentPrice else 0
  }

  /** Everything the auctions of the table hold in `u`'s reserve. */
  function Escrowed(auctions: seq<Auction>, u: UserId): int {
    if auctions == [] then 0 else Escrowed(auctions[..|auctions| - 1], u) + Held(auctions[|auctions| - 1], u)
  }

  lemma {:induction false} EscrowedUpdate(auctions: seq<Auction>, i: nat, a: Auction, u: UserId)
    requires i < |auctions|
    ensures Escrowed(auctions[i := a], u) == Escrowed(auctions, u) - Held(auctions[i], u) + Held(a, u)
    decreases |auctions|
  {
    var last := |auctions| - 1;
    if i < last {
      assert auctions[i := a][..last] == auctions[..last][i := a];
      EscrowedUpdate(auctions[..last], i, a, u);
    } else {
      assert auctions[i := a][..last] == auctions[..last];
    }
  }

  lemma EscrowedAppend(auctions: seq<Auction>, a: Auction, u: UserId)
    ensures Escrowed(auctions + [a], u) == Escrowed(auctions, u) + Held(a, u)
  {
    assert (auctions + [a])[..|auctions|] == auctions;
  }

  /** An auction that holds nothing for `u` anywhere in the table. */
  lemma {:induction false} EscrowedNone(auctions: seq<Auction>, u: UserId)
    requires forall i :: 0 <= i < |auctions| ==> auctions[i].leader != Some(u)
    ensures Escrowed(auctions, u) == 0
    decreases |auctions|
  {
    if auctions != [] {
      EscrowedNone(auctions[..|auctions| - 1], u);
    }
  }

  /** With positive prices, the whole escrow of `u` covers what any single
      auction holds for `u`. */
  lemma {:induction false} EscrowedCoversHeld(auctions: seq<Auction>, i: nat, u: UserId)
    requires forall j :: 0 <= j < |auctions| ==> auctions[j].currentPrice > 0
    requires i < |auctions|
    ensures Escrowed(auctions, u) >= Held(auctions[i], u) >= 0
    decreases |auctions|
  {
    var last := |auctions| - 1;
    EscrowedNonNegative(auctions[..last], u);
    if i < last {
      EscrowedCoversHeld(auctions[..last], i, u);
    }
  }

  lemma {:induction false} EscrowedNonNegative(auctions: seq<Auction>, u: UserId)
    requires forall j :: 0 <= j < |auctions| ==> auctions[j].currentPrice > 0
    ensures Escrowed(auctions, u) >= 0
    decreases |auctions|
  {
    if auctions != [] {
      EscrowedNonNegative(auctions[..|auctions| - 1], u);
    }
  }

  /** The shape every stored auction keeps: its seller and leader exist, its
      price is positive, and a scheduled auction has no leader. */
  predicate WellFormed(a: Auction, userCount: nat) {
    && a.sellerId < userCount
    && a.currentPrice > 0
    && (a.leader.Some? ==> a.leader.value < userCount)
    && (a.status == Scheduled ==> a.leader.None?)
  }

  ghost predicate Escrow(users: seq<User>, auctions: seq<Auction>) {
    && (forall i :: 0 <= i < |auctions| ==> WellFormed(auctions[i], |users|))
    && (forall u :: 0 <= u < |users| ==> users[u].reserved == Escrowed(auctions, u))
  }

  /** The empty ledger satisfies the invariant. */
  lemma EmptyEscrow(users: seq<User>)
    requires forall u :: 0 <= u < |users| ==> users[u].reserved == 0
    ensures Escrow(users, [])
  {
  }

  /** Under the invariant no reserve is ever negative. */
  lemma EscrowReservesNonNegative(users: seq<User>, auctions: seq<Auction>, u: UserId)
    requires Escrow(users, auctions)
    requires u < |users|
    ensures users[u].reserved >= 0
  {
    EscrowedNonNegative(auctions, u);
  }

  /** Under the invariant the leader of an open auction always has the
      current price in reserve: neither the refund of an outbid leader nor
      the winner's payment at settlement can overdraw a reserve, and the
      "insufficient funds" failure of settlement cannot happen. */
  lemma EscrowCoversLeader(users: seq<User>, auctions: seq<Auction>, i: nat)
    requires Escrow(users, auctions)
    requires i < |auctions|
    requires auctions[i].status == Live || auctions[i].status == Closing
    requires auctions[i].leader.Some?
    ensures auctions[i].leader.value < |users|
    ensures users[auctions[i].leader.value].reserved >= auctions[i].currentPrice
  {
    assert WellFormed(auctions[i], |users|);
    EscrowedCoversHeld(auctions, i, auctions[i].leader.value);
  }

  /** An accepted bid keeps the invariant. */
  lemma BidKeepsEscrow(users: seq<User>, auctions: seq<Auction>, auctionId: AuctionId,
                       bidderId: UserId, amount: int, now: int, bidId: nat)
    requires Escrow(users, auctions)
    requires CheckBid(users, auctions, auctionId, bidderId, amount, now).None?
    ensures auctionId < |auctions| && bidderId < |users|
    ensures Escrow(BidLedger(users, auctions[auctionId], bidderId, amount),
                   auctions[auctionId := Outbid(auctions[auctionId], bidderId, amount, bidId)])
  {
    AcceptedBidIff(users, auctions, auctionId, bidderId, amount, now);
    var a := auctions[auctionId];
    var a' := Outbid(a, bidderId, amount, bidId);
    var users' := BidLedger(users, a, bidderId, amount);
    var auctions' := auctions[auctionId := a'];
    assert WellFormed(a, |users|);
    forall i | 0 <= i < |auctions'| ensures WellFormed(auctions'[i], |users'|) {
      if i != auctionId {
        assert auctions'[i] == auctions[i];
        assert WellFormed(auctions[i], |users|);
      }
    }
    forall u | 0 <= u < |users'| ensures users'[u].reserved == Escrowed(auctions', u) {
      EscrowedUpdate(auctions, auctionId, a', u);
      BidLedgerEffect(users, a, bidderId, amount, u);
    }
  }

  /** Settling an open auction with a leader keeps the invariant. */
  lemma CloseKeepsEscrow(users: seq<User>, auctions: seq<Auction>, i: nat)
    requires Escrow(users, auctions)
    requires i < |auctions|
    requires auctions[i].status == Live || auctions[i].status == Closing
    requires auctions[i].leader.Some?
    ensures auctions[i].leader.value < |users| && auctions[i].sellerId < |users|
    ensures Escrow(CloseLedger(users, auctions[i].leader.value, auctions[i].sellerId, auctions[i].currentPrice),
                   auctions[i := auctions[i].(status := Closed)])
  {
    var a := auctions[i];
    assert WellFormed(a, |users|);
    var w := a.leader.value;
    var a' := a.(status := Closed);
    var users' := CloseLedger(users, w, a.sellerId, a.currentPrice);
    var auctions' := auctions[i := a'];
    forall j | 0 <= j < |auctions'| ensures WellFormed(auctions'[j], |users'|) {
      if j != i {
        assert auctions'[j] == auctions[j];
        assert WellFormed(auctions[j], |users|);
      }
    }
    forall u | 0 <= u < |users'| ensures users'[u].reserved == Escrowed(auctions', u) {
      EscrowedUpdate(auctions, i, a', u);
      CloseLedgerEffect(users, w, a.sellerId, a.currentPrice, u);
    }
  }

  /** Closing an auction without a leader moves no money and keeps the invariant. */
  lemma CloseWithoutLeaderKeepsEscrow(users: seq<User>, auctions: seq<Auction>, i: nat)
    requires Escrow(users, auctions)
    requires i < |auctions|
    requires auctions[i].leader.None?
    ensures Escrow(users, auctions[i := auctions[i].(status := Closed)])
  {
    var a' := auctions[i].(status := Closed);
    var auctions' := auctions[i := a'];
    forall j | 0 <= j < |auctions'| ensures WellFormed(auctions'[j], |users|) {
      assert WellFormed(auctions[j], |users|);
    }
    forall u | 0 <= u < |users| ensures users[u].reserved == Escrowed(auctions', u) {
      EscrowedUpdate(auctions, i, a', u);
    }
  }

  /** Creating an auction keeps the invariant. */
  lemma CreateKeepsEscrow(users: seq<User>, auctions: seq<Auction>, req: CreateAuctionRequest)
    requires Escrow(users, auctions)
    requires CheckCreate(users, req).None?
    ensures Escrow(users, auctions + [NewAuction(req)])
  {
    var auctions' := auctions + [NewAuction(req)];
    forall j | 0 <= j < |auctions'| ensures WellFormed(auctions'[j], |users|) {
      if j < |auctions| {
        assert auctions'[j] == auctions[j];
      }
    }
    forall u | 0 <= u < |users| ensures users[u].reserved == Escrowed(auctions', u) {
      EscrowedAppend(auctions, NewAuction(req), u);
    }
  }

  /** Starting a scheduled auction keeps the invariant: it has no leader,
      so it holds nothing before or after. */
  lemma LaunchScheduledKeepsEscrow(users: seq<User>, auctions: seq<Auction>, i: nat, now: int)
    requires Escrow(users, auctions)
    requires i < |auctions| && auctions[i].status == Scheduled
    ensures Escrow(users, auctions[i := Launch(auctions[i], now)])
  {
    var a' := Launch(auctions[i], now);
    var auctions' := auctions[i := a'];
    assert WellFormed(auctions[i], |users|);
    forall j | 0 <= j < |auctions'| ensures WellFormed(auctions'[j], |users|) {
      assert WellFormed(auctions[j], |users|);
    }
    forall u | 0 <= u < |users| ensures users[u].reserved == Escrowed(auctions', u) {
      EscrowedUpdate(auctions, i, a', u);
    }
  }

  /** Registering an account with an empty reserve keeps the invariant. */
  lemma NewAccountKeepsEscrow(users: seq<User>, auctions: seq<Auction>, u: User)
    requires Escrow(users, auctions)
    requires u.reserved == 0
    ensures Escrow(users + [u], auctions)
  {
    var users' := users + [u];
    forall j | 0 <= j < |auctions| ensures WellFormed(auctions[j], |users'|) {
      assert WellFormed(auctions[j], |users|);
    }
    forall j | 0 <= j < |auctions| ensures auctions[j].leader != Some(|users|) {
      assert WellFormed(auctions[j], |users|);
    }
    EscrowedNone(auctions, |users|);
    forall v | 0 <= v < |users'| ensures users'[v].reserved == Escrowed(auctions, v) {
      if v < |users| {
        assert users'[v] == users[v];
      }
    }
  }

  /** Changing an account's profile without touching its reserve keeps the invariant. */
  lemma ProfileUpdateKeepsEscrow(users: seq<User>, auctions: seq<Auction>, i: nat, u: User)
    requires Escrow(users, auctions)
    requires i < |users| && u.reserved == users[i].reserved
    ensures Escrow(users[i := u], auctions)
  {
  }

  // ---------------------------------------------------------------------
  // convertToLive as written

  /** `convertToLive` as written makes any auction LIVE again, a CLOSED one
      included. A closed auction keeps its leader, whose reserve already
      paid the seller; once it is live again the next accepted bid refunds
      that leader the closing price a second time, out of a reserve that no
      longer holds it. Concretely: a seller, a winner who paid 1000 cents and
      a third user; relaunching the closed auction breaks the invariant, and
      a 1100-cent bid by the third user is then accepted and leaves the old
      winner's reserve at -1000. */
  lemma RelaunchingClosedAuctionBreaksEscrow()
    ensures var users := [User("seller", None, None, 1000, 0),
                          User("winner", None, None, 99000, 0),
                          User("bidder", None, None, 100000, 0)];
            var closed := Auction(0, "lamp", "", 500, 1000, Closed, 0, 10, Some(1), Some(0));
            var relaunched := Launch(closed, 20);
            && Escrow(users, [closed])
            && !Escrow(users, [relaunched])
            && CheckBid(users, [relaunched], 0, 2, 1100, 25).None?
            && BidLedger(users, relaunched, 2, 1100)[1].reserved == -1000
  {
    var users := [User("seller", None, None, 1000, 0),
                  User("winner", None, None, 99000, 0),
                  User("bidder", None, None, 100000, 0)];
    var closed := Auction(0, "lamp", "", 500, 1000, Closed, 0, 10, Some(1), Some(0));
    var relaunched := Launch(closed, 20);
    assert Escrowed([closed], 1) == 0 by {
      assert [closed][..0] == [];
    }
    assert Escrowed([relaunched], 1) == 1000 by {
      assert [relaunched][..0] == [];
    }
    forall u | 0 <= u < 3 ensures Escrowed([closed], u) == 0 {
      assert [closed][..0] == [];
    }
  }
}
