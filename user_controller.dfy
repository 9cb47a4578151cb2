/** `UserController`'s settlement views: a user's sales and purchases, each
    settlement shown with the auction's title and the other party's email.
    A settlement's id is its position in the settlement table; the
    repository's listing order is modelled as table order. */
module UserApi {
  import opened Wrappers
  import opened Users
  import opened AuctionModel

  datatype SettlementResponse = SettlementResponse(
    id: nat,
    auctionId: AuctionId,
    auctionTitle: string,
    counterpartyId: UserId,
    counterpartyEmail: string,
    amount: int,
    createdAt: int)

  /** `mapToSettlementResponse`: settlement `id` seen from one side, with
      `counterparty` as the other side; a missing auction shows as
      "Unknown Auction" and a missing counterparty as "Unknown". */
  function MapToSettlementResponse(auctions: seq<Auction>, users: seq<User>, id: nat, s: Settlement,
                                   counterparty: UserId): (r: SettlementResponse)
    ensures r.id == id && r.auctionId == s.auctionId && r.amount == s.amount && r.createdAt == s.createdAt
    ensures r.counterpartyId == counterparty
    ensures r.auctionTitle == (if s.auctionId < |auctions| then auctions[s.auctionId].title else "Unknown Auction")
    ensures r.counterpartyEmail == (if counterparty < |users| then users[counterparty].email else "Unknown")
  {
    var title := if s.auctionId < |auctions| then auctions[s.auctionId].title else "Unknown Auction";
    var email := if counterparty < |users| then users[counterparty].email else "Unknown";
    SettlementResponse(id, s.auctionId, title, counterparty, email, s.amount, s.createdAt)
  }

  /** Which side of a settlement the user is on. */
  datatype Side = AsSeller | AsWinner

  predicate OnSide(s: Settlement, u: UserId, side: Side) {
    match side
    case AsSeller => s.sellerId == u
    case AsWinner => s.winnerId == u
  }

  /** The other party: the winner of a sale, the seller of a purchase. */
  function Counterparty(s: Settlement, side: Side): UserId {
    match side
    case AsSeller => s.winnerId
    case AsWinner => s.sellerId
  }

  /** Settlement `i` seen by the user on `side`. */
  function ViewOf(settlements: seq<Settlement>, auctions: seq<Auction>, users: seq<User>, side: Side, i: nat): (r: SettlementResponse)
    requires i < |settlements|
    ensures r.id == i
  {
    MapToSettlementResponse(auctions, users, i, settlements[i], Counterparty(settlements[i], side))
  }

  /** The positions, among the first `n` settlements, of those in which
      `u` is on `side`, in table order. */
  function SettlementIds(settlements: seq<Settlement>, u: UserId, side: Side, n: nat): (r: seq<nat>)
    requires n <= |settlements|
    ensures forall k :: 0 <= k < |r| ==> r[k] < n && OnSide(settlements[r[k]], u, side)
    ensures forall k, l :: 0 <= k < l < |r| ==> r[k] < r[l]
    ensures forall i :: 0 <= i < n && OnSide(settlements[i], u, side) ==> i in r
  {
    if n == 0 then []
    else
      var prefix := SettlementIds(settlements, u, side, n - 1);
      if OnSide(settlements[n - 1], u, side) then prefix + [n - 1] else prefix
  }

  /** The views of the settlements in which `u` is on `side`, in table order. */
  function SettlementsOf(settlements: seq<Settlement>, auctions: seq<Auction>, users: seq<User>,
                         u: UserId, side: Side): (r: seq<SettlementResponse>)
    ensures var ids := SettlementIds(settlements, u, side, |settlements|);
            |r| == |ids| && forall k :: 0 <= k < |r| ==> r[k] == ViewOf(settlements, auctions, users, side, ids[k])
  {
    var ids := SettlementIds(settlements, u, side, |settlements|);
    seq(|ids|, k requires 0 <= k < |ids| => ViewOf(settlements, auctions, users, side, ids[k]))
  }

  /** `getUserSales`: one view per settlement the user sold in, in table order, with the winner as counterparty. */
  function Sales(settlements: seq<Settlement>, auctions: seq<Auction>, users: seq<User>, u: UserId): seq<SettlementResponse> {
    SettlementsOf(settlements, auctions, users, u, AsSeller)
  }

  /** `getUserPurchases`: one view per settlement the user won, in table order, with the seller as counterparty. */
  function Purchases(settlements: seq<Settlement>, auctions: seq<Auction>, users: seq<User>, u: UserId): seq<SettlementResponse> {
    SettlementsOf(settlements, auctions, users, u, AsWinner)
  }

  /** Sales list exactly the user's sales, each once, in table order, each
      seen with the winner as the other party. */
  lemma SalesSpec(settlements: seq<Settlement>, auctions: seq<Auction>, users: seq<User>, u: UserId, i: nat)
    ensures i < |settlements| && settlements[i].sellerId == u <==>
              exists k :: 0 <= k < |Sales(settlements, auctions, users, u)| && Sales(settlements, auctions, users, u)[k].id == i
    ensures var r := Sales(settlements, auctions, users, u);
            forall k, l :: 0 <= k < l < |r| ==> r[k].id < r[l].id
    ensures var r := Sales(settlements, auctions, users, u);
            forall k :: 0 <= k < |r| ==>
              && r[k].counterpartyId == settlements[r[k].id].winnerId
              && r[k].amount == settlements[r[k].id].amount
              && r[k].auctionId == settlements[r[k].id].auctionId
  {
    ListedExactly(settlements, auctions, users, u, AsSeller, i);
    var r := Sales(settlements, auctions, users, u);
    assert r == SettlementsOf(settlements, auctions, users, u, AsSeller);
    if i < |settlements| && settlements[i].sellerId == u {
      assert OnSide(settlements[i], u, AsSeller);
      var k :| 0 <= k < |r| && r[k].id == i;
    }
  }

  /** Purchases list exactly the user's wins, each once, in table order,
      each seen with the seller as the other party. */
  lemma PurchasesSpec(settlements: seq<Settlement>, auctions: seq<Auction>, users: seq<User>, u: UserId, i: nat)
    ensures i < |settlements| && settlements[i].winnerId == u <==>
              exists k :: 0 <= k < |Purchases(settlements, auctions, users, u)| && Purchases(settlements, auctions, users, u)[k].id == i
    ensures var r := Purchases(settlements, auctions, users, u);
            forall k, l :: 0 <= k < l < |r| ==> r[k].id < r[l].id
    ensures var r := Purchases(settlements, auctions, users, u);
            forall k :: 0 <= k < |r| ==>
              && r[k].counterpartyId == settlements[r[k].id].sellerId
              && r[k].amount == settlements[r[k].id].amount
              && r[k].auctionId == settlements[r[k].id].auctionId
  {
    ListedExactly(settlements, auctions, users, u, AsWinner, i);
    var r := Purchases(settlements, auctions, users, u);
    assert r == SettlementsOf(settlements, auctions, users, u, AsWinner);
    if i < |settlements| && settlements[i].winnerId == u {
      assert OnSide(settlements[i], u, AsWinner);
      var k :| 0 <= k < |r| && r[k].id == i;
    }
  }

  /** Either listing, aligned with its ids: settlement `i` is listed if and
      only if the user is on `side`. */
  lemma ListedExactly(settlements: seq<Settlement>, auctions: seq<Auction>, users: seq<User>, u: UserId, side: Side, i: nat)
    ensures var r := SettlementsOf(settlements, auctions, users, u, side);
            && (i < |settlements| && OnSide(settlements[i], u, side) <==> exists k :: 0 <= k < |r| && r[k].id == i)
            && (forall k, l :: 0 <= k < l < |r| ==> r[k].id < r[l].id)
            && (forall k :: 0 <= k < |r| ==> r[k] == ViewOf(settlements, auctions, users, side, r[k].id))
  {
    var r := SettlementsOf(settlements, auctions, users, u, side);
    var ids := SettlementIds(settlements, u, side, |settlements|);
    assert forall k :: 0 <= k < |r| ==> r[k].id == ids[k];
    if i < |settlements| && OnSide(settlements[i], u, side) {
      var k :| 0 <= k < |ids| && ids[k] == i;
      assert r[k].id == i;
    }
  }
}
