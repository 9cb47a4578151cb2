/** `AuctionClosingScheduler`: every run attempts to close each auction the
    expired-live query returned, one after another, and a failure of one
    attempt is caught so the rest are still attempted. */
module Scheduling {
  import opened Wrappers
  import opened Users
  import opened AuctionModel
  import opened Ledger
  import opened AuctionEngine

  /** One `closeAuction` attempt and how it ended; a `Fail` is the caught
      exception the source logs. */
  datatype Attempt = Attempt(auctionId: AuctionId, outcome: Outcome<string>)

  predicate Distinct(ids: seq<AuctionId>) {
    forall k, l :: 0 <= k < l < |ids| ==> ids[k] != ids[l]
  }

  /** The attempts and the tables after closing `expired` in order. */
  datatype Run = Run(attempts: seq<Attempt>, after: Tables)

  /** One run of the scheduler on values: every listed auction gets its
      own `closeAuction` call on the tables the earlier calls left behind,
      whatever those calls returned. */
  function CloseAll(t: Tables, expired: seq<AuctionId>, claims: seq<bool>, now: int): (r: Run)
    requires |claims| == |expired|
    ensures |r.attempts| == |expired|
    ensures forall k :: 0 <= k < |expired| ==> r.attempts[k].auctionId == expired[k]
    ensures |r.after.auctions| == |t.auctions|
    ensures forall i :: 0 <= i < |t.auctions| && i !in expired ==> r.after.auctions[i] == t.auctions[i]
    ensures t.settlements <= r.after.settlements
    decreases |expired|
  {
    if expired == [] then Run([], t)
    else
      var n := |expired| - 1;
      var prev := CloseAll(t, expired[..n], claims[..n], now);
      var step := Close(prev.after, expired[n], claims[n], now);
      Run(prev.attempts + [Attempt(expired[n], step.outcome)], step.after)
  }

  /** Extending the list by one more auction runs one more `closeAuction`
      on the tables the shorter run left. */
  lemma CloseAllSnoc(t: Tables, expired: seq<AuctionId>, claims: seq<bool>, now: int, i: nat)
    requires |claims| == |expired| && i < |expired|
    ensures var prev := CloseAll(t, expired[..i], claims[..i], now);
            var step := Close(prev.after, expired[i], claims[i], now);
            CloseAll(t, expired[..i + 1], claims[..i + 1], now)
              == Run(prev.attempts + [Attempt(expired[i], step.outcome)], step.after)
  {
    assert expired[..i + 1][..i] == expired[..i] && claims[..i + 1][..i] == claims[..i];
  }

  /** A run moves money between accounts and creates none. */
  lemma {:induction false} RunConservesTotal(t: Tables, expired: seq<AuctionId>, claims: seq<bool>, now: int)
    requires |claims| == |expired|
    ensures Total(CloseAll(t, expired, claims, now).after.users) == Total(t.users)
    decreases |expired|
  {
    if expired != [] {
      var n := |expired| - 1;
      var prev := CloseAll(t, expired[..n], claims[..n], now);
      RunConservesTotal(t, expired[..n], claims[..n], now);
      CloseConservesTotal(prev.after, expired[n], claims[n], now);
    }
  }

  /** A run never settles an auction twice, whatever the claims say. */
  lemma {:induction false} RunKeepsOneSettlementEach(t: Tables, expired: seq<AuctionId>, claims: seq<bool>, now: int)
    requires |claims| == |expired| && OneSettlementEach(t.settlements)
    ensures OneSettlementEach(CloseAll(t, expired, claims, now).after.settlements)
    decreases |expired|
  {
    if expired != [] {
      var n := |expired| - 1;
      var prev := CloseAll(t, expired[..n], claims[..n], now);
      RunKeepsOneSettlementEach(t, expired[..n], claims[..n], now);
      CloseKeepsOneSettlementEach(prev.after, expired[n], claims[n], now);
    }
  }

  /** A failure does not stop the run: the `k`-th attempt is `closeAuction`
      on the tables left by the first `k` attempts, whatever they returned. */
  lemma {:induction false} EveryAttemptRuns(t: Tables, expired: seq<AuctionId>, claims: seq<bool>, now: int, k: nat)
    requires |claims| == |expired| && k < |expired|
    ensures CloseAll(t, expired, claims, now).attempts[k].outcome
            == Close(CloseAll(t, expired[..k], claims[..k], now).after, expired[k], claims[k], now).outcome
    decreases |expired|
  {
    var n := |expired| - 1;
    var prev := CloseAll(t, expired[..n], claims[..n], now);
    var last := Close(prev.after, expired[n], claims[n], now);
    assert CloseAll(t, expired, claims, now).attempts == prev.attempts + [Attempt(expired[n], last.outcome)];
    if k < n {
      EveryAttemptRuns(t, expired[..n], claims[..n], now, k);
      assert expired[..n][..k] == expired[..k];
      assert claims[..n][..k] == claims[..k];
      assert expired[..n][k] == expired[k] && claims[..n][k] == claims[k];
      assert (prev.attempts + [Attempt(expired[n], last.outcome)])[k] == prev.attempts[k];
    }
  }

  /** For distinct ids, each auction's fate is its own attempt's: a failed
      attempt leaves its auction as it was, whatever the others did, and a
      claimed existing auction whose attempt passed ends CLOSED. */
  lemma {:induction false} EachAuctionItsOwnFate(t: Tables, expired: seq<AuctionId>, claims: seq<bool>, now: int)
    requires |claims| == |expired| && Distinct(expired)
    ensures var r := CloseAll(t, expired, claims, now);
            forall k :: 0 <= k < |expired| && expired[k] < |t.auctions| ==>
              && (r.attempts[k].outcome.Fail? ==> r.after.auctions[expired[k]] == t.auctions[expired[k]])
              && (r.attempts[k].outcome.Pass? && claims[k] ==> r.after.auctions[expired[k]].status == Closed)
    decreases |expired|
  {
    if expired != [] {
      var n := |expired| - 1;
      var prev := CloseAll(t, expired[..n], claims[..n], now);
      var step := Close(prev.after, expired[n], claims[n], now);
      var r := CloseAll(t, expired, claims, now);
      assert r.attempts == prev.attempts + [Attempt(expired[n], step.outcome)] && r.after == step.after;
      EachAuctionItsOwnFate(t, expired[..n], claims[..n], now);
      forall k | 0 <= k < |expired| && expired[k] < |t.auctions|
        ensures r.attempts[k].outcome.Fail? ==> r.after.auctions[expired[k]] == t.auctions[expired[k]]
        ensures r.attempts[k].outcome.Pass? && claims[k] ==> r.after.auctions[expired[k]].status == Closed
      {
        if k < n {
          assert r.attempts[k] == prev.attempts[k];
          assert expired[..n][k] == expired[k] && claims[..n][k] == claims[k];
          assert expired[k] != expired[n];
        } else {
          assert expired[n] !in expired[..n];
          assert prev.after.auctions[expired[n]] == t.auctions[expired[n]];
        }
      }
    }
  }

  /** For distinct open auctions under the service invariant every attempt
      passes and the invariant still holds after the run. */
  lemma {:induction false} OpenRunSucceeds(t: Tables, expired: seq<AuctionId>, claims: seq<bool>, now: int)
    requires |claims| == |expired| && Distinct(expired) && Sound(t)
    requires forall k :: 0 <= k < |expired| ==>
               expired[k] < |t.auctions| && (t.auctions[expired[k]].status == Live || t.auctions[expired[k]].status == Closing)
    ensures Sound(CloseAll(t, expired, claims, now).after)
    ensures forall k :: 0 <= k < |expired| ==> CloseAll(t, expired, claims, now).attempts[k].outcome == Pass
    decreases |expired|
  {
    if expired != [] {
      var n := |expired| - 1;
      var prev := CloseAll(t, expired[..n], claims[..n], now);
      var r := CloseAll(t, expired, claims, now);
      assert forall k :: 0 <= k < n ==> expired[..n][k] == expired[k];
      OpenRunSucceeds(t, expired[..n], claims[..n], now);
      assert expired[n] !in expired[..n];
      assert prev.after.auctions[expired[n]] == t.auctions[expired[n]];
      if claims[n] {
        CloseOpenAuction(prev.after, expired[n], now);
      }
      assert r.attempts == prev.attempts + [Attempt(expired[n], Close(prev.after, expired[n], claims[n], now).outcome)];
    }
  }

  class AuctionClosingScheduler {
    const service: AuctionService

    constructor(service: AuctionService)
      ensures this.service == service
    {
      this.service := service;
    }

    /** `closeExpiredAuctions`. `expired` is what the expired-live query
        returned at `now`, and `claims[k]` is what the conditional CLOSING
        update reports when the `k`-th of them is attempted. Every listed
        auction is attempted exactly once, in order, whatever happened to
        the earlier ones; nothing outside the listed auctions changes, no
        money is created or destroyed, and for distinct open auctions under
        the service invariant every attempt succeeds, every claimed auction
        ends CLOSED and the invariant still holds. */
    method CloseExpiredAuctions(expired: seq<AuctionId>, claims: seq<bool>, now: int) returns (attempts: seq<Attempt>)
      requires |claims| == |expired|
      modifies service, service.userRepo
      ensures Run(attempts, service.Snapshot()) == CloseAll(old(service.Snapshot()), expired, claims, now)
      ensures Distinct(expired) ==>
                forall k :: 0 <= k < |expired| && expired[k] < |service.auctions| ==>
                  && (attempts[k].outcome.Fail? ==> service.auctions[expired[k]] == old(service.auctions)[expired[k]])
                  && (attempts[k].outcome == Pass && claims[k] ==> service.auctions[expired[k]].status == Closed)
      ensures |attempts| == |expired|
      ensures forall k :: 0 <= k < |expired| ==> attempts[k].auctionId == expired[k]
      ensures service.bids == old(service.bids)
      ensures Total(service.userRepo.rows) == Total(old(service.userRepo.rows))
      ensures |service.auctions| == |old(service.auctions)|
      ensures forall i :: 0 <= i < |service.auctions| && i !in expired ==>
                            service.auctions[i] == old(service.auctions)[i]
      ensures old(service.settlements) <= service.settlements
      ensures OneSettlementEach(old(service.settlements)) ==> OneSettlementEach(service.settlements)
      ensures old(service.Balanced()) && Distinct(expired)
              && (forall k :: 0 <= k < |expired| ==>
                    expired[k] < |old(service.auctions)|
                    && (old(service.auctions)[expired[k]].status == Live
                        || old(service.auctions)[expired[k]].status == Closing)) ==>
                && service.Balanced()
                && (forall k :: 0 <= k < |expired| ==> attempts[k].outcome == Pass)
                && (forall k :: 0 <= k < |expired| && claims[k] ==> service.auctions[expired[k]].status == Closed)
    {
      ghost var t0 := service.Snapshot();
      assert t0.auctions == service.auctions && t0.users == service.userRepo.rows && t0.settlements == service.settlements;
      attempts := [];
      var i := 0;
      while i < |expired|
        invariant 0 <= i <= |expired|
        invariant Run(attempts, service.Snapshot()) == CloseAll(t0, expired[..i], claims[..i], now)
        invariant service.bids == old(service.bids)
      {
        CloseAllSnoc(t0, expired, claims, now, i);
        var id := expired[i];
        var outcome := service.CloseAuction(id, claims[i], now);
        attempts := attempts + [Attempt(id, outcome)];
        i := i + 1;
      }
      assert expired[..i] == expired && claims[..i] == claims;
      ghost var run := CloseAll(t0, expired, claims, now);
      assert attempts == run.attempts;
      assert service.auctions == run.after.auctions && service.userRepo.rows == run.after.users;
      assert service.settlements == run.after.settlements;
      RunConservesTotal(t0, expired, claims, now);
      if OneSettlementEach(t0.settlements) {
        RunKeepsOneSettlementEach(t0, expired, claims, now);
      }
      if Distinct(expired) {
        EachAuctionItsOwnFate(t0, expired, claims, now);
      }
      if old(service.Balanced()) && Distinct(expired)
         && (forall k :: 0 <= k < |expired| ==>
               expired[k] < |old(service.auctions)|
               && (old(service.auctions)[expired[k]].status == Live
                   || old(service.auctions)[expired[k]].status == Closing)) {
        OpenRunSucceeds(t0, expired, claims, now);
      }
    }
  }
}
