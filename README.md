# LiveBid, modelled in Dafny

LiveBid is a real-time auction site. A Spring backend keeps user accounts
with an escrow ledger in integer cents. Each account has an `available`
balance, which may be bid, and a `reserved` balance, held for the auctions
the user currently leads. Sellers create auctions and start them.
Bidders place bids that reserve the bid and refund the previous leader.
A scheduler closes expired auctions, paying the seller out of the winner's
reserve. Every change is pushed to browsers over STOMP topics and turned
into per-user notifications. Sign-in goes through Google; a JWT is issued.
The TypeScript UI routes pushed messages and shows countdowns, a
notification menu and the signed-in user.

This project models that core and proves its properties:

- `wrappers.dfy`: `Option`, `Result` and `Outcome` (pass or fail with an error).
- `text.dfy`: the decimal rendering of ids and prices, and its inverse.
- `users.dfy`: the user table and `UserService`.
- `auction_model.dfy`: auctions, the bid rules, the ledger movements of a
  bid and of a settlement, auction creation and start, and the read-only
  projections.
- `escrow.dfy` (module `Ledger`): the escrow invariant. Every user's
  reserve equals the sum of the current prices of the open (LIVE or
  CLOSING) auctions they lead. Each operation preserves it.
- `auction_service.dfy`: `AuctionService` as a class over the auction, bid
  and settlement tables and the shared user table. Its invariant (`Sound`)
  is the escrow invariant plus two facts about the settlements table: each
  auction has at most one settlement, as the table's unique `auction_id`
  column demands, and only a CLOSED auction has one.
- `scheduler.dfy`: `AuctionClosingScheduler`.
- `notifications.dfy`: `NotificationService`.
- `event_listener.dfy`: `AuctionEventListener`, with its sends and cache
  writes recorded in an effect log.
- `jwt.dfy`, `auth.dfy`: `JwtService` and `AuthController.googleAuth`.
- `user_controller.dfy`, `auction_controller.dfy`: the settlement views and
  the status filter of the auction listing.
- `images.dfy`: the upload key and its file-name sanitiser.
- `socket.dfy`, `auction_card.dfy`, `notification_bell.dfy`,
  `user_context.dfy`: the UI's socket client, countdown and start button,
  notification menu, and session state.

## How state and failure are modelled

- Ids are positions in their table, so "not found" means the id is past
  the end of the table.
- A service call that throws returns `Fail` or `Failure` and changes
  nothing. This is the rollback the call's transaction guarantees.
- Clocks, the random UUID, the answers of remote services and the outcome
  of the repository's conditional CLOSING update are parameters.

## Model

| member | source | states |
|---|---|---|
| Users.FindByEmail | src/main/java/com/livebid/user/service/UserService.java:23-25 | A found id holds the email. No result means no account has that email. |
| Users.FindByGoogleId | src/main/java/com/livebid/auth/controller/AuthController.java:50-53 | A found id is linked to the subject. No result means no account is linked to it. |
| Users.FindByEmailUnique | src/main/java/com/livebid/user/service/UserService.java:23-25 | Under unique emails, the lookup finds the one account with that email. |
| Users.NewUser | src/main/java/com/livebid/user/service/UserService.java:27-30 | A new account has the email, no Google link and no name. It starts with 100000 available and 0 reserved. |
| Users.MapToResponse | src/main/java/com/livebid/user/service/UserService.java:44-49 | The response copies the id, email and both balances unchanged. |
| Users.CreateKeepsUniqueKeys | src/main/java/com/livebid/user/service/UserService.java:23-32 | Registering an email that is not yet taken keeps emails and Google subjects unique. |
| Users.UserService.CreateUser | src/main/java/com/livebid/user/service/UserService.java:22-34 | A taken email fails with "Email already exists" and adds no account. Otherwise exactly one new account is appended and returned. Unique keys are preserved. |
| Users.UserService.GetUser | src/main/java/com/livebid/user/service/UserService.java:37-41 | Fails with "User not found" exactly when the id is unknown. Otherwise returns the account's response. |
| AuctionModel.MinimumBidIsRaise | src/main/java/com/livebid/auction/service/AuctionService.java:169-175 | The minimum bid is at least price + 100. The raise is at least 5% of the price, up to rounding. The raise is exactly 100 or exactly 5% rounded down. |
| AuctionModel.MinimumBidExamples | src/main/java/com/livebid/auction/service/AuctionService.java:170-171 | A price of 1000 needs 1100. A price of 100000 needs 105000. |
| AuctionModel.AcceptedBidIff | src/main/java/com/livebid/auction/service/AuctionService.java:151-179 | A bid is accepted if and only if all of these hold: the auction and bidder exist; the auction is LIVE and not past its end; the amount reaches the minimum bid; the bidder has that much available; any previous leader exists. The "higher than current" check is subsumed by the minimum. |
| AuctionModel.Reserve | src/main/java/com/livebid/auction/service/AuctionService.java:184-185 | Moving an amount into reserve keeps the account's funds. |
| AuctionModel.Release | src/main/java/com/livebid/auction/service/AuctionService.java:194-196 | Refunding a reserve to available keeps the account's funds. |
| AuctionModel.BidConservesFunds | src/main/java/com/livebid/auction/service/AuctionService.java:184-196 | An accepted bid leaves the table's total of available + reserved unchanged. This holds also when the bidder already leads. |
| AuctionModel.BidLedgerEffect | src/main/java/com/livebid/auction/service/AuctionService.java:184-196 | For every account: the bidder's available drops by the amount and its reserve rises by it. The previous leader gets the old price back from reserve into available. Both apply when the bidder is the previous leader. Nothing else changes. |
| AuctionModel.AcceptedBidRaisesPrice | src/main/java/com/livebid/auction/service/AuctionService.java:165-211 | After an accepted bid, the price rises by at least the minimum increment and the bidder leads. The status and end time are kept. |
| AuctionModel.Pay | src/main/java/com/livebid/auction/service/AuctionService.java:246 | The winner's funds drop by the price. |
| AuctionModel.Credit | src/main/java/com/livebid/auction/service/AuctionService.java:249 | The seller's funds rise by the price. |
| AuctionModel.CloseLedgerEffect | src/main/java/com/livebid/auction/service/AuctionService.java:241-250 | The price moves from the winner's reserve to the seller's available balance. Every other balance stays. |
| AuctionModel.CloseConservesFunds | src/main/java/com/livebid/auction/service/AuctionService.java:246-250 | Settlement leaves the table's total unchanged. |
| AuctionModel.BidScenario | src/test/java/com/livebid/service/AuctionServiceUnitTest.java:68-98 | A bid of 200 at price 100 is accepted and takes the bidder from 1000/0 to 800/200. The price becomes 200 and the bidder leads. A bid of 1500 is refused for funds. |
| AuctionModel.SettlementScenario | src/test/java/com/livebid/service/AuctionServiceUnitTest.java:100-126 | Closing at 500 takes the winner's reserve from 500 to 0 and the seller's available from 0 to 500. |
| AuctionModel.NewAuction | src/main/java/com/livebid/auction/service/AuctionService.java:54-64 | A new auction is SCHEDULED at its start price with no leader. It keeps the request's seller and times. |
| AuctionModel.CheckCreate | src/main/java/com/livebid/auction/service/AuctionService.java:44-52 | Creation passes if and only if the start price is positive, the seller exists and the start is not after the end. Failures report the source's message, checked in the source's order. |
| AuctionModel.Launch | src/main/java/com/livebid/auction/service/AuctionService.java:134-146 | As written, the start becomes now, the duration is kept and the status becomes LIVE, whatever it was. Nothing else changes. |
| AuctionModel.MapToResponse | src/main/java/com/livebid/auction/service/AuctionService.java:119-131 | The response copies every field of the auction, with the id. |
| AuctionModel.BidOnAmong | src/main/java/com/livebid/auction/service/AuctionService.java:92-103 | It lists exactly the auctions the bidder has bid on, in id order, each as its response. |
| AuctionModel.AuctionsByBidderSpec | src/main/java/com/livebid/auction/service/AuctionService.java:92-103 | A response is listed if and only if it is the view of an existing auction the bidder bid on. No auction is listed twice. |
| AuctionModel.SearchPlan | src/main/java/com/livebid/auction/service/AuctionService.java:106-116 | A null or blank query never searches by text. The status filters if and only if it is given. A text search uses the query as given. |
| Ledger.EmptyEscrow | src/main/java/com/livebid/user/service/UserService.java:27-32 | With no auctions and no reserves the invariant holds. |
| Ledger.EscrowReservesNonNegative | src/main/java/com/livebid/auction/service/AuctionService.java:184-196 | Under the invariant no reserve is negative. |
| Ledger.EscrowCoversLeader | src/main/java/com/livebid/auction/service/AuctionService.java:241-244 | Under the invariant, the leader of an open auction exists and its reserve covers the current price. So "Winner has insufficient funds" cannot happen. |
| Ledger.BidKeepsEscrow | src/main/java/com/livebid/auction/service/AuctionService.java:184-211 | An accepted bid keeps the invariant. |
| Ledger.CloseKeepsEscrow | src/main/java/com/livebid/auction/service/AuctionService.java:241-257 | Settling an open auction that has a leader keeps the invariant. |
| Ledger.CloseWithoutLeaderKeepsEscrow | src/main/java/com/livebid/auction/service/AuctionService.java:229-233 | Closing an auction without a leader keeps the invariant. |
| Ledger.CreateKeepsEscrow | src/main/java/com/livebid/auction/service/AuctionService.java:54-66 | Creating an auction keeps the invariant. |
| Ledger.LaunchScheduledKeepsEscrow | src/main/java/com/livebid/auction/service/AuctionService.java:134-146 | Starting a SCHEDULED auction keeps the invariant. |
| Ledger.NewAccountKeepsEscrow | src/main/java/com/livebid/user/service/UserService.java:27-32 | Adding an account with an empty reserve keeps the invariant. |
| Ledger.ProfileUpdateKeepsEscrow | src/main/java/com/livebid/auth/controller/AuthController.java:53-67 | Changing an account without touching its reserve keeps the invariant. |
| Ledger.RelaunchingClosedAuctionBreaksEscrow | src/main/java/com/livebid/auction/service/AuctionService.java:134-146 | The as-written start, applied to a CLOSED and settled auction, breaks the invariant. A bid then accepted refunds a reserve the leader no longer holds, so the reserve ends at -1000. |
| AuctionEngine.AuctionService.CreateAuction | src/main/java/com/livebid/auction/service/AuctionService.java:43-68 | Fails with the first failing check and adds nothing. Otherwise appends the new auction and returns its response. The invariant is kept. |
| AuctionEngine.AuctionService.GetAuction | src/main/java/com/livebid/auction/service/AuctionService.java:78-82 | Fails with "Auction not found" exactly when the id is unknown. Otherwise returns the auction's response. |
| AuctionEngine.AuctionService.GetAuctionsByBidder | src/main/java/com/livebid/auction/service/AuctionService.java:92-103 | It lists only auctions the bidder has bid on, and every such auction is listed. |
| AuctionEngine.AuctionService.ConvertToLive | src/main/java/com/livebid/auction/service/AuctionService.java:134-146 | Corrected version. An unknown id fails. A status other than SCHEDULED fails and changes nothing. A SCHEDULED auction becomes `Launch` of itself. The invariant is kept. |
| AuctionEngine.AuctionService.CheckAndApplyBid | src/main/java/com/livebid/auction/service/AuctionService.java:149-216 | The body of the bid. A rejected bid returns the first failing check and changes nothing. An accepted bid sets the table to the bid's ledger, makes the bidder lead at the new price, appends the bid and publishes the three events in the source's order. |
| AuctionEngine.AuctionService.PlaceBid | src/main/java/com/livebid/auction/service/AuctionService.java:149-216 | A rejected bid returns its reason and changes nothing. An accepted bid does all of these: sets the table to the bid's ledger, makes the bidder lead at the new price, appends the bid, and publishes the bidder's balance, the refunded leader's balance and the bid. The total is conserved. The price reaches the minimum bid. The invariant is kept. |
| AuctionEngine.AuctionService.CloseAuction | src/main/java/com/livebid/auction/service/AuctionService.java:219-260 | An unclaimed auction is a no-op. With no leader, the auction is CLOSED, no money moves and no event is published. Otherwise the checks run in the source's order, followed by the unique settlement key: an auction that already has a settlement fails and nothing changes. On success it settles, records one settlement, sets CLOSED and publishes one event. The total is conserved and no auction gets a second settlement. Under the invariant an open auction always closes successfully and the invariant is kept. |
| AuctionEngine.AuctionService.ClaimAndSettle | src/main/java/com/livebid/auction/service/AuctionService.java:219-260 | The body of the close. Its outcome and the tables it leaves are exactly `Close`'s. |
| AuctionEngine.Close | src/main/java/com/livebid/auction/service/AuctionService.java:219-260 | On values: a failure leaves every table as it was. Only the named auction can change, and a claimed existing auction that passes ends CLOSED. An unclaimed call passes with no change. An auction that already has a settlement gets no second one, and no money moves for it. |
| AuctionEngine.SecondCloseRefused | src/main/java/com/livebid/auction/model/AuctionSettlement.java:21 | A claimed auction that is already settled, whose winner could pay again, fails with every table unchanged. |
| AuctionEngine.CloseKeepsOneSettlementEach | src/main/java/com/livebid/auction/model/AuctionSettlement.java:21 | Closing keeps the settlements' auction ids distinct, as the unique column requires. |
| AuctionEngine.BidKeepsSound | src/main/java/com/livebid/auction/service/AuctionService.java:184-211 | An accepted bid keeps the service invariant. |
| AuctionEngine.CloseConservesTotal | src/main/java/com/livebid/auction/service/AuctionService.java:241-250 | Closing moves money between accounts and creates none: the user total is the same after the call. |
| AuctionEngine.CloseKeepsBalance | src/main/java/com/livebid/auction/service/AuctionService.java:229-257 | Closing any auction that was not already CLOSED keeps the service invariant, whatever the outcome. |
| AuctionEngine.CloseOpenAuction | src/main/java/com/livebid/auction/service/AuctionService.java:229-257 | Under the service invariant, a claimed LIVE or CLOSING auction always closes successfully and the invariant still holds. Such an auction has no settlement yet, so the unique key never refuses it. |
| Scheduling.CloseAll | src/main/java/com/livebid/infrastructure/scheduler/AuctionClosingScheduler.java:23-34 | One attempt per listed auction, in order. Unlisted auctions are untouched and settlements only grow. |
| Scheduling.RunConservesTotal | src/main/java/com/livebid/infrastructure/scheduler/AuctionClosingScheduler.java:23-34 | A whole run moves money between accounts and creates none: the user total is the same after the run. |
| Scheduling.RunKeepsOneSettlementEach | src/main/java/com/livebid/infrastructure/scheduler/AuctionClosingScheduler.java:23-34 | A whole run never settles an auction twice, whatever the claims say. |
| Scheduling.EveryAttemptRuns | src/main/java/com/livebid/infrastructure/scheduler/AuctionClosingScheduler.java:26-32 | A failure does not stop the run. The k-th attempt is a close call on the tables left by the first k attempts, whatever they returned. |
| Scheduling.EachAuctionItsOwnFate | src/main/java/com/livebid/infrastructure/scheduler/AuctionClosingScheduler.java:26-32 | For distinct ids, an auction whose attempt failed ends the run exactly as it started, whatever the other attempts did. A claimed auction whose attempt passed ends CLOSED. |
| Scheduling.OpenRunSucceeds | src/main/java/com/livebid/infrastructure/scheduler/AuctionClosingScheduler.java:23-34 | For distinct open auctions under the service invariant, every attempt passes and the invariant holds after the run. |
| Scheduling.AuctionClosingScheduler.CloseExpiredAuctions | src/main/java/com/livebid/infrastructure/scheduler/AuctionClosingScheduler.java:23-34 | The loop's attempts and final tables are exactly `CloseAll`'s: each listed auction gets its own close call, in order, whatever the earlier ones returned. For distinct ids, a failed attempt leaves its auction unchanged and a claimed auction that passed is CLOSED. Unlisted auctions and bids are untouched, the total is conserved and no auction is settled twice. For distinct open auctions under the invariant, every attempt passes, claimed ones end CLOSED and the invariant is kept. |
| Notifications.CountUnreadIsSize | src/main/java/com/livebid/notification/service/NotificationService.java:41-43 | The unread count is the number of the user's notifications that are unread. |
| Notifications.CountUnreadZeroIff | src/main/java/com/livebid/notification/service/NotificationService.java:41-43 | The count is zero if and only if all of the user's notifications are read. |
| Notifications.MarkReadCount | src/main/java/com/livebid/notification/service/NotificationService.java:46-51 | Marking one notification read lowers its owner's count by one if it was unread. No other count changes. |
| Notifications.MarkReadIdempotent | src/main/java/com/livebid/notification/service/NotificationService.java:46-51 | Marking the same notification twice equals marking it once. |
| Notifications.MarkAllReadSpec | src/main/java/com/livebid/notification/service/NotificationService.java:54-58 | After marking all, the user has zero unread. Other users' notifications and counts are unchanged. Marking all again changes nothing. |
| Notifications.SortNewest | src/main/java/com/livebid/notification/service/NotificationService.java:36-38 | The result is a permutation of its input, ordered newest first. |
| Notifications.ListForSpec | src/main/java/com/livebid/notification/service/NotificationService.java:36-38 | The listing holds exactly the user's notifications, each once, newest first. |
| Notifications.NotificationService.CreateNotification | src/main/java/com/livebid/notification/service/NotificationService.java:25-33 | It stores exactly one unread notification and publishes exactly one event carrying it. |
| Notifications.NotificationService.GetNotifications | src/main/java/com/livebid/notification/service/NotificationService.java:36-38 | An entry is listed if and only if it is one of the user's. The list is newest first. |
| Notifications.NotificationService.GetUnreadCount | src/main/java/com/livebid/notification/service/NotificationService.java:41-43 | The result is the size of the user's unread set. It is zero if and only if all are read. |
| Notifications.NotificationService.MarkAsRead | src/main/java/com/livebid/notification/service/NotificationService.java:46-51 | An unknown id changes nothing. A known id gets only its read flag set. |
| Notifications.NotificationService.MarkAllAsRead | src/main/java/com/livebid/notification/service/NotificationService.java:54-58 | The loop marks every notification of the user read and leaves the rest as they were. |
| EventRouting.TopicNameInjective | src/main/java/com/livebid/auction/event/AuctionEventListener.java:36-108 | Distinct destinations have distinct topic names. An auction topic, a user topic and a user's notification topic never coincide. |
| EventRouting.PriceKeyInjective | src/main/java/com/livebid/auction/event/AuctionEventListener.java:41 | Distinct auctions cache their prices under distinct keys. |
| EventRouting.FindAuction | src/main/java/com/livebid/auction/event/AuctionEventListener.java:45 | Finds the auction if and only if the id exists. |
| EventRouting.OutbidNotices | src/main/java/com/livebid/auction/event/AuctionEventListener.java:44-54 | There is one OUTBID notice if and only if a previous leader exists, differs from the new leader and the auction is found. It goes to that leader with the new price. |
| EventRouting.ClosedNotices | src/main/java/com/livebid/auction/event/AuctionEventListener.java:63-93 | No notices when the auction is missing. AUCTION_WON goes to the winner if and only if there is one. SALE_COMPLETE goes to the seller last. The "no bids" text is used if and only if there is no winner. |
| EventRouting.AuctionEventListener.HandleBidPlaced | src/main/java/com/livebid/auction/event/AuctionEventListener.java:36-56 | It sends on the auction topic, then caches the price, then stores the outbid notices. It publishes exactly one creation event per notice, in order, each carrying the entry just stored. |
| EventRouting.AuctionEventListener.HandleAuctionClosed | src/main/java/com/livebid/auction/event/AuctionEventListener.java:59-94 | It always sends on the auction topic, then stores the closed notices. It publishes exactly one creation event per notice, in order, each carrying the entry just stored. |
| EventRouting.AuctionEventListener.HandleUserBalanceChanged | src/main/java/com/livebid/auction/event/AuctionEventListener.java:97-100 | It sends the event on the user's topic. |
| EventRouting.AuctionEventListener.HandleNotificationCreated | src/main/java/com/livebid/auction/event/AuctionEventListener.java:103-108 | It sends the notification on its owner's notification topic. |
| Jwt.Int32 | src/main/java/com/livebid/infrastructure/security/JwtService.java:18 | Java `int` arithmetic wraps into 32 bits and leaves in-range values alone. |
| Jwt.ExpirationIsSevenDays | src/main/java/com/livebid/infrastructure/security/JwtService.java:18 | The `int` product does not overflow. The lifetime is 604800000 ms. |
| Jwt.PadSecret | src/main/java/com/livebid/infrastructure/security/JwtService.java:22 | A secret of 32 or more characters is kept. A shorter one is right-padded with '0' to exactly 32. The secret is always a prefix of the result, which has length at least 32. |
| Jwt.PadSecretIdempotent | src/main/java/com/livebid/infrastructure/security/JwtService.java:22 | Padding twice equals padding once. |
| Jwt.JwtService.GenerateToken | src/main/java/com/livebid/infrastructure/security/JwtService.java:26-34 | The subject is the user id, the email claim is set, the token is issued now, it expires 7 days later, and it is signed with the service's key. |
| Jwt.IsTokenValid | src/main/java/com/livebid/infrastructure/security/JwtService.java:45-52 | True if and only if verification succeeded. A failure gives false, never an error. |
| Auth.CastField | src/main/java/com/livebid/auth/controller/AuthController.java:41-43 | A missing key or JSON null reads as null. A non-string fails. A string is read as is. |
| Auth.ReadInfo | src/main/java/com/livebid/auth/controller/AuthController.java:37-47 | "Invalid Google token" is returned if and only if there is no userinfo or it has an "error" key. Success if and only if sub and email are strings and name is a string or absent. A success carries exactly those values. |
| Auth.NewGoogleUser | src/main/java/com/livebid/auth/controller/AuthController.java:69-76 | A new account is linked to the subject with the email and name. It starts with 100000 available and 0 reserved. |
| Auth.ResolveAccountSpec | src/main/java/com/livebid/auth/controller/AuthController.java:49-78 | The account is linked to the subject. An account is added if and only if neither the subject nor the email is known. A subject match keeps its name unless a non-null name arrives. An email match takes the name as given. Balances, emails and other accounts are untouched. |
| Auth.ResolveKeepsUniqueKeys | src/main/java/com/livebid/auth/controller/AuthController.java:49-78 | Sign-in keeps emails and Google subjects unique. |
| Auth.ResolveKeepsEscrow | src/main/java/com/livebid/auth/controller/AuthController.java:49-78 | Sign-in keeps the escrow invariant. |
| Auth.ToAuthUser | src/main/java/com/livebid/auth/controller/AuthController.java:82-89 | A null name is sent as "". The id, email and balances are echoed unchanged. |
| Auth.AuthController.GoogleAuth | src/main/java/com/livebid/auth/controller/AuthController.java:28-93 | A bad request returns its error and changes no account. Otherwise the table becomes the resolved one and the response carries the token and user for the resolved account. Unique keys are preserved. |
| UserApi.MapToSettlementResponse | src/main/java/com/livebid/user/controller/UserController.java:78-90 | It copies the settlement's id, auction, amount and time. A missing auction shows "Unknown Auction" and a missing counterparty shows "Unknown". |
| UserApi.SettlementIds | src/main/java/com/livebid/user/controller/UserController.java:64-76 | It lists, in increasing order, exactly the settlements in which the user is on the given side. |
| UserApi.ListedExactly | src/main/java/com/livebid/user/controller/UserController.java:64-76 | Settlement i is in the user's listing if and only if the user is on the given side. The listing is in table order and each entry is that settlement's view.
| UserApi.SalesSpec | src/main/java/com/livebid/user/controller/UserController.java:64-69 | Settlement i is listed if and only if the user sold in it. It is listed once, in order, with the winner as counterparty. |
| UserApi.PurchasesSpec | src/main/java/com/livebid/user/controller/UserController.java:71-76 | Settlement i is listed if and only if the user won it. It is listed once, in order, with the seller as counterparty. |
| AuctionApi.ValueOf | src/main/java/com/livebid/auction/controller/AuctionController.java:36 | Returns the status whose name is exactly the text, or none if no status has that name. |
| AuctionApi.ParseStatus | src/main/java/com/livebid/auction/controller/AuctionController.java:33-40 | A null or blank value gives no filter. A value whose upper case names a status selects that status. Anything else gives no filter and no error. |
| AuctionApi.ParseStatusIgnoresCase | src/main/java/com/livebid/auction/controller/AuctionController.java:36 | Each status is selected by its name and by its lower-case spelling. |
| AuctionApi.AuctionController.GetAllAuctions | src/main/java/com/livebid/auction/controller/AuctionController.java:30-42 | It runs the search for the parsed status. An absent or unknown status never filters. |
| AuctionApi.AuctionController.StartAuction | src/main/java/com/livebid/auction/controller/AuctionController.java:44-48 | Corrected version: it delegates to the corrected start. A SCHEDULED auction passes and goes live. Anything else fails and changes nothing. |
| Images.ReplaceDisallowed | src/main/java/com/livebid/image/controller/ImageController.java:45 | Each character outside [A-Za-z0-9._-] becomes one '_'. The others stay in place. |
| Images.SanitizeFilename | src/main/java/com/livebid/image/controller/ImageController.java:40-47 | A null or empty name gives "image.jpg". Otherwise the name keeps its length and each character is mapped as above. |
| Images.SanitizedIsAllowed | src/main/java/com/livebid/image/controller/ImageController.java:45-46 | The result is non-empty and every character is allowed. |
| Images.SanitizeIdempotent | src/main/java/com/livebid/image/controller/ImageController.java:45-46 | Sanitising twice equals sanitising once. |
| Images.SanitizeKeepsAllowed | src/main/java/com/livebid/image/controller/ImageController.java:45 | A non-empty name made of allowed characters is kept unchanged. |
| Images.ObjectKeyHasTwoSlashes | src/main/java/com/livebid/image/controller/ImageController.java:27 | Whatever the file name, the key has exactly two '/'. |
| Images.ObjectKeySuffix | src/main/java/com/livebid/image/controller/ImageController.java:27 | The key is "auctions/", the UUID and '/', followed by the sanitised name. |
| Socket.HasKey | livebid-ui/src/lib/socket.ts:34-36 | `in` throws on a primitive. On an object it tests its keys. On an array it finds only "length" or digit keys. |
| Socket.Route | livebid-ui/src/lib/socket.ts:28-42 | A parse failure or a primitive is caught and logged. The bid callback fires if and only if both bid fields are present. The close callback fires if and only if the bid shape is absent and both close fields are present. Anything else is dropped. |
| Socket.BidShapeWins | livebid-ui/src/lib/socket.ts:34-37 | A payload with all four fields goes to the bid callback only. |
| Socket.PublishedEventsRoute | livebid-ui/src/lib/socket.ts:34-37 | The server's bid event reaches the bid callback. Its closed event reaches the close callback, even with a null winner. A balance event is dropped. |
| Socket.StompErrorText | livebid-ui/src/lib/socket.ts:47-50 | The error text is the message header, or "Unknown STOMP error" when that header is missing or empty. |
| Socket.AuctionConnection.ConnectToAuction | livebid-ui/src/lib/socket.ts:11-59 | The new client is active on the auction's topic, not yet subscribed, with no callbacks called. |
| Socket.AuctionConnection.OnConnect | livebid-ui/src/lib/socket.ts:24-45 | Every connect subscribes to the same auction topic, then calls `onConnect` if one was given. |
| Socket.AuctionConnection.OnMessage | livebid-ui/src/lib/socket.ts:28-42 | At most one callback fires, as `Route` decides. The connection state is unchanged. |
| Socket.AuctionConnection.OnStompError | livebid-ui/src/lib/socket.ts:47-50 | Calls `onError` with the error text, if one was given. |
| Socket.DisconnectFromAuction | livebid-ui/src/lib/socket.ts:64-68 | Only a present, active client is deactivated. A null or inactive client is left unchanged. |
| AuctionCard.CountdownForms | livebid-ui/src/components/AuctionCard.tsx:21-41 | The display shows "Ended" if and only if diff ≤ 0, days if and only if diff ≥ 25 h, hours if and only if 1 h ≤ diff < 25 h, minutes if and only if 1 min ≤ diff < 1 h, and seconds otherwise. |
| AuctionCard.CountdownIsFloor | livebid-ui/src/components/AuctionCard.tsx:28-40 | Every shown value is the remaining time rounded down in its finest unit. Hours of a day are in 0..23, and minutes and seconds in 0..59. |
| AuctionCard.Decompose | livebid-ui/src/components/AuctionCard.tsx:28-30 | The whole hours, the whole minutes of the hour and the whole seconds of the minute add up to the remaining time, less than one second short. Minutes and seconds are below 60. |
| AuctionCard.ExactlyOneDay | livebid-ui/src/components/AuctionCard.tsx:32-36 | Exactly 24 h shows "24h 0m", not days. |
| AuctionCard.UnderOneSecond | livebid-ui/src/components/AuctionCard.tsx:37-40 | 0 < diff < 1000 shows "0s". |
| AuctionCard.ShowStartButton | livebid-ui/src/components/AuctionCard.tsx:58-59 | The button shows if and only if the viewer id is present, non-empty and equal to the seller, and the status is SCHEDULED. |
| NotificationBell.FormatTimeSpec | livebid-ui/src/components/NotificationBell.tsx:107-119 | "Just now" if and only if less than a minute has passed, including future times. Otherwise minutes, hours or days on their ranges, each the elapsed time rounded down. |
| NotificationBell.BadgeFor | livebid-ui/src/components/NotificationBell.tsx:130-133 | Hidden at 0 or less. The number for 1 to 9. "9+" above 9. |
| NotificationBell.Latest | livebid-ui/src/components/NotificationBell.tsx:44 | Keeps the first min(10, n) fetched, as a prefix. |
| NotificationBell.MarkedRead | livebid-ui/src/components/NotificationBell.tsx:66 | Only items with the id become read. Everything else is kept. |
| NotificationBell.AllMarkedRead | livebid-ui/src/components/NotificationBell.tsx:77 | Every item becomes read. Everything else is kept. |
| NotificationBell.MarkAsReadKeepsCountInSync | livebid-ui/src/components/NotificationBell.tsx:62-71 | If the count matches the list's unread number, marking an unread listed item keeps the floored decrement in step with the list. |
| NotificationBell.AllMarkedReadNoneUnread | livebid-ui/src/components/NotificationBell.tsx:77-78 | After marking all, no listed item is unread, which matches the count of 0. |
| NotificationBell.Bell.FetchNotifications | livebid-ui/src/components/NotificationBell.tsx:39-50 | On success it keeps the first ten. On failure it keeps the old list. Loading ends either way. With no user it does nothing. |
| NotificationBell.Bell.FetchUnreadCount | livebid-ui/src/components/NotificationBell.tsx:52-60 | On success it takes the server's count. Otherwise the count is unchanged. |
| NotificationBell.Bell.MarkAsRead | livebid-ui/src/components/NotificationBell.tsx:62-71 | After a successful request, that item is read and the count drops by one, floored at 0. A failed request changes nothing. |
| NotificationBell.Bell.MarkAllAsRead | livebid-ui/src/components/NotificationBell.tsx:73-82 | After a successful request, every item is read and the count is 0. A failed request changes nothing. |
| UserContext.UserSession.constructor | livebid-ui/src/context/UserContext.tsx:18-19 | Starts with no user and loading. |
| UserContext.UserSession.FetchUser | livebid-ui/src/context/UserContext.tsx:31-43 | On success it shows the user and stores its id. On failure it removes the stored id and shows no user. Loading ends either way. |
| UserContext.UserSession.Mount | livebid-ui/src/context/UserContext.tsx:21-29 | With a stored id it fetches that user. With none it just ends loading. |
| UserContext.UserSession.Login | livebid-ui/src/context/UserContext.tsx:45-48 | Loading starts, then the given user is fetched. |
| UserContext.UserSession.Logout | livebid-ui/src/context/UserContext.tsx:50-53 | Removes the stored id and the user. Loading is untouched. |
| UserContext.UserSession.RefreshUser | livebid-ui/src/context/UserContext.tsx:55-60 | With a stored id it fetches again. With none, nothing changes. |

## Findings

| source | as written | input that shows it | evidently intended | confidence | as-written member | corrected member |
|---|---|---|---|---|---|---|
| src/main/java/com/livebid/auction/service/AuctionService.java:134-146 | `convertToLive` sets LIVE whatever the status, and `startAuction` exposes it. | Start a CLOSED, settled auction whose winner's reserve is already paid out. A new bid then refunds the old leader 1000 from a reserve of 0, leaving it at -1000. | Only a SCHEDULED auction can be started. Any other status is refused with no change. | not executed | Ledger.RelaunchingClosedAuctionBreaksEscrow (on AuctionModel.Launch) | AuctionEngine.AuctionService.ConvertToLive |

## Left out

- Locking, `@Version` and transactions: each service call is atomic. An exception is modelled as "no state change".
- `@EventListener` handlers run inside the publishing transaction. The model appends events only on success and does not model a listener's side effects surviving a later rollback.
- Repository queries that are not declared in the source shown are inputs. These are `updateStatusToClosing` (the `claimed` flag) and `findExpiredLiveAuctions` (the `expired` list), whose WHERE clauses are unknown. The repository's listing orders are table order.
- `getAllAuctions` and `getAuctionsBySeller` are plain repository listings and are not modelled. `searchAuctions` is modelled as the choice of query, not the query's matching.
- AuctionModel.MinIncrement: `(long)(price * 0.05)` is modelled as `price / 20`. For very large prices, double rounding can differ.
- Balances and prices are unbounded integers. Java `long` overflow is not modelled.
- Notification text and the `/100.0` dollar rendering are kept as the parts of a `Message`.
- Ids are table positions rendered in decimal, not UUIDs. Hash-set iteration order in `getAuctionsByBidder` is replaced by id order.
- Ties in `findByUserIdOrderByCreatedAtDesc` put the later id first.
- `BidPlacedEvent`'s class text declares three fields, but its construction and the listener use a fourth, `previousLeaderId`. The model follows the usage.
- AuctionEngine.AuctionService.PlaceBid: the previous leader's existence is checked before the writes, not after. Since the failure rolls everything back, the outcome is the same.
- AuctionEngine.AuctionService.CloseAuction: the seller is taken as existing for the listener's non-null check. A seller id is always set at creation.
- Auth.AuthController.GoogleAuth: the HTTP call to Google is a parameter. An exception thrown by that call itself, and the runtime's text of a cast exception, are not modelled.
- AuctionEngine.AuctionService.PlaceBid: the source reads the clock twice, once for the end-time check and once for the bid's timestamp. The model uses one `now` for both.
- AuctionEngine.Close: the source's duplicate-settlement failure is the database's unique-key violation at commit, whose message is the driver's. The model reports it as "Duplicate settlement".
- Jwt.JwtService.GenerateToken: the source reads the clock twice, and the model uses one `now` for both reads. HMAC signing and token parsing are library work. `isTokenValid` takes the library's verdict as input.
- AuctionApi.ParseStatus: Java's `toUpperCase` is modelled on the characters whose upper case is an ASCII letter. Other characters are left alone, which cannot create a match. The JVM's default locale is taken to be a non-Turkish one. Under a Turkish locale "live" upper-cases to "LİVE" and selects no status, whereas the model selects LIVE.
- AuctionApi.AuctionController.StartAuction: this delegates to the corrected start, so it refuses a status other than SCHEDULED. As written, the source starts any existing auction and answers 200; `AuctionModel.Launch` models that behaviour, and the Findings row shows its effect.
- The "no bids" SALE_COMPLETE branch of `ClosedNotices` is modelled, but `closeAuction` never reaches it. With no leader, `closeAuction` closes the auction without publishing a closed event, so every published closed event names a winner.
- Redis, STOMP delivery, SockJS, axios and localStorage are recorded as effects or fields, not run. Reconnect timing, `setInterval` and the `@Scheduled` cadence are left out.
- Socket.HasKey: names inherited from `Object.prototype` are not modelled. None of the four looked-up names is one.
- Strings are sequences of Unicode scalar values. JavaScript's UTF-16 length is not modelled.
- Jwt.PadSecret: the length is counted in Unicode scalar values, while Java's `String.length()` counts UTF-16 code units. A secret holding a character outside the Basic Multilingual Plane is therefore padded with fewer '0's in the source than in the model.
