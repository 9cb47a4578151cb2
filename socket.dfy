/** The browser's live connection to one auction (`socket.ts`): a STOMP
    client that subscribes to the auction's topic on every connect and
    routes each message by the fields it carries. The transport, the
    reconnect timer and the console are not part of this model; each
    callback the page registered is recorded by what it was called with. */
module Socket {
  import opened Wrappers
  import opened Text
  import opened AuctionModel

  /** A parsed JSON value. */
  datatype Json =
    | JNull
    | JBool(b: bool)
    | JNumber(n: int)
    | JString(s: string)
    | JArray(items: seq<Json>)
    | JObject(fields: map<string, Json>)

  predicate IsPrimitive(v: Json) {
    v.JNull? || v.JBool? || v.JNumber? || v.JString?
  }

  /** JavaScript's `key in v`: an object has its own keys, an array its
      indices and "length"; on any other value the operator throws. The
      names looked up here are not inherited from `Object.prototype`, so
      the prototype chain adds nothing. */
  function HasKey(v: Json, key: string): (r: Result<bool, string>)
    ensures r.Failure? <==> IsPrimitive(v)
    ensures v.JObject? ==> r == Success(key in v.fields)
    ensures v.JArray? && r == Success(true) ==> key == "length" || AllDigits(key)
  {
    match v
    case JObject(fields) => Success(key in fields)
    case JArray(items) => Success(key == "length" || exists i :: 0 <= i < |items| && key == NatToString(i))
    case _ => Failure("TypeError: cannot use 'in' operator")
  }

  /** What one message leads to: exactly one of the two callbacks, or
      nothing, or the logged parse failure. */
  datatype Delivery = BidUpdate(body: Json) | ClosedUpdate(body: Json) | Dropped | ParseFailed

  predicate BidShape(v: Json) {
    v.JObject? && "newLeaderId" in v.fields && "newPrice" in v.fields
  }

  predicate ClosedShape(v: Json) {
    v.JObject? && "winnerId" in v.fields && "closingPrice" in v.fields
  }

  /** The subscription callback. `parsed` is `None` when `JSON.parse`
      threw; a primitive makes the first `in` throw; both are caught and
      logged. Otherwise the bid shape is checked first, then the close
      shape, and anything else is ignored. */
  function Route(parsed: Option<Json>): (d: Delivery)
    ensures d.ParseFailed? <==> parsed.None? || IsPrimitive(parsed.value)
    ensures d.BidUpdate? <==> parsed.Some? && BidShape(parsed.value)
    ensures d.ClosedUpdate? <==> parsed.Some? && !BidShape(parsed.value) && ClosedShape(parsed.value)
    ensures d.Dropped? <==> parsed.Some? && (parsed.value.JArray? ||
                              (parsed.value.JObject? && !BidShape(parsed.value) && !ClosedShape(parsed.value)))
    ensures d.BidUpdate? || d.ClosedUpdate? ==> d.body == parsed.value
  {
    if parsed.None? then ParseFailed
    else
      var body := parsed.value;
      assert !IsDigit("newLeaderId"[0]) && !IsDigit("newPrice"[0]);
      assert !IsDigit("winnerId"[0]) && !IsDigit("closingPrice"[0]);
      var leader := HasKey(body, "newLeaderId");
      if leader.Failure? then ParseFailed
      else
        var bid := leader.value && HasKey(body, "newPrice") == Success(true);
        if bid then BidUpdate(body)
        else
          var closed := HasKey(body, "winnerId") == Success(true) && HasKey(body, "closingPrice") == Success(true);
          if closed then ClosedUpdate(body)
          else Dropped
  }

  /** A payload carrying both shapes' fields goes to the bid callback only. */
  lemma BidShapeWins(parsed: Json)
    requires BidShape(parsed) && ClosedShape(parsed)
    ensures Route(Some(parsed)) == BidUpdate(parsed)
  {
  }

  /** The JSON the server sends for a domain event: ids as strings, amounts
      as numbers, an absent id as null (the serializer writes null fields). */
  function IdJson(id: nat): Json {
    JString(NatToString(id))
  }

  function OptionalIdJson(id: Option<nat>): Json {
    match id
    case Some(i) => IdJson(i)
    case None => JNull
  }

  function EventJson(e: DomainEvent): Json {
    match e
    case BalanceChanged(u, available, reserved) =>
      JObject(map["userId" := IdJson(u), "available" := JNumber(available), "reserved" := JNumber(reserved)])
    case BidPlaced(a, price, leader, previous) =>
      JObject(map["auctionId" := IdJson(a), "newPrice" := JNumber(price),
                  "newLeaderId" := IdJson(leader), "previousLeaderId" := OptionalIdJson(previous)])
    case AuctionClosed(a, winner, price) =>
      JObject(map["auctionId" := IdJson(a), "winnerId" := OptionalIdJson(winner), "closingPrice" := JNumber(price)])
  }

  /** Each event the server publishes on an auction's topic reaches the
      matching callback, a close without a winner included (its null
      `winnerId` is still a key); a balance event, which the server sends
      to user topics, would be ignored. */
  lemma PublishedEventsRoute(e: DomainEvent)
    ensures e.BidPlaced? ==> Route(Some(EventJson(e))) == BidUpdate(EventJson(e))
    ensures e.AuctionClosed? ==> Route(Some(EventJson(e))) == ClosedUpdate(EventJson(e))
    ensures e.BalanceChanged? ==> Route(Some(EventJson(e))) == Dropped
  {
    match e
    case BalanceChanged(_, _, _) =>
      assert !BidShape(EventJson(e)) && !ClosedShape(EventJson(e));
    case BidPlaced(_, _, _, _) =>
      assert BidShape(EventJson(e));
    case AuctionClosed(_, _, _) =>
      assert !BidShape(EventJson(e)) && ClosedShape(EventJson(e));
  }

  /** The `onError` text of a STOMP error frame: its message header, or a
      default when the header is missing or empty. */
  function StompErrorText(header: Option<string>): (r: string)
    ensures header.Some? && header.value != "" ==> r == header.value
    ensures header.None? || header.value == "" ==> r == "Unknown STOMP error"
  {
    if header.Some? && header.value != "" then header.value else "Unknown STOMP error"
  }

  function AuctionTopicName(auctionId: string): string {
    "/topic/auctions/" + auctionId
  }

  /** The client returned by `connectToAuction`, with the calls its
      callbacks received. */
  class AuctionConnection {
    const topic: string
    /** Whether the page passed `onConnect` / `onError`. */
    const hasOnConnect: bool
    const hasOnError: bool
    var active: bool
    /** The subscription on the current connection. */
    var subscribed: Option<string>
    var connectCalls: nat
    var errorCalls: seq<string>
    var bidUpdates: seq<Json>
    var closedUpdates: seq<Json>
    var parseFailures: nat

    predicate Quiet()
      reads this
    {
      connectCalls == 0 && errorCalls == [] && bidUpdates == [] && closedUpdates == [] && parseFailures == 0
    }

    /** `connectToAuction`: an activated client for the auction's topic,
        not yet connected or subscribed. */
    constructor ConnectToAuction(auctionId: string, hasOnConnect: bool, hasOnError: bool)
      ensures topic == AuctionTopicName(auctionId) && this.hasOnConnect == hasOnConnect && this.hasOnError == hasOnError
      ensures active && subscribed.None? && Quiet()
    {
      topic := AuctionTopicName(auctionId);
      this.hasOnConnect := hasOnConnect;
      this.hasOnError := hasOnError;
      active := true;
      subscribed := None;
      connectCalls := 0;
      errorCalls := [];
      bidUpdates := [];
      closedUpdates := [];
      parseFailures := 0;
    }

    /** `onConnect`, run on the first connect and on every reconnect:
        subscribes to the same auction topic, then calls `onConnect`. */
    method OnConnect()
      modifies this
      ensures subscribed == Some(topic)
      ensures connectCalls == old(connectCalls) + (if hasOnConnect then 1 else 0)
      ensures active == old(active) && errorCalls == old(errorCalls)
      ensures bidUpdates == old(bidUpdates) && closedUpdates == old(closedUpdates) && parseFailures == old(parseFailures)
    {
      subscribed := Some(topic);
      if hasOnConnect {
        connectCalls := connectCalls + 1;
      }
    }

    /** A message on the subscription: at most one callback fires, as `Route` says. */
    method OnMessage(parsed: Option<Json>)
      modifies this
      ensures var d := Route(parsed);
              && bidUpdates == old(bidUpdates) + (if d.BidUpdate? then [d.body] else [])
              && closedUpdates == old(closedUpdates) + (if d.ClosedUpdate? then [d.body] else [])
              && parseFailures == old(parseFailures) + (if d.ParseFailed? then 1 else 0)
      ensures |bidUpdates| + |closedUpdates| <= |old(bidUpdates)| + |old(closedUpdates)| + 1
      ensures active == old(active) && subscribed == old(subscribed)
      ensures connectCalls == old(connectCalls) && errorCalls == old(errorCalls)
    {
      var d := Route(parsed);
      match d
      case BidUpdate(body) => bidUpdates := bidUpdates + [body];
      case ClosedUpdate(body) => closedUpdates := closedUpdates + [body];
      case ParseFailed => parseFailures := parseFailures + 1;
      case Dropped =>
    }

    /** `onStompError`: reports the frame's message to `onError`, if given. */
    method OnStompError(header: Option<string>)
      modifies this
      ensures errorCalls == old(errorCalls) + (if hasOnError then [StompErrorText(header)] else [])
      ensures active == old(active) && subscribed == old(subscribed) && connectCalls == old(connectCalls)
      ensures bidUpdates == old(bidUpdates) && closedUpdates == old(closedUpdates) && parseFailures == old(parseFailures)
    {
      if hasOnError {
        errorCalls := errorCalls + [StompErrorText(header)];
      }
    }

    /** `deactivate`: the client stops, and its subscription with it. */
    method Deactivate()
      modifies this
      ensures !active && subscribed.None?
      ensures connectCalls == old(connectCalls) && errorCalls == old(errorCalls)
      ensures bidUpdates == old(bidUpdates) && closedUpdates == old(closedUpdates) && parseFailures == old(parseFailures)
    {
      active := false;
      subscribed := None;
    }
  }

  /** `disconnectFromAuction`: deactivates a present, active client; a
      missing or already inactive one is left alone. */
  method DisconnectFromAuction(client: AuctionConnection?)
    modifies client
    ensures client != null && old(client.active) ==> !client.active && client.subscribed.None?
    ensures client != null && !old(client.active) ==> unchanged(client)
    ensures client != null ==>
              && client.bidUpdates == old(client.bidUpdates) && client.closedUpdates == old(client.closedUpdates)
              && client.connectCalls == old(client.connectCalls)
  {
    if client != null && client.active {
      client.Deactivate();
    }
  }
}
