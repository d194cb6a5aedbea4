/** The trading rules of `BondoraTrading`: the webhook handlers that decide whether to buy or bid,
    and the batch jobs that cancel and place the account's own secondary-market offers. The
    marketplace client underneath is not modelled: its calls appear as `Order` values in a trace,
    and what its fetch calls leave in the trading object's fields is an input. */
module Trading {
  import opened Wrappers
  import opened PyJson
  import Calendar

  /** A loan part put up for sale at `price` (the desired discount rate, in percent). */
  datatype Offer = Offer(loanPartId: Json, price: int)

  /** A call made to the marketplace client. */
  datatype Order =
    | FetchInvestments(retry: bool, filter: map<string, Json>)
    | FetchSecondaryMarket(retry: bool, filter: map<string, Json>)
    | BuyOnSecondaryMarket(itemIds: seq<Json>)
    | SellOnSecondaryMarket(offers: seq<Offer>)
    | CancelOnSecondaryMarket(itemIds: seq<Json>)
    | BidOnAuction(auctionIds: seq<Json>, amount: int)

  /** What one webhook handler does: the calls it issues and whether it appends its audit line. */
  datatype Effect = Effect(orders: seq<Order>, logged: bool)

  const NoEffect := Effect([], false)

  const SecondMarketEvents: seq<string> := ["secondmarket.published", "secondmarket.updated"]
  const AuctionEvents: seq<string> := ["auction.published"]

  // ---------------------------------------------------------------- event gating

  /** The event's `Payload` when its `EventType` is one of `accepted`. None when the handler
      returns early (no such type) or when reading the event raises (the event is not a dict,
      or it has no `Payload`): either way the handler ends without acting. */
  function AcceptedPayload(event: Json, accepted: seq<string>): Option<Json> {
    match Subscript(event, "EventType")
    case None => None
    case Some(kind) =>
      if kind.Str? && kind.s in accepted then Subscript(event, "Payload") else None
  }

  /** The event is a dict whose `EventType` is one of `accepted`. */
  ghost predicate Accepts(event: Json, accepted: seq<string>) {
    && event.Obj?
    && "EventType" in event.fields
    && event.fields["EventType"].Str?
    && event.fields["EventType"].s in accepted
  }

  /** The event is accepted and carries a payload; its payload is then `event.fields["Payload"]`. */
  ghost predicate Delivers(event: Json, accepted: seq<string>) {
    Accepts(event, accepted) && "Payload" in event.fields
  }

  lemma AcceptedPayloadMeaning(event: Json, accepted: seq<string>)
    ensures AcceptedPayload(event, accepted).Some? <==> Delivers(event, accepted)
    ensures Delivers(event, accepted) ==> AcceptedPayload(event, accepted) == Some(event.fields["Payload"])
  {
  }

  // ---------------------------------------------------------------- buying conditions

  /** Python's `a and b` over conditions that may raise: a raising left operand raises, a false
      one short-circuits (so `b` is never evaluated and cannot raise). */
  function And(a: Option<bool>, b: Option<bool>): Option<bool> {
    match a
    case None => None
    case Some(false) => Some(false)
    case Some(true) => b
  }

  function FieldEquals(payload: Json, key: string, c: real): Option<bool> {
    var v :- Subscript(payload, key);
    Some(NumberEquals(v, c))
  }

  function FieldAtMost(payload: Json, key: string, c: real): Option<bool> {
    var v :- Subscript(payload, key);
    AtMost(v, c)
  }

  function FieldAbove(payload: Json, key: string, c: real): Option<bool> {
    var v :- Subscript(payload, key);
    Above(v, c)
  }

  function FieldFalsy(payload: Json, key: string): Option<bool> {
    var v :- Subscript(payload, key);
    Some(!Truthy(v))
  }

  /** The value `loan_selector` gets in buy_green_loan, None when computing it raises. The
      payment date and the earliest acceptable date (today plus 10 days) are computed before
      the conditions, so a missing or malformed `NextPaymentDate` always raises. */
  function GreenSelector(payload: Json, today: int): Option<bool> {
    var text :- Subscript(payload, "NextPaymentDate");
    var nextPayment :- if text.Str? then Calendar.FromIsoFormat(Take(text.s, 10)) else None;
    var earliest :- if today + 10 <= Calendar.MaxOrdinal then Some(today + 10) else None;
    And(FieldEquals(payload, "NextPaymentNr", 1.0),
    And(FieldAtMost(payload, "DesiredDiscountRate", 1.0),
    And(FieldEquals(payload, "LoanStatusCode", 2.0),
    And(FieldFalsy(payload, "ReScheduledOn"),
    And(FieldFalsy(payload, "DebtOccuredOn"),
    And(FieldFalsy(payload, "DebtOccuredOnForSecondary"),
    And(FieldEquals(payload, "LateAmountTotal", 0.0),
    And(FieldAtMost(payload, "Amount", 5.0),
    And(FieldAbove(payload, "Interest", 12.0),
    And(FieldAbove(payload, "NrOfScheduledPayments", 36.0),
    Some(nextPayment > earliest)))))))))))
  }

  /** The value `loan_selector` gets in buy_red_loan, None when computing it raises. */
  function RedSelector(payload: Json): Option<bool> {
    And(FieldAtMost(payload, "DesiredDiscountRate", -94.0),
        FieldAtMost(payload, "Price", 5.0))
  }

  /** `payload[key]` exists and is a number at most `c`. */
  ghost predicate NumberAtMost(f: map<string, Json>, key: string, c: real) {
    key in f && AsNumber(f[key]).Some? && AsNumber(f[key]).value <= c
  }

  ghost predicate NumberAbove(f: map<string, Json>, key: string, c: real) {
    key in f && AsNumber(f[key]).Some? && AsNumber(f[key]).value > c
  }

  ghost predicate NumberIs(f: map<string, Json>, key: string, c: real) {
    key in f && AsNumber(f[key]) == Some(c)
  }

  ghost predicate Unset(f: map<string, Json>, key: string) {
    key in f && !Truthy(f[key])
  }

  /** The day of the payload's next payment, when `NextPaymentDate` starts with an ISO date. */
  ghost function NextPaymentDay(f: map<string, Json>): Option<int> {
    if "NextPaymentDate" in f && f["NextPaymentDate"].Str?
    then Calendar.FromIsoFormat(Take(f["NextPaymentDate"].s, 10))
    else None
  }

  /** The green-loan rule, field by field: first instalment next, a discount of at most 1%,
      status "current" (2), never rescheduled or in debt, nothing late, at most 5 EUR, interest
      above 12%, more than 36 scheduled payments, and the next payment more than 10 days away. */
  ghost predicate IsGreenLoan(payload: Json, today: int) {
    && payload.Obj?
    && var f := payload.fields;
    && NumberIs(f, "NextPaymentNr", 1.0)
    && NumberAtMost(f, "DesiredDiscountRate", 1.0)
    && NumberIs(f, "LoanStatusCode", 2.0)
    && Unset(f, "ReScheduledOn")
    && Unset(f, "DebtOccuredOn")
    && Unset(f, "DebtOccuredOnForSecondary")
    && NumberIs(f, "LateAmountTotal", 0.0)
    && NumberAtMost(f, "Amount", 5.0)
    && NumberAbove(f, "Interest", 12.0)
    && NumberAbove(f, "NrOfScheduledPayments", 36.0)
    && today + 10 <= Calendar.MaxOrdinal
    && NextPaymentDay(f).Some?
    && NextPaymentDay(f).value > today + 10
  }

  /** The red-loan rule: a discount of at least 94% and a price of at most 5 EUR. */
  ghost predicate IsRedLoan(payload: Json) {
    && payload.Obj?
    && NumberAtMost(payload.fields, "DesiredDiscountRate", -94.0)
    && NumberAtMost(payload.fields, "Price", 5.0)
  }

  /** The Python evaluation of the green conditions, exceptions and short-circuits included,
      selects exactly the loans the field-by-field rule describes. */
  lemma GreenSelectorMeaning(payload: Json, today: int)
    ensures GreenSelector(payload, today) == Some(true) <==> IsGreenLoan(payload, today)
  {
  }

  lemma RedSelectorMeaning(payload: Json)
    ensures RedSelector(payload) == Some(true) <==> IsRedLoan(payload)
  {
  }

  // ---------------------------------------------------------------- the handlers

  /** The text of the audit line can be built: it prints `Price` and `DesiredDiscountRate` and
      concatenates `LoanPartId`, which must therefore be a string. */
  predicate AuditLineWritable(payload: Json) {
    && Subscript(payload, "Price").Some?
    && Subscript(payload, "LoanPartId").Some?
    && Subscript(payload, "LoanPartId").value.Str?
    && Subscript(payload, "DesiredDiscountRate").Some?
  }

  /** The tail the buy handlers share once their rule holds: buy `[payload['Id']]`, then append
      the audit line. A missing `Id` raises before the call; a line whose text raises is not
      written, but the purchase has already been requested. */
  function BuyAndLog(payload: Json): Effect {
    match Subscript(payload, "Id")
    case None => NoEffect
    case Some(id) => Effect([BuyOnSecondaryMarket([id])], AuditLineWritable(payload))
  }

  /** buy_green_loan acts exactly when the event is a secondary-market event whose payload
      satisfies the green rule and has an `Id`. */
  ghost predicate ShouldBuyGreen(event: Json, today: int) {
    && Delivers(event, SecondMarketEvents)
    && IsGreenLoan(event.fields["Payload"], today)
    && "Id" in event.fields["Payload"].fields
  }

  ghost predicate ShouldBuyRed(event: Json) {
    && Delivers(event, SecondMarketEvents)
    && IsRedLoan(event.fields["Payload"])
    && "Id" in event.fields["Payload"].fields
  }

  /** buy_green_loan: one purchase of the published item when the green rule holds, nothing
      otherwise; every exception is swallowed. */
  function BuyGreenLoan(event: Json, today: int): (r: Effect)
    ensures !Accepts(event, SecondMarketEvents) ==> r == NoEffect
    ensures ShouldBuyGreen(event, today) ==>
      r.orders == [BuyOnSecondaryMarket([event.fields["Payload"].fields["Id"]])]
    ensures !ShouldBuyGreen(event, today) ==> r == NoEffect
    ensures r.logged <==> ShouldBuyGreen(event, today) && AuditLineWritable(event.fields["Payload"])
  {
    AcceptedPayloadMeaning(event, SecondMarketEvents);
    match AcceptedPayload(event, SecondMarketEvents)
    case None => NoEffect
    case Some(payload) =>
      GreenSelectorMeaning(payload, today);
      if GreenSelector(payload, today) == Some(true) then BuyAndLog(payload) else NoEffect
  }

  /** buy_red_loan: one purchase of the published item when the red rule holds, nothing
      otherwise; every exception is swallowed. */
  function BuyRedLoan(event: Json): (r: Effect)
    ensures !Accepts(event, SecondMarketEvents) ==> r == NoEffect
    ensures ShouldBuyRed(event) ==>
      r.orders == [BuyOnSecondaryMarket([event.fields["Payload"].fields["Id"]])]
    ensures !ShouldBuyRed(event) ==> r == NoEffect
    ensures r.logged <==> ShouldBuyRed(event) && AuditLineWritable(event.fields["Payload"])
  {
    AcceptedPayloadMeaning(event, SecondMarketEvents);
    match AcceptedPayload(event, SecondMarketEvents)
    case None => NoEffect
    case Some(payload) =>
      RedSelectorMeaning(payload);
      if RedSelector(payload) == Some(true) then BuyAndLog(payload) else NoEffect
  }

  /** bid_loan: its selector is the constant False, so whatever the event, it neither bids nor
      writes its log. */
  function BidLoan(auction: Json): (r: Effect)
    ensures r == NoEffect
  {
    var selector := false;
    match AcceptedPayload(auction, AuctionEvents)
    case None => NoEffect
    case Some(payload) =>
      if !selector then NoEffect
      else
        match Subscript(payload, "AuctionId")
        case None => NoEffect
        case Some(id) => Effect([BidOnAuction([id], 5)], true)
  }

  /** Malformed input is silent: an accepted event whose payload lacks a field the green rule
      reads, or whose `NextPaymentDate` is not an ISO date, leads to no order. */
  lemma GreenNeedsEveryField(event: Json, today: int, key: string)
    requires Delivers(event, SecondMarketEvents) && event.fields["Payload"].Obj?
    requires key in ["NextPaymentDate", "NextPaymentNr", "DesiredDiscountRate", "LoanStatusCode",
                     "ReScheduledOn", "DebtOccuredOn", "DebtOccuredOnForSecondary",
                     "LateAmountTotal", "Amount", "Interest", "NrOfScheduledPayments", "Id"]
    requires key !in event.fields["Payload"].fields
              || NextPaymentDay(event.fields["Payload"].fields).None?
    ensures BuyGreenLoan(event, today) == NoEffect
  {
  }

  /** A payload shaped like the marketplace's secondary-market items, with the given interest. */
  function SampleItem(interest: real): Json {
    Obj(map[
      "Id" := Str("item"), "LoanPartId" := Str("part"), "Price" := Num(3.0),
      "NextPaymentNr" := Num(1.0), "DesiredDiscountRate" := Num(0.5), "LoanStatusCode" := Num(2.0),
      "ReScheduledOn" := Null, "DebtOccuredOn" := Null, "DebtOccuredOnForSecondary" := Null,
      "LateAmountTotal" := Num(0.0), "Amount" := Num(3.0), "Interest" := Num(interest),
      "NrOfScheduledPayments" := Num(48.0), "NextPaymentDate" := Str("2021-03-01T00:00:00")])
  }

  /** The sample item's identity, price and payment fields. */
  lemma SampleItemFields(interest: real)
    ensures var f := SampleItem(interest).fields;
      && f["Id"] == Str("item") && f["LoanPartId"] == Str("part") && f["Price"] == Num(3.0)
      && f["DesiredDiscountRate"] == Num(0.5) && f["Interest"] == Num(interest)
      && f["NextPaymentDate"] == Str("2021-03-01T00:00:00")
  {
  }

  /** The sample item's status fields: current, never rescheduled, never in debt. */
  lemma SampleItemStatus(interest: real)
    ensures var f := SampleItem(interest).fields;
      && f["NextPaymentNr"] == Num(1.0) && f["LoanStatusCode"] == Num(2.0)
      && f["ReScheduledOn"] == Null && f["DebtOccuredOn"] == Null
      && f["DebtOccuredOnForSecondary"] == Null && f["LateAmountTotal"] == Num(0.0)
      && f["Amount"] == Num(3.0) && f["NrOfScheduledPayments"] == Num(48.0)
  {
  }

  lemma SampleItemInterest(interest: real)
    ensures "Interest" in SampleItem(interest).fields
    ensures AsNumber(SampleItem(interest).fields["Interest"]) == Some(interest)
  {
  }

  lemma SampleItemDue()
    ensures NextPaymentDay(SampleItem(15.0).fields) == Some(Calendar.Ordinal(2021, 3, 1))
    ensures NextPaymentDay(SampleItem(10.0).fields) == Some(Calendar.Ordinal(2021, 3, 1))
    ensures Calendar.Ordinal(2021, 3, 1) > Calendar.Ordinal(2021, 1, 1) + 10
  {
    Calendar.IsoExample();
    Calendar.DaysBeforeMonthTable(2021, 3);
    assert Take("2021-03-01T00:00:00", 10) == "2021-03-01";
  }

  /** Worked case: a current loan paying 15% whose next payment is two months away is bought,
      and its audit line written. */
  lemma GreenExample()
    ensures BuyGreenLoan(Obj(map["EventType" := Str("secondmarket.published"), "Payload" := SampleItem(15.0)]),
                         Calendar.Ordinal(2021, 1, 1))
         == Effect([BuyOnSecondaryMarket([Str("item")])], true)
  {
    var today := Calendar.Ordinal(2021, 1, 1);
    SampleItemGreen();
    SampleItemBuyable();
    var green := Obj(map["EventType" := Str("secondmarket.published"), "Payload" := SampleItem(15.0)]);
    assert ShouldBuyGreen(green, today);
  }

  /** The sample loan paying 15% meets every green condition on 2021-01-01. */
  lemma SampleItemGreen()
    ensures IsGreenLoan(SampleItem(15.0), Calendar.Ordinal(2021, 1, 1))
  {
    SampleItemDue();
    SampleItemFields(15.0);
    SampleItemStatus(15.0);
  }

  /** The sample loan has an `Id` and its audit line can be written. */
  lemma SampleItemBuyable()
    ensures Subscript(SampleItem(15.0), "Id") == Some(Str("item"))
    ensures AuditLineWritable(SampleItem(15.0))
  {
    SampleItemFields(15.0);
  }

  /** Worked case: the same loan paying 10% is not bought. */
  lemma GreenExampleDeclined()
    ensures BuyGreenLoan(Obj(map["EventType" := Str("secondmarket.published"), "Payload" := SampleItem(10.0)]),
                         Calendar.Ordinal(2021, 1, 1))
         == NoEffect
  {
    var today := Calendar.Ordinal(2021, 1, 1);
    SampleItemInterest(10.0);
    var dull := Obj(map["EventType" := Str("secondmarket.published"), "Payload" := SampleItem(10.0)]);
    assert !NumberAbove(SampleItem(10.0).fields, "Interest", 12.0);
    assert !ShouldBuyGreen(dull, today);
  }

  /** Worked case: a 95% discount at price 3 is bought; at price 10 it is not. */
  lemma RedExample()
    ensures BuyRedLoan(Obj(map["EventType" := Str("secondmarket.updated"), "Payload" :=
              Obj(map["Id" := Str("item"), "DesiredDiscountRate" := Num(-95.0), "Price" := Num(3.0)])]))
            == Effect([BuyOnSecondaryMarket([Str("item")])], false)
    ensures BuyRedLoan(Obj(map["EventType" := Str("secondmarket.updated"), "Payload" :=
              Obj(map["Id" := Str("item"), "DesiredDiscountRate" := Num(-95.0), "Price" := Num(10.0)])]))
            == NoEffect
  {
  }

  // ---------------------------------------------------------------- selling prices

  /** The price of one investment when prices decay: the minimum plus the days from the latest
      selling day to the next payment, then capped at the maximum and raised to the minimum. */
  function DecayedPrice(maxPrice: int, minPrice: int, nextPayment: int, latestSell: int): (price: int)
    ensures minPrice <= maxPrice ==> minPrice <= price <= maxPrice
    ensures minPrice <= maxPrice && nextPayment <= latestSell ==> price == minPrice
    ensures minPrice + (nextPayment - latestSell) > maxPrice ==> price == maxPrice
    ensures minPrice <= minPrice + (nextPayment - latestSell) <= maxPrice ==>
      price == minPrice + (nextPayment - latestSell)
  {
    var price := minPrice + (nextPayment - latestSell);
    if price > maxPrice then maxPrice
    else if price < minPrice then minPrice
    else price
  }

  /** The later the next payment, the higher the price: it falls by a point a day, down to the
      minimum on the latest selling day. */
  lemma DecayedPriceMonotone(maxPrice: int, minPrice: int, a: int, b: int, latestSell: int)
    requires minPrice <= maxPrice && a <= b
    ensures DecayedPrice(maxPrice, minPrice, a, latestSell) <= DecayedPrice(maxPrice, minPrice, b, latestSell)
    ensures DecayedPrice(maxPrice, minPrice, b, latestSell) - DecayedPrice(maxPrice, minPrice, a, latestSell) <= b - a
  {
  }

  /** The offer place_sm_offers builds from one investment, None when building it raises (the
      investment is then skipped). `floor` is the minimum price when prices decay, None when
      every investment is offered at `maxPrice`. */
  function OfferFor(investment: Json, maxPrice: int, floor: Option<int>, latestSell: int): Option<Offer> {
    match floor
    case None =>
      var id :- Subscript(investment, "LoanPartId");
      Some(Offer(id, maxPrice))
    case Some(minPrice) =>
      var text :- Subscript(investment, "NextPaymentDate");
      var nextPayment :- if text.Str? then Calendar.Strptime(text.s) else None;
      var id :- Subscript(investment, "LoanPartId");
      Some(Offer(id, DecayedPrice(maxPrice, minPrice, nextPayment, latestSell)))
  }

  function Listed<T>(o: Option<T>): seq<T> {
    if o.Some? then [o.value] else []
  }

  /** The values `read` yields on the elements of `xs`, in order; an element it yields nothing
      for (the exception the loop catches and logs) is skipped. Both batch jobs collect this way. */
  function Collect<T, U>(xs: seq<T>, read: T -> Option<U>): seq<U> {
    if xs == [] then []
    else Collect(xs[..|xs| - 1], read) + Listed(read(xs[|xs| - 1]))
  }

  /** One more element adds its value, if any, at the end. */
  lemma CollectStep<T, U>(xs: seq<T>, i: nat, read: T -> Option<U>)
    requires i < |xs|
    ensures Collect(xs[..i + 1], read) == Collect(xs[..i], read) + Listed(read(xs[i]))
  {
    assert xs[..i + 1][..i] == xs[..i];
  }

  /** Collecting distributes over concatenation: each element contributes in place. */
  lemma {:induction false} CollectAppend<T, U>(a: seq<T>, b: seq<T>, read: T -> Option<U>)
    ensures Collect(a + b, read) == Collect(a, read) + Collect(b, read)
  {
    if b != [] {
      var k := |b| - 1;
      assert (a + b)[..|a + b| - 1] == a + b[..k];
      CollectAppend(a, b[..k], read);
    } else {
      assert a + b == a;
    }
  }

  /** Only an element yielding nothing is skipped: every element contributes exactly when each
      yields a value. */
  lemma {:induction false} CollectCount<T, U>(xs: seq<T>, read: T -> Option<U>)
    ensures |Collect(xs, read)| <= |xs|
    ensures |Collect(xs, read)| == |xs| <==> forall i :: 0 <= i < |xs| ==> read(xs[i]).Some?
  {
    if xs != [] {
      var k := |xs| - 1;
      assert Collect(xs, read) == Collect(xs[..k], read) + Listed(read(xs[k]));
      CollectCount(xs[..k], read);
      assert forall i :: 0 <= i < k ==> xs[..k][i] == xs[i];
      if read(xs[k]).None? {
        assert |Collect(xs, read)| < |xs|;
      }
    }
  }

  /** Nothing is collected exactly when no element yields a value. */
  lemma {:induction false} CollectNone<T, U>(xs: seq<T>, read: T -> Option<U>)
    ensures Collect(xs, read) == [] <==> forall i :: 0 <= i < |xs| ==> read(xs[i]).None?
  {
    if xs != [] {
      var k := |xs| - 1;
      assert Collect(xs, read) == Collect(xs[..k], read) + Listed(read(xs[k]));
      CollectNone(xs[..k], read);
      assert forall i :: 0 <= i < k ==> xs[..k][i] == xs[i];
    }
  }

  /** When every element yields a value, the collected list is those values in element order. */
  lemma {:induction false} CollectKeepOrder<T, U>(xs: seq<T>, read: T -> Option<U>)
    requires forall i :: 0 <= i < |xs| ==> read(xs[i]).Some?
    ensures |Collect(xs, read)| == |xs|
    ensures forall i :: 0 <= i < |xs| ==> Collect(xs, read)[i] == read(xs[i]).value
  {
    if xs != [] {
      var k := |xs| - 1;
      assert forall i :: 0 <= i < k ==> xs[..k][i] == xs[i];
      CollectKeepOrder(xs[..k], read);
    }
  }

  /** Every collected value is the value of some element. */
  lemma {:induction false} CollectMembers<T, U>(xs: seq<T>, read: T -> Option<U>)
    ensures forall u :: u in Collect(xs, read) ==> exists i :: 0 <= i < |xs| && read(xs[i]) == Some(u)
  {
    if xs != [] {
      var k := |xs| - 1;
      CollectMembers(xs[..k], read);
      forall u | u in Collect(xs, read)
        ensures exists i :: 0 <= i < |xs| && read(xs[i]) == Some(u)
      {
        if u in Collect(xs[..k], read) {
          var i :| 0 <= i < k && read(xs[..k][i]) == Some(u);
          assert xs[..k][i] == xs[i];
        } else {
          assert read(xs[k]) == Some(u);
        }
      }
    }
  }

  /** Building the offer of one investment, as a value `Collect` can apply. */
  function OfferReader(maxPrice: int, floor: Option<int>, latestSell: int): Json -> Option<Offer> {
    (x: Json) => OfferFor(x, maxPrice, floor, latestSell)
  }

  /** The offers built from `investments`, in their order. */
  function Offers(investments: seq<Json>, maxPrice: int, floor: Option<int>, latestSell: int): seq<Offer> {
    Collect(investments, OfferReader(maxPrice, floor, latestSell))
  }

  /** One more investment adds its offer, if it yields one, at the end. */
  lemma OffersStep(investments: seq<Json>, i: nat, maxPrice: int, floor: Option<int>, latestSell: int)
    requires i < |investments|
    ensures Offers(investments[..i + 1], maxPrice, floor, latestSell)
      == Offers(investments[..i], maxPrice, floor, latestSell) + Listed(OfferFor(investments[i], maxPrice, floor, latestSell))
  {
    CollectStep(investments, i, OfferReader(maxPrice, floor, latestSell));
  }

  /** One offer per investment, in investment order, when none of them raises; and only a
      raising investment is ever left out. */
  lemma OffersKeepOrder(investments: seq<Json>, maxPrice: int, floor: Option<int>, latestSell: int)
    ensures |Offers(investments, maxPrice, floor, latestSell)| <= |investments|
    ensures |Offers(investments, maxPrice, floor, latestSell)| == |investments| <==>
      forall i :: 0 <= i < |investments| ==> OfferFor(investments[i], maxPrice, floor, latestSell).Some?
    ensures |Offers(investments, maxPrice, floor, latestSell)| == |investments| ==>
      forall i :: 0 <= i < |investments| ==>
        Offers(investments, maxPrice, floor, latestSell)[i] == OfferFor(investments[i], maxPrice, floor, latestSell).value
  {
    var read := OfferReader(maxPrice, floor, latestSell);
    CollectCount(investments, read);
    if forall i :: 0 <= i < |investments| ==> read(investments[i]).Some? {
      CollectKeepOrder(investments, read);
    }
  }

  /** Every offer was built from one of the investments. */
  lemma OffersComeFromInvestments(investments: seq<Json>, maxPrice: int, floor: Option<int>, latestSell: int)
    ensures forall o :: o in Offers(investments, maxPrice, floor, latestSell) ==>
      exists i :: 0 <= i < |investments| && OfferFor(investments[i], maxPrice, floor, latestSell) == Some(o)
  {
    CollectMembers(investments, OfferReader(maxPrice, floor, latestSell));
  }

  /** With a minimum price no larger than the maximum, every offered price lies between them. */
  lemma OfferPricesBounded(investments: seq<Json>, maxPrice: int, minPrice: int, latestSell: int)
    requires minPrice <= maxPrice
    ensures forall o :: o in Offers(investments, maxPrice, Some(minPrice), latestSell) ==>
      minPrice <= o.price <= maxPrice
  {
    OffersComeFromInvestments(investments, maxPrice, Some(minPrice), latestSell);
  }

  /** Without a minimum price every investment is offered at the maximum price. */
  lemma OfferPricesAtMaximum(investments: seq<Json>, maxPrice: int, latestSell: int)
    ensures forall o :: o in Offers(investments, maxPrice, None, latestSell) ==> o.price == maxPrice
  {
    OffersComeFromInvestments(investments, maxPrice, None, latestSell);
  }

  /** The test `if min_price:` as the source writes it: a minimum of 0 is falsy and so counts as
      no minimum at all. */
  function FloorAsWritten(minPrice: Option<int>): Option<int> {
    if minPrice.Some? && minPrice.value != 0 then minPrice else None
  }

  /** As written, a minimum price of 0 or None offers everything at the maximum price. */
  lemma ZeroMinimumIgnoredAsWritten(investments: seq<Json>, maxPrice: int, minPrice: Option<int>, latestSell: int)
    requires minPrice == None || minPrice == Some(0)
    ensures forall o :: o in Offers(investments, maxPrice, FloorAsWritten(minPrice), latestSell) ==> o.price == maxPrice
  {
    OfferPricesAtMaximum(investments, maxPrice, latestSell);
  }

  /** A single investment yields its own offer, or none. */
  lemma OffersOfOne(investment: Json, maxPrice: int, floor: Option<int>, latestSell: int)
    ensures Offers([investment], maxPrice, floor, latestSell) == Listed(OfferFor(investment, maxPrice, floor, latestSell))
  {
    OffersStep([investment], 0, maxPrice, floor, latestSell);
    assert [investment][..0] == [] && [investment][..1] == [investment];
  }

  /** An investment paying on 2021-03-01. */
  function SampleInvestment(): Json {
    Obj(map["LoanPartId" := Str("part"), "NextPaymentDate" := Str("2021-03-01T00:00:00")])
  }

  /** Selling the sample on its payment day at a maximum of 5: 5 without a minimum, the minimum 0
      with one. */
  lemma SampleOffer()
    ensures OfferFor(SampleInvestment(), 5, None, Calendar.Ordinal(2021, 3, 1)) == Some(Offer(Str("part"), 5))
    ensures OfferFor(SampleInvestment(), 5, Some(0), Calendar.Ordinal(2021, 3, 1)) == Some(Offer(Str("part"), 0))
  {
    Calendar.StrptimeExample();
  }

  /** The input on which the two readings of `if min_price:` differ: maximum 5, minimum 0, and a
      next payment on the latest selling day. As written the price is 5; the decay the minimum
      asks for gives 0. With any other minimum the two readings agree. */
  lemma ZeroMinimumCounterexample()
    ensures Offers([SampleInvestment()], 5, FloorAsWritten(Some(0)), Calendar.Ordinal(2021, 3, 1))
      == [Offer(Str("part"), 5)]
    ensures Offers([SampleInvestment()], 5, Some(0), Calendar.Ordinal(2021, 3, 1))
      == [Offer(Str("part"), 0)]
    ensures forall m :: m != Some(0) ==> FloorAsWritten(m) == m
  {
    var latestSell := Calendar.Ordinal(2021, 3, 1);
    SampleOffer();
    OffersOfOne(SampleInvestment(), 5, None, latestSell);
    OffersOfOne(SampleInvestment(), 5, Some(0), latestSell);
  }

  // ---------------------------------------------------------------- collecting item IDs

  /** Reading the `Id` of one item, as a value `Collect` can apply. */
  function IdReader(): Json -> Option<Json> {
    (x: Json) => Subscript(x, "Id")
  }

  /** The `Id`s of the listed items, in listing order; an item without one is skipped. */
  function ItemIds(items: seq<Json>): seq<Json> {
    Collect(items, IdReader())
  }

  /** One more item adds its `Id`, if it has one, at the end. */
  lemma ItemIdsStep(items: seq<Json>, i: nat)
    requires i < |items|
    ensures ItemIds(items[..i + 1]) == ItemIds(items[..i]) + Listed(Subscript(items[i], "Id"))
  {
    CollectStep(items, i, IdReader());
  }

  /** Only an item without an `Id` is skipped: all are collected exactly when all have one, and
      none is collected exactly when none has one. */
  lemma ItemIdsCount(items: seq<Json>)
    ensures |ItemIds(items)| <= |items|
    ensures |ItemIds(items)| == |items| <==> forall i :: 0 <= i < |items| ==> Subscript(items[i], "Id").Some?
    ensures ItemIds(items) == [] <==> forall i :: 0 <= i < |items| ==> Subscript(items[i], "Id").None?
  {
    CollectCount(items, IdReader());
    CollectNone(items, IdReader());
  }

  /** When every item has an `Id`, the collected list is those `Id`s in listing order. */
  lemma ItemIdsKeepOrder(items: seq<Json>)
    requires forall i :: 0 <= i < |items| ==> Subscript(items[i], "Id").Some?
    ensures |ItemIds(items)| == |items|
    ensures forall i :: 0 <= i < |items| ==> ItemIds(items)[i] == Subscript(items[i], "Id").value
  {
    CollectKeepOrder(items, IdReader());
  }

  // ---------------------------------------------------------------- the batch jobs

  /** How a batch job ends, after the messages it logs. */
  datatype Report =
    | RetryLater            // nothing listed, and the fetch left a rate-limit entry for itself
    | NoneFound             // nothing listed
    | NoneUsable            // items listed, but every one of them raised
    | Submitted(count: nat) // one sell or cancel call carrying `count` items
    | DateOverflow          // the latest selling date is out of range: the OverflowError escapes

  /** The trading object: the snapshots its fetch calls store and the calls it has made. */
  class Trader {
    const user: string
    /** `self.investments`, the account's investments the last get_investments stored. */
    var investments: seq<Json>
    /** `self.sm`, the secondary-market items the last get_secondarymarket stored. */
    var sm: seq<Json>
    /** `self.retry`: operation name to the wait in seconds a rate-limited fetch asked for. */
    var retry: map<string, int>
    /** Every call made to the marketplace client, oldest first. */
    var orders: seq<Order>

    constructor (user: string)
      ensures this.user == user
      ensures investments == [] && sm == [] && retry == map[] && orders == []
    {
      this.user := user;
      investments, sm, retry, orders := [], [], map[], [];
    }

    /** cancel_sm_offers: lists the account's own offers matching `filter` and cancels all of them
        in one call. `listed` and `retries` are what get_secondarymarket leaves in `sm` and `retry`. */
    method CancelSmOffers(retryFlag: bool, filter: map<string, Json>, listed: seq<Json>, retries: map<string, int>)
      returns (report: Report)
      modifies this
      ensures investments == old(investments) && sm == listed && retry == retries
      ensures orders == old(orders)
        + [FetchSecondaryMarket(retryFlag, filter["ShowMyItems" := Bool(true)])]
        + (if ItemIds(listed) == [] then [] else [CancelOnSecondaryMarket(ItemIds(listed))])
      ensures report ==
        if listed == [] then (if "get_secondarymarket" in retries then RetryLater else NoneFound)
        else if ItemIds(listed) == [] then NoneUsable
        else Submitted(|ItemIds(listed)|)
    {
      var kwargs := filter["ShowMyItems" := Bool(true)];
      orders := orders + [FetchSecondaryMarket(retryFlag, kwargs)];
      sm, retry := listed, retries;

      var ids: seq<Json> := [];
      var items := sm;
      if items != [] {
        var i := 0;
        while i < |items|
          invariant 0 <= i <= |items|
          invariant ids == ItemIds(items[..i])
          invariant investments == old(investments) && sm == listed && retry == retries
          invariant orders == old(orders) + [FetchSecondaryMarket(retryFlag, kwargs)]
        {
          ItemIdsStep(items, i);
          var id := Subscript(items[i], "Id");
          if id.Some? {
            ids := ids + [id.value];
          }
          i := i + 1;
        }
        assert items[..i] == items;
      } else {
        if "get_secondarymarket" in retry {
          return RetryLater;
        }
        return NoneFound;
      }

      if ids != [] {
        orders := orders + [CancelOnSecondaryMarket(ids)];
        report := Submitted(|ids|);
      } else {
        report := NoneUsable;
      }
    }

    /** place_sm_offers: offers every investment matching `filter` for sale in one call. The price
        is `maxPrice`, or, when a minimum is given, decays towards it as the next payment nears
        the latest selling day, `daysBeforePayment` days after `today`. `held` and `retries` are
        what get_investments leaves in `investments` and `retry`. */
    method PlaceSmOffers(maxPrice: int, minPrice: Option<int>, daysBeforePayment: int, retryFlag: bool,
                         filter: map<string, Json>, today: int, held: seq<Json>, retries: map<string, int>)
      returns (report: Report)
      modifies this
      ensures sm == old(sm) && investments == held && retry == retries
      ensures var latestSell := today + daysBeforePayment;
        var offers := Offers(held, maxPrice, minPrice, latestSell);
        var fetched := old(orders) + [FetchInvestments(retryFlag, filter)];
        if minPrice.Some? && !(1 <= latestSell <= Calendar.MaxOrdinal) then
          report == DateOverflow && orders == fetched
        else if held == [] then
          report == (if "get_investments" in retries then RetryLater else NoneFound) && orders == fetched
        else if offers == [] then
          report == NoneUsable && orders == fetched
        else
          report == Submitted(|offers|) && orders == fetched + [SellOnSecondaryMarket(offers)]
    {
      orders := orders + [FetchInvestments(retryFlag, filter)];
      investments, retry := held, retries;

      var latestSell := today + daysBeforePayment;
      if minPrice.Some? && !(1 <= latestSell <= Calendar.MaxOrdinal) {
        return DateOverflow;
      }

      var offers: seq<Offer> := [];
      var items := investments;
      if items != [] {
        var i := 0;
        while i < |items|
          invariant 0 <= i <= |items|
          invariant offers == Offers(items[..i], maxPrice, minPrice, latestSell)
          invariant sm == old(sm) && investments == held && retry == retries
          invariant orders == old(orders) + [FetchInvestments(retryFlag, filter)]
        {
          OffersStep(items, i, maxPrice, minPrice, latestSell);
          var offer := OfferFor(items[i], maxPrice, minPrice, latestSell);
          if offer.Some? {
            offers := offers + [offer.value];
          }
          i := i + 1;
        }
        assert items[..i] == items;
      } else {
        if "get_investments" in retry {
          return RetryLater;
        }
        return NoneFound;
      }

      if offers != [] {
        orders := orders + [SellOnSecondaryMarket(offers)];
        report := Submitted(|offers|);
      } else {
        report := NoneUsable;
      }
    }
  }
}
