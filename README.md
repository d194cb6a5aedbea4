# Bondora trading rules and webhook maintenance, in Dafny

This project models the decision layer of a small automated-investing client for the Bondora
peer-to-peer lending marketplace. It also proves properties of that layer.

`bondora/trading/bondora_trading.py` (`BondoraTrading`) is modelled in `trading.dfy`, module
`Trading`:

- **Webhook handlers.** `bid_loan`, `buy_green_loan` and `buy_red_loan` are pure functions. Each
  takes a decoded JSON event and returns an `Effect`: the marketplace calls issued and whether
  the audit line was appended. Every Python exception the handlers swallow (a missing key, a
  non-dict, a comparison of a string with a number, a malformed date) is an `Option` that is
  `None`. Python's short-circuiting `and` over conditions that may raise is `And`.
- **Batch jobs.** `cancel_sm_offers` and `place_sm_offers` are methods of the class `Trader`.
  Its fields are the snapshots the marketplace client leaves behind (`investments`, `sm`,
  `retry`) and the trace of calls made (`orders`). Their loops collect item IDs and
  (loan part, price) offers in order and skip the items that raise. Each loop is proved against
  the specification function `Collect`.

`bondora/hooks/application.py` (`BondoraApplication`) is modelled in `webhooks.dfy`, module
`Webhooks`:

- **State.** The class `Application` keeps the source's `signedup` and `webhooks` fields and
  the trace of POSTs sent through the session.
- **Scraping.** `get_webhooks` logs in and reads the webhook table. It is split into the header
  loop (`FindColumns`) and the row loop (`ReadRows`). Each is proved against a function
  (`ColumnsOf`, `ParseRows`).
- **Resetting.** `reset_webhooks` posts the "send test" button of every webhook whose failure
  count is above the threshold. Its loop is `SendPings`, which stops at the first POST that
  raises.

Supporting modules model the Python behaviour these rules depend on:

- `pyjson.dfy`: decoded JSON, subscripting, numeric comparison and truthiness.
- `pytext.dfy`: `str.strip()` and `int()`.
- `calendar.dfy`: `date.fromisoformat`, `datetime.strptime(..., '%Y-%m-%dT00:00:00')` and date
  arithmetic. Dates are proleptic day ordinals, so adding a `timedelta` of days is addition.
- `wrappers.dfy`: the `Option` type.

The batch job that places offers follows the evidently intended reading of its minimum price,
not the code as written. The docstring of `place_sm_offers`
(`bondora/trading/bondora_trading.py:262-264`) offers everything at `max_price` only when
`min_price` is not specified. The example script passes `min_price = 0`, commented "minimal
selling price (0%)" (`bondora/examples/offer_green_loans.py:21-22`). The code's `if min_price:`
treats that 0 like no minimum at all. `Trader.PlaceSmOffers` lets any given minimum, 0
included, make prices decay. The code as written is modelled beside it, as described under
"## Findings".

## Model

| member | source | states |
|---|---|---|
| Trading.AcceptedPayloadMeaning | bondora/trading/bondora_trading.py:87-94 | the handler reaches its rule exactly when the event is a dict whose `EventType` is one of the two secondary-market types and that has a `Payload`, and the rule then sees that `Payload` |
| Trading.GreenSelectorMeaning | bondora/trading/bondora_trading.py:97-122 | the Python evaluation of `loan_selector`, exceptions and short-circuits included, is True exactly when all eleven green conditions hold field by field, the next payment being more than 10 days after today |
| Trading.RedSelectorMeaning | bondora/trading/bondora_trading.py:167-171 | `loan_selector` is True exactly when `DesiredDiscountRate <= -94.0` and `Price <= 5.0` both hold |
| Trading.BuyGreenLoan | bondora/trading/bondora_trading.py:84-138 | nothing happens for an event of another type; exactly one purchase of `[Payload['Id']]` is requested when the payload meets the green rule and has an `Id`, and none otherwise; the audit line is written exactly when the purchase is requested and the line's text can be built |
| Trading.BuyRedLoan | bondora/trading/bondora_trading.py:154-188 | the same as BuyGreenLoan, with the red rule |
| Trading.BidLoan | bondora/trading/bondora_trading.py:46-68 | for every event, no bid is placed and no bid log is written |
| Trading.GreenNeedsEveryField | bondora/trading/bondora_trading.py:98-125 | an accepted event whose payload lacks any field the green rule or the purchase reads, or whose `NextPaymentDate` is not an ISO date, leads to no order and no log |
| Trading.GreenExample | bondora/trading/bondora_trading.py:97-134 | a current loan paying 15% whose next payment is two months away is bought once and logged |
| Trading.GreenExampleDeclined | bondora/trading/bondora_trading.py:117 | the same loan paying 10% is not bought |
| Trading.RedExample | bondora/trading/bondora_trading.py:167-174 | a 95% discount at price 3 is bought; at price 10 it is not |
| Trading.DecayedPrice | bondora/trading/bondora_trading.py:308-313 | with a minimum no larger than the maximum the price lies between them; it is the minimum when the next payment is on or before the latest selling day, the maximum when the linear term exceeds it, and the linear term in between |
| Trading.DecayedPriceMonotone | bondora/trading/bondora_trading.py:308-313 | a later next payment never lowers the price, and each day raises it by at most one point |
| Trading.OffersKeepOrder | bondora/trading/bondora_trading.py:299-316 | at most one offer per investment; one for every investment exactly when none raises, and then the i-th offer is that of the i-th investment |
| Trading.OffersComeFromInvestments | bondora/trading/bondora_trading.py:301-316 | every offer is the offer built from one of the investments |
| Trading.OfferPricesBounded | bondora/trading/bondora_trading.py:304-314 | when a minimum price no larger than the maximum is given, every offered price lies between the two |
| Trading.OfferPricesAtMaximum | bondora/trading/bondora_trading.py:290-314 | without a minimum price, every investment is offered at the maximum price |
| Trading.ZeroMinimumIgnoredAsWritten | bondora/trading/bondora_trading.py:294-314 | under the test as written, a minimum of 0 or None offers every investment at the maximum price |
| Trading.SampleOffer | bondora/trading/bondora_trading.py:304-314 | an investment paying on the latest selling day is offered at the maximum 5 without a minimum, and at the minimum 0 with one |
| Trading.ZeroMinimumCounterexample | bondora/trading/bondora_trading.py:294-313 | for maximum 5, minimum 0 and a payment on the latest selling day, the code as written offers at 5 where the decay gives 0; for every other minimum the two readings agree |
| Trading.CollectAppend | bondora/trading/bondora_trading.py:223-229 | collecting distributes over concatenation, so each item contributes in its own place |
| Trading.ItemIdsCount | bondora/trading/bondora_trading.py:223-229 | at most one ID per item; all are collected exactly when every item has an `Id`, and none exactly when none has |
| Trading.ItemIdsKeepOrder | bondora/trading/bondora_trading.py:223-229 | when every item has an `Id`, the IDs are collected in listing order |
| Trading.Trader.constructor | bondora/trading/bondora_trading.py:28-30 | a new trader holds the user, no snapshots and no calls |
| Trading.Trader.CancelSmOffers | bondora/trading/bondora_trading.py:212-252 | the fetch is issued with `ShowMyItems` forced to True; an empty listing ends early (a retry notice when the fetch was rate-limited); otherwise one cancel call carries the `Id`s of the listed items in order, and none is issued when no item has an `Id` |
| Trading.Trader.PlaceSmOffers | bondora/trading/bondora_trading.py:287-341 | the fetch is issued; an out-of-range latest selling date escapes as an error; an empty holding ends early; otherwise one sell call carries exactly the offers `Offers` builds, in investment order, and none is issued when every investment raises |
| PyJson.Take | bondora/trading/bondora_trading.py:98 | `s[:10]` is a prefix of `s` of at most 10 characters: exactly 10 when `s` is that long, and all of `s` when it is shorter |
| Calendar.OrdinalOrder | bondora/trading/bondora_trading.py:121 | comparing day ordinals orders dates as Python compares them, and every valid date lies between `date.min` and `date.max` |
| Calendar.StrptimeAgreesWithIso | bondora/trading/bondora_trading.py:305-307 | on `YYYY-MM-DDT00:00:00`, strptime gives the day fromisoformat gives on `YYYY-MM-DD` |
| Calendar.FromIsoFormatReadsIsoText | bondora/trading/bondora_trading.py:98 | `date.fromisoformat` reads the zero-padded `YYYY-MM-DD` text of every valid date as that date's day number |
| Calendar.FromIsoFormatOnlyIsoText | bondora/trading/bondora_trading.py:98 | `date.fromisoformat` accepts no other text: whatever it reads is the `YYYY-MM-DD` text of a valid date, read as that date's day number |
| Calendar.IsoExample | bondora/trading/bondora_trading.py:98 | `2021-03-01` is read as that day |
| Calendar.IsoRejectsInvalidDay | bondora/trading/bondora_trading.py:98 | `2021-02-29` is rejected |
| Calendar.StrptimeExample | bondora/trading/bondora_trading.py:305-307 | `2021-03-01T00:00:00` is read as 2021-03-01 |
| PyText.StripMeaning | bondora/hooks/application.py:85 | `strip()` keeps the slice between a whitespace prefix and a whitespace suffix, and that slice neither starts nor ends with whitespace |
| PyText.StripIdempotent | bondora/hooks/application.py:101 | stripping a stripped text changes nothing |
| PyText.StripThenParseExample | bondora/hooks/application.py:103-104 | a failure count padded with a space and a newline reads as 12 |
| PyText.ParseIntOfDecimal | bondora/hooks/application.py:103-104 | `int()` reads back the decimal text of every integer, negative ones included |
| Webhooks.ColumnIndexMeaning | bondora/hooks/application.py:84-93 | the column found for a title is the last header whose stripped text is that title, and none is found exactly when no header reads that title |
| Webhooks.FindColumns | bondora/hooks/application.py:83-93 | the header loop leaves the positions of `Name` and `Failures` and the position after `Info`, a later duplicate overriding an earlier one |
| Webhooks.ColumnsExample | bondora/hooks/application.py:83-93 | the headers `Name`, `Failures`, `Info` put the button in the fourth cell |
| Webhooks.ParseRowsMeaning | bondora/hooks/application.py:96-109 | the rows are read exactly when each row can be read, and then yield one record per row, in row order |
| Webhooks.ReadRows | bondora/hooks/application.py:95-109 | the row loop yields the records of the data rows in order, or gives up at the first row that raises |
| Webhooks.SampleRowParses | bondora/hooks/application.py:99-107 | a row reads as its stripped name, the `int()` of its failure cell and its button's form id |
| Webhooks.ParseTableExample | bondora/hooks/application.py:78-109 | a table with one header row and one data row yields that row's webhook |
| Webhooks.OverdueSelects | bondora/hooks/application.py:138-140 | the webhooks chosen for a reset are exactly those whose failure count is strictly above the threshold |
| Webhooks.OverdueAppend | bondora/hooks/application.py:138-140 | choosing distributes over concatenation, so the choice keeps list order |
| Webhooks.OverduePrefix | bondora/hooks/application.py:137-155 | the choice made over a prefix of the list is a prefix of the choice over the whole list |
| Webhooks.PingUrls | bondora/hooks/application.py:142-144 | each reset POST goes to `url_button + '/' + button_id` of its own webhook |
| Webhooks.AttemptedCut | bondora/hooks/application.py:137-155 | when the ping of a webhook raises, the pings sent are those of the overdue webhooks up to and including it |
| Webhooks.SendPings | bondora/hooks/application.py:137-155 | in list order, one POST to `url_button/<button id>` for each webhook above the threshold, stopping after the first POST that raises |
| Webhooks.Application.constructor | bondora/hooks/application.py:16-28 | a new client is not signed up, has no webhooks and has sent nothing |
| Webhooks.Application.GetWebhooks | bondora/hooks/application.py:58-120 | once signed up, nothing is sent and nothing changes; otherwise one login POST is sent, `signedup` becomes true exactly when it answers 200 (and stays true if the table then fails to parse), and `webhooks` takes the parsed list only when the parse succeeds with at least one record |
| Webhooks.Application.ResetWebhooks | bondora/hooks/application.py:122-155 | with the threshold 10 unless given, the POSTs sent are those of SendPings over the stored list (none when it is None or empty); `signedup` and `webhooks` are unchanged |

## Left out

- Logging: the `logger` calls and the messages they print are not modelled.
- `time.sleep(1)` at the start of both batch jobs is not modelled.
- The audit log files are not modelled as files. Appending a line is the `logged` flag of an `Effect`, and opening the file is assumed to succeed. The timestamp text and the file name are not modelled.
- The marketplace client (`bondora/api/bondora_api.py`) is not part of this model. `get_investments` and `get_secondarymarket` are inputs: the values they leave in `investments`, `sm` and `retry`. The buy, sell, cancel and bid calls are entries in the `orders` trace. A call that raises is still recorded as issued.
- Chunking of bulk orders and the rate-limit retry are not in the core files and are not modelled.
- The status code of the sell and cancel answers is only logged, so it is not modelled.
- `datetime.now()` and `date.today()` are a day-ordinal parameter `today`. The time of day does not affect `(now + 10 days).date()`.
- `date.fromisoformat` accepts exactly `YYYY-MM-DD`, as in Python 3.7 to 3.10. The wider formats of Python 3.11 are not modelled.
- `int()` and `strptime` accept ASCII digits only. Other Unicode decimal digits are not modelled.
- JSON numbers are reals. IEEE floating point, NaN and infinities are not modelled. The rules only compare numbers with constants.
- `max_price`, `min_price` and `days_before_payment` are integers, as the docstring of `place_sm_offers` says. Fractional prices are not modelled.
- `kwargs` is always a dict, so the `else` branch at `bondora/trading/bondora_trading.py:218-219` cannot run and is not modelled.
- A `None` snapshot in `sm` or `investments` is modelled as an empty list. Both are falsy and both end the job early. The source's constructor does not create `investments`, `sm` or `retry` at all; the fetch methods create them. The model starts them as `[]` and `map[]`, which no job reads before its fetch overwrites them.
- HTML parsing with BeautifulSoup is abstracted. A page is a status code and the rows of the `table table-striped`. A row is its header texts and its cells. A cell is its text and the `data-id` of its first form.
- HTTP is abstracted. A login that raises is a `None` response. A ping that raises is the index `failAt`. The request headers and the status of a ping answer are not modelled, since the ping status is only logged.
- The session creation and `sys.exit(-1)` in the constructor of `BondoraApplication` are not modelled.
- Trading.Trader.PlaceSmOffers: follows the corrected test `min_price is not None`. The code as written is this job with `FloorAsWritten(minPrice)` in place of `minPrice`, both in the overflow guard and in `Offers`. With `min_price=0` it therefore never raises the date OverflowError and offers every investment at `max_price`. `ZeroMinimumIgnoredAsWritten` and `ZeroMinimumCounterexample` state that for the offer list.
- Webhooks.Application.ResetWebhooks: it appends the pings to `requests` once, after the loop, where the source posts them one by one. No other state is read or written in between.
- `bondora/hooks/listener.py` (the Flask ingress and its HTTP 400 answer), the scripts under `bondora/examples/`, `bondora/setup_logger.py` and `bondora/api/urls.py` are not part of this model.

## Findings

| source | as written | input that shows it | evidently intended | confidence | as-written member | corrected member |
|---|---|---|---|---|---|---|
| bondora/trading/bondora_trading.py:294 | `if min_price:`, here and at line 304, tests truthiness, so `min_price=0` counts as "no minimum" and every investment is offered at `max_price` | `max_price=5`, `min_price=0`, next payment on the latest selling day: offered at 5 | a given minimum, 0 included, makes the price decay to it: offered at 0 (the docstring ties the `max_price`-only case to `min_price` "not specified") | medium, not executed | Trading.ZeroMinimumCounterexample | Trading.Trader.PlaceSmOffers |
