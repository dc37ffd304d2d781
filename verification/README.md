# Titan matching engine: a Dafny model

This project models Titan's order book: a price-time-priority matching engine for a single
symbol. It also models the validation and order construction in front of the engine. The
model covers:

- `OrderBook.ProcessOrder`:
  - the symbol guard;
  - the match loop against the head of the opposite side;
  - trades at the maker's price for `min` of the two remaining quantities;
  - status recomputation;
  - removal of fully consumed heads;
  - resting the remainder and re-sorting its side.
- `OrderBook.GetBids` and `OrderBook.GetAsks`, plus the private helpers `CanMatch`,
  `CreateTrade`, `UpdateOrderStatus` and `SortOrders`.
- `UnsafeOrderBook`:
  - the lock-free twin of `OrderBook.ProcessOrder`, written as a `while` loop;
  - its summing accessors `GetTotalBidQty` and `GetTotalAskQty`.
- `OrderService.CreateOrder`: five fields checked in a fixed order, where the first failure
  decides the message, and a fresh `Pending` order otherwise.
- `OrderEndpoints.SubmitOrder`:
  - the endpoint's copy of the same checks;
  - order construction;
  - turning the book's symbol-mismatch exception into a BadRequest;
  - mapping the order and its trades into the response record.

The book's lock only makes each call atomic. So a call is modelled as one pure transition
`ProcessOrder(book, order, stamp)`, which yields one of two outcomes:

- `SymbolMismatch(message)`, which stands for the thrown `ArgumentException`. The caller keeps
  the book it had.
- `Processed(book', order', trades, makers)`.
  - `order'` is the incoming order after matching.
  - `makers` holds the state, after the call, of each resting order the call touched. In C#
    those orders are mutated in place, and anyone holding a reference sees the change.

Several values are modelled as follows:

- `decimal` is `real`, so it is exact.
- A GUID or a `DateTime` is a `nat`. The caller supplies them:
  - `id` and `now` for a new order;
  - `stamp(i)` for the i-th trade of a call.
- A nullable request string is an `Option<string>`.

Modules:

| file | module | contents |
|---|---|---|
| models.dfy | `Models` | `Order`, `Trade`, the enums, `Result`, quantity sums, status names |
| validation.dfy | `OrderService` | `IsNullOrWhiteSpace`, enum parsing, `CreateOrder` |
| priority.dfy | `PriceTime` | the price-time comparator, `Sorted`, `SortOrders` |
| engine.dfy | `OrderBook` | the book, `CanMatch`, `CreateTrade`, `UpdateOrderStatus`, the match loop, `ProcessOrder` |
| engine_proofs.dfy | `OrderBookProofs` | conservation, trade-shape, sortedness, status and uncrossed-book lemmas |
| unsafe_book.dfy | `UnsafeOrderBook` | the imperative `ProcessOrder` proved equal to `OrderBook.ProcessOrder`, and the summing accessors |
| endpoints.dfy | `OrderEndpoints` | `SubmitOrder` and the response mapping |
| history.dfy | `BookHistory` | conservation over any sequence of calls |
| scenarios.dfy | `Scenarios` | the repository's unit and endpoint tests, restated as concrete lemmas |

## Model

| member | source | states |
|---|---|---|
| Models.Min | Titan.Engine/services/OrderBook.cs:54 | The matched quantity is at most each of the two remaining quantities and equals one of them. |
| OrderBook.NewBook | Titan.Engine/services/OrderBook.cs:17-24 | A new book has the given symbol, no orders, zero resting totals, and satisfies the book invariant. |
| OrderBook.GetBids | Titan.Engine/services/OrderBook.cs:86-92 | The copy has the bids element for element, and on a valid book it is sorted best bid first, all live buys of the book's symbol. |
| OrderBook.GetAsks | Titan.Engine/services/OrderBook.cs:94-100 | The same for the asks, best (lowest) ask first. |
| OrderBook.UpdateOrderStatus | Titan.Engine/services/OrderBook.cs:130-140 | Only the status changes: remaining 0 gives Filled; remaining non-zero and below quantity gives PartiallyFilled; otherwise the status is kept. |
| OrderBook.CanMatch | Titan.Engine/services/OrderBook.cs:102-107 | The incoming order crosses a resting order exactly when the resting price ranks at or ahead of the incoming limit on the resting side: an ask at or below a buy's limit, a bid at or above a sell's limit. |
| OrderBookProofs.CanMatchFollowsPriority | Titan.Engine/services/OrderBook.cs:102-107 | Crossing follows the resting side's price-time order: an incoming order that crosses a resting order also crosses every order that may stand before it. |
| OrderBook.Fill | Titan.Engine/services/OrderBook.cs:59-63 | Executing `qty` lowers remaining by exactly `qty` and changes nothing but remaining and status. A positive fill that the order can cover keeps it consistent and leaves it non-Pending. |
| OrderBook.MismatchMessage | Titan.Engine/services/OrderBook.cs:34 | The message reads "Order symbol ", then the order's symbol, then " does not match OrderBook symbol ", then the book's symbol. Each part can be cut back out at its position. |
| OrderBook.CreateTrade | Titan.Engine/services/OrderBook.cs:109-128 | The price is the maker's. The type is MakerBuy or MakerSell by the maker's side. The buy and sell ids come from whichever order is on that side. Symbol, quantity, id and time are as given. |
| OrderBook.MatchLoop | Titan.Engine/services/OrderBook.cs:43-72 | On exit, the incoming remaining is 0, the opposite side is empty, or its head does not cross. There is one maker state per trade, and the incoming order changes only in remaining and status. |
| OrderBook.ProcessOrder | Titan.Engine/services/OrderBook.cs:26-84 | The call is refused exactly when the symbols differ, with the message "Order symbol X does not match OrderBook symbol Y". Otherwise the book keeps its symbol, and the order changes only in remaining and status. |
| OrderBookProofs.FillWellFormed | Titan.Engine/services/OrderBook.cs:59-63 | Filling part of a well-formed order keeps remaining and status consistent, leaves it non-Pending, and gives Filled exactly at remaining 0. |
| OrderBookProofs.NoMatchBeyondHead | Titan.Engine/services/OrderBook.cs:47-52 | Stopping at the first non-crossing head is sound: on a sorted side no later order crosses either. |
| OrderBookProofs.MatchConservation | Titan.Engine/services/OrderBook.cs:54-71 | The traded total equals the incoming order's drop in remaining, and it equals the opposite side's drop in resting total. |
| OrderBookProofs.MatchTrades | Titan.Engine/services/OrderBook.cs:43-71 | Trade k is CreateTrade of the incoming order with the k-th opposite order, stamped `stamp(n + k)`. Maker k is that order with the trade's quantity filled. |
| OrderBookProofs.MatchQuantities | Titan.Engine/services/OrderBook.cs:54-60 | Trade k's quantity is the minimum of the incoming remaining after the earlier trades and the k-th opposite order's remaining. |
| OrderBookProofs.MatchRemainder | Titan.Engine/services/OrderBook.cs:68-71 | Every maker but the last is exhausted and removed. The opposite side afterwards is the untouched tail, led by the last maker only if it still has quantity. |
| OrderBookProofs.MatchKeepsResting | Titan.Engine/services/OrderBook.cs:43-71 | The opposite side stays sorted and live. The incoming remaining never grows and never goes negative. Every trade has positive quantity. |
| OrderBookProofs.MatchKeepsWellFormed | Titan.Engine/services/OrderBook.cs:59-63 | Orders keep the status their remaining calls for. Touched makers are no longer Pending. The incoming order is unchanged exactly when there is no trade. |
| OrderBookProofs.ProcessedFromLoop | Titan.Engine/services/OrderBook.cs:37-80 | An unfolding of `OrderBook.ProcessOrder`'s own definition that the later proofs use: the opposite side is left as the loop leaves it, and the own side gets the sorted remainder when remaining > 0 and is untouched otherwise. |
| OrderBookProofs.ProcessOrderConservation | Titan.Engine/services/OrderBook.cs:54-80 | Traded quantity = incoming drop = opposite side's drop. The own side grows by exactly the remainder that rests. |
| OrderBookProofs.ProcessOrderRestsIffRemaining | Titan.Engine/services/OrderBook.cs:74-80 | The own side afterwards is the old own side plus the incoming order, as a multiset, if and only if remaining > 0. |
| OrderBookProofs.ProcessOrderMatches | Titan.Engine/services/OrderBook.cs:43-72 | Trades are against the opposite side in book order, at the maker's price and never worse than the taker's limit, with min quantities. The tail is untouched, and the loop exits at a non-crossing head. |
| OrderBookProofs.ProcessOrderKeepsBookValid | Titan.Engine/services/OrderBook.cs:74-80 | A valid book stays valid: both sides stay sorted by price then time, hold only live orders of their side and symbol, and every trade is positive. |
| OrderBookProofs.ProcessOrderExhaustsCrossing | Titan.Engine/services/OrderBook.cs:43-52 | If the incoming order rests, nothing left on the opposite side crosses it. |
| OrderBookProofs.ProcessOrderStatus | Titan.Engine/services/OrderBook.cs:130-140 | Statuses stay consistent with remaining on the order, the makers and both sides. The order is untouched exactly when no trade happens. |
| OrderBookProofs.OppositeHeadNoBetter | Titan.Engine/services/OrderBook.cs:68-71 | The best opposite price never improves through matching. |
| OrderBookProofs.OwnHeadSource | Titan.Engine/services/OrderBook.cs:74-80 | The new own-side head is either the resting remainder or no better than the old head. |
| OrderBookProofs.ProcessOrderKeepsUncrossed | Titan.Engine/services/OrderBook.cs:26-84 | A book whose best bid is below its best ask stays that way after any call. |
| PriceTime.Precedes | Titan.Engine/services/OrderBook.cs:144-159 | `a` may stand before `b` exactly when the side's comparison lambda does not return a positive number for the pair: price compared descending for bids and ascending for asks, then timestamp ascending. Then `a`'s price ranks at or ahead of `b`'s. |
| PriceTime.PrecedesTransitive | Titan.Engine/services/OrderBook.cs:142-160 | The price-then-time comparator is transitive on each side. |
| PriceTime.Insert | Titan.Engine/services/OrderBook.cs:142-160 | A helper of the model's sort, placing one order into a sorted side: it adds exactly that order, as a multiset. |
| PriceTime.InsertSorted | Titan.Engine/services/OrderBook.cs:142-160 | Inserting into a sorted side keeps it sorted. |
| PriceTime.SortOrders | Titan.Engine/services/OrderBook.cs:142-160 | The result is a permutation of the side: bids by price descending, asks by price ascending, equal prices earliest first. |
| PriceTime.SortOrdersKeepsSorted | Titan.Engine/services/OrderBook.cs:142-160 | The model's sort, with its fixed tie order (see PriceTime.SortOrders under Left out), gives back a side that is already in price-time order unchanged. |
| PriceTime.SortedUnique | Titan.Engine/services/OrderBook.cs:142-160 | When no two different orders share price and timestamp, a side has only one sorted arrangement: two sorted permutations of the same orders are equal. |
| PriceTime.SortAgrees | Titan.Engine/services/OrderBook.cs:142-160 | With distinct price-timestamp keys, any sorted permutation of a side, and so whatever the unstable `List.Sort` returns, equals the model's `SortOrders`. |
| PriceTime.SortOrdersTotal | Titan.Engine/services/OrderBook.cs:142-160 | Re-sorting leaves a side's resting total unchanged. |
| UnsafeOrderBook.ProcessOrder | Titan.Engine/services/UnsafeOrderBook.cs:18-63 | Called sequentially, the lock-free loop returns the same rejection, book, order, trades and makers as `OrderBook.ProcessOrder`. |
| UnsafeOrderBook.ResumeStep | Titan.Engine/services/UnsafeOrderBook.cs:39-53 | One iteration of the loop body (trade, decrement, status update, head removal or replacement) advances the match by exactly one step. |
| UnsafeOrderBook.SumRemaining | Titan.Engine/services/UnsafeOrderBook.cs:77 | The loop sums the remaining quantities of a side. |
| UnsafeOrderBook.GetTotalBidQty | Titan.Engine/services/UnsafeOrderBook.cs:75-78 | The bids' total remaining quantity. |
| UnsafeOrderBook.GetTotalAskQty | Titan.Engine/services/UnsafeOrderBook.cs:80-83 | The asks' total remaining quantity. |
| OrderService.IsNullOrWhiteSpace | Titan.Engine/services/OrderService.cs:26 | A symbol is blank exactly when it is null or nothing is left once its leading white space is trimmed. |
| OrderService.TrimStartEmpty | Titan.Engine/services/OrderService.cs:26 | Trimming leaves nothing exactly when every character is .NET white space. |
| OrderService.ParseOrderType | Titan.Engine/services/OrderService.cs:41-44 | Succeeds exactly when the string equals "Limit" or "Market" ignoring ASCII case, and then yields that member. |
| OrderService.ParseOrderSide | Titan.Engine/services/OrderService.cs:46-49 | Succeeds exactly when the string equals "Buy" or "Sell" ignoring ASCII case, and then yields that member. |
| OrderService.ParseOrderTypeRoundTrip | Titan.Engine/services/OrderService.cs:41 | Every casing of a type name parses back to that type. |
| OrderService.ParseOrderSideRoundTrip | Titan.Engine/services/OrderService.cs:46 | Every casing of a side name parses back to that side. |
| OrderService.NewOrder | Titan.Engine/services/OrderService.cs:51-62 | A freshly built order is Pending with remaining = quantity, which is consistent. |
| OrderService.CreateOrder | Titan.Engine/services/OrderService.cs:24-65 | The first failing check, in the order symbol, price, quantity, type, side, gives its fixed message. Success comes exactly when all checks pass, with the given fields, the parsed type and side, Pending and remaining = quantity. |
| OrderEndpoints.ValidateRequest | Titan.Gateway/Endpoints/OrderEndpoints.cs:15-51 | A request that passes validation builds a consistent Pending order with remaining = quantity. |
| OrderEndpoints.ValidateRequestIsCreateOrder | Titan.Gateway/Endpoints/OrderEndpoints.cs:15-51 | The endpoint's checks, messages and order are exactly `CreateOrder`'s on every request. |
| OrderEndpoints.ToTradeResponse | Titan.Gateway/Endpoints/OrderEndpoints.cs:69-79 | Every field of the trade, its type included, can be read back from the response record. |
| OrderEndpoints.ToTradeResponses | Titan.Gateway/Endpoints/OrderEndpoints.cs:69-79 | One response record per trade, in order, each reading back to its trade. |
| OrderEndpoints.ToResponse | Titan.Gateway/Endpoints/OrderEndpoints.cs:63-80 | The response carries the order's id, symbol and remaining quantity. Its status name reads back to the order's status. It holds one record per trade, in order, each reading back to its trade. |
| OrderEndpoints.SubmitOrder | Titan.Gateway/Endpoints/OrderEndpoints.cs:11-83 | Invalid requests get CreateOrder's message, and a symbol mismatch gets the book's message. Both leave the book as it was. Otherwise the book moves on, and the response carries the id, symbol, status name and remaining as this call's own matching leaves them, plus the trades one to one. |
| Models.StatusName | Titan.Gateway/Endpoints/OrderEndpoints.cs:67 | A status's name reads back to that status, so distinct statuses print differently. |
| Models.TradeTypeName | Titan.Gateway/Endpoints/OrderEndpoints.cs:78 | A trade type's name reads back to that type. |
| Models.TotalTradedAppend | Titan.Engine/services/OrderBook.cs:57 | The traded total of two runs of trades is the sum of their totals. |
| BookHistory.RunConservation | Titan.Engine/services/OrderBook.cs:26-84 | Over any sequence of fresh orders (new values, see object identity under Left out), the book stays valid. Per side, the starting total plus the submitted quantity equals the traded quantity plus the final total. |
| Scenarios.OtherSymbolRejected | tests/Titan.Engine.Tests/Services/OrderBookTests.cs:22-30 | An ETHUSD order on the BTCUSD book is refused. The message reads "Order symbol ", then "ETHUSD", then " does not match OrderBook symbol ", then "BTCUSD". |
| Scenarios.BuyOnEmptyBookRests | tests/Titan.Engine.Tests/Services/OrderBookTests.cs:32-44 | A buy on an empty book trades nothing and becomes the only bid. |
| Scenarios.BuyFillsEqualSell | tests/Titan.Engine.Tests/Services/OrderBookTests.cs:60-77 | An equal buy against a resting sell gives one MakerSell trade at 100 for 1, and both sides of the book are empty. |
| Scenarios.EqualOrdersBothFilled | tests/Titan.Engine.Tests/Services/OrderBookTests.cs:221-233 | In the same situation the buy and the one touched sell both end Filled. |
| Scenarios.PartialFillRests | tests/Titan.Engine.Tests/Services/OrderBookTests.cs:98-113 | A buy of 5 against a sell of 2 trades 2. It rests PartiallyFilled with 3 left, and the sell is Filled. |
| Scenarios.EarlierSellMatchesFirst | tests/Titan.Engine.Tests/Services/OrderBookTests.cs:115-132 | Two equal-priced sells are taken earliest first, and the book empties. |
| Scenarios.NoCrossBothRest | tests/Titan.Engine.Tests/Services/OrderBookTests.cs:134-147 | A buy below the ask trades nothing, and both orders rest. |
| Scenarios.TradeAtMakerPrice | tests/Titan.Engine.Tests/Services/OrderBookTests.cs:206-219 | A buy at 105 against a sell at 100 trades at 100. |
| Scenarios.BidsByPriceThenTime | tests/Titan.Engine.Tests/Services/OrderBookTests.cs:164-183 | Bids at 100, 101 and 100 rest as 101, then the earlier 100, then the later 100. |
| Scenarios.EndpointFilledAgainstRestingSell | tests/Titan.Gateway.Tests/Endpoints/OrderEndpointsTests.cs:78-113 | Through the endpoint, a "Limit"/"Buy" request meeting an equal resting sell answers Filled and remaining 0, with one MakerSell trade of 0.75 at 60000 on BTC/USD. |
| Scenarios.EndpointCaseInsensitive | tests/Titan.Gateway.Tests/Endpoints/OrderEndpointsTests.cs:281-319 | Type "LiMiT" and side "BuY" are accepted and build a Pending limit buy with the request's fields. |
| Scenarios.EndpointBlankSymbol | tests/Titan.Gateway.Tests/Endpoints/OrderEndpointsTests.cs:193-213 | A whitespace symbol is refused with "Symbol is required" before the other invalid fields are looked at. |

## Left out

- The `lock` in `OrderBook` and the race demonstration in the simulator. Each call to `ProcessOrder` is one atomic transition, and interleavings of the unlocked book are not modelled.
- Logging calls. They have no effect on the result.
- `Guid.NewGuid()` and `DateTime.UtcNow`. They are parameters, so uniqueness of ids and monotonicity of time are not modelled.
- `OrderService.CreateTrade` and the EF persistence (`TradeDbContext`, `TradeEntity`). This is database I/O.
- The simulator (load generator, order generator, telemetry, configuration) and the `Program.cs` wiring. This is I/O, randomness and concurrency.
- ASP.NET routing, JSON binding and `TypedResults` plumbing. The endpoint is modelled as a function from a request and a book to a response and the next book.
- OrderService.ParseOrderType: models `Enum.TryParse` with `ignoreCase` as an ASCII case-insensitive name match only. Numeric strings such as "0", comma-separated lists, surrounding whitespace and non-ASCII case folding are not modelled.
- OrderService.ParseOrderSide: the same restriction as `ParseOrderType`.
- PriceTime.SortOrders: `List.Sort` is unstable. Orders with equal price and equal timestamp may come out in either order, so only sortedness and permutation are promised, not a particular tie order. `PriceTime.SortAgrees` shows the tie order is all that differs: with distinct keys every correct sort gives the model's result.
- `decimal` range and rounding. A `real` has no 28-digit limit and no overflow, so the `OverflowException` a huge sum could raise is not modelled. Neither is rounding: `decimal` results keep about 28 significant digits, so a subtraction such as `RemainingQuantity -= matchedQuantity` between operands of very different scales can round, where `real` is exact.
- Object identity and aliasing. In C# an `Order` is a mutable object shared by the book, its callers and its snapshots; here orders are values. Two C# effects therefore have no counterpart in the model (a third, the endpoint reading the order back without the lock, is under OrderEndpoints.SubmitOrder below):
  - a list returned by `GetBids` or `GetAsks` holds the same objects as the book, so it shows later fills, and a caller can change a resting order's fields through it;
  - resubmitting an order that is still resting puts that one object on its side twice. A later match then meets it again with 0 remaining and records a trade of quantity 0, where the model trades the value twice.
  The theorems (`ProcessOrderKeepsBookValid`'s positive trades, `BookHistory.RunConservation`) hold for the C# book only when every submitted order is a new object and no caller mutates a resting order. `RunConservation`'s "fresh" means remaining = quantity, which a resubmitted untouched order also meets. `OrderEndpoints.SubmitOrder` builds a new order for every request, so the gateway path meets the assumption.
- Market orders. The matching code never reads the order type, so they behave exactly as limit orders. The model carries the type but gives it no separate behaviour.
- `UnsafeOrderBook.GetBids`, `GetAsks` and its private helpers. They are the same code as `OrderBook`'s and use the same definitions.
- The enums' underlying numeric values. `Enum.TryParse` would also accept them, for example "0" for `Limit`. The model parses member names only.
- OrderEndpoints.SubmitOrder: the endpoint reads the order's status and remaining after `ProcessOrder` has released the book's lock. The gateway's book is a singleton and requests arrive concurrently, so another request can fill the order once it rests, and the response can then show that fill (for example Filled, remaining 0, no trades). The model's response is the state right after this call's own matching; fills by other requests between the two steps are not modelled.
- OrderBook.ProcessOrder: with a mismatched symbol the model returns no book, and "the book is unchanged" holds because the caller keeps the book it passed in. `OrderEndpoints.SubmitOrder` states this explicitly.
