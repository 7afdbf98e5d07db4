# A verified model of the matching engine, its server and its clients

This project models the trading system around one limit order book and proves what it is for:

- the book itself, as the mutable structure of price levels, index and stamp counter, and as the flat
  priority list it stands for, and what the book promises in prices and stamps alone (`Orders`, `Matching`,
  `Book`, `BookLaws`, `PriceTime`, `PriceLevels`, `Snapshots`, `OrderBook`);
- the wire protocol, the framing loop, and the server as a state machine over the book with a second
  index and a fill fan-out, with all that any number of clients are sent (`Wire`, `Framing`, `ServerSpec`,
  `Routing`, `Server`, `Traffic`);
- the two-sided quoter, its session loop, the closed loop of quoter and book, and that loop carried over
  the wire to the server (`Quoter`, `ClosedLoop`, `Session`);
- the FIX 4.2 NewOrderSingle builder and parsers, and exactly which messages pass (`Fix`, `FixLaws`,
  `FixVerdicts`, `FixMessages`);
- position accounting in both implementations, the backtest report, the risk limit and the delta
  hedger (`Position`, `Report`, `Consumers`);
- the batch option pricer, and what its formulas are (`Pricing`, `PricingLaws`).

Code that changes things step by step is a class or a method with loops (`OrderBook`, `Server`,
`FixedOffsetQuoter`, `Loop`, `PositionTracker`, `PositionReplay`, `DeltaHedger`, the FIX and wire
methods, the batch pricer). Each method is proved equal to a function on values, and the laws are lemmas
about those functions. Run `dafny verify dfyconfig.toml` here to check everything.

## How the source's world appears

- An order, a fill, a price level, a wire message and a FIX field are datatypes. `std::map` with its
  first key is a map with `PriceLevels.Best`; `std::deque` is a sequence; the hash maps are maps.
- Sockets are a log of (descriptor, message); a received chunk is any sequence of bytes. A market feed is
  any sequence of integers, and the delay of fills any sequence of numbers.
- Prices on the wire are 64-bit two's complement, quantities 32-bit; `static_cast`, wrap-around and
  the `as u32` of the flatten order are written out. Inside the book integers are unbounded.
- Python and Rust floats are reals; Rust's `as i64` truncates towards zero and Python's `round` goes to the
  nearest integer, ties to even. In the pricer the arithmetic itself is a parameter, and so are `exp`,
  `ln` and `sqrt`.
- FIX text is bytes, with the UTF-8 decoding of the Rust standard library spelled out.

## What turned out not to hold

Each of these is proved with the exact condition, and the code is modelled as it is.

- *A corrupted FIX message is always rejected.* True for every byte before the trailer, of any accepted
  message. In the trailer of a built message two replacements go unnoticed: the final delimiter may become
  any other ASCII character, and a leading `0` of the checksum may become `+`, because Rust's number parser
  takes a sign (`FixLaws.BuiltCorruption`).
- *The FIX parser returns an error on bad input.* It panics in two cases and no others: the third checksum
  byte is followed by a UTF-8 continuation byte, so a string is sliced inside a character; or, in a build
  that checks overflow, which is what `cargo build` and `cargo test` make of risk/Cargo.toml, the trailer
  directly follows the BodyLength field and `marker_pos - body_start` is negative
  (`FixLaws.PanicsExactlyWhen`, `FixLaws.ParserCanPanic`, `FixLaws.ParserCanUnderflow`). On every message of
  the second kind a wrapping build counts zero and goes on; on all others both builds agree
  (`FixLaws.ProfilesAgree`).
- *Whatever the builder prints is read back.* It is if and only if no string holds the delimiter, which the
  builder does not look for, and a limit order has its price (`FixLaws.RoundTrip`).
- *The quoter knows what rests.* It over-approximates: a quote filled on arrival goes on being believed,
  because a fill names the resting id; with every fill delivered, exactly the believed orders that no fill
  names as incoming rest (`ClosedLoop.BeliefExactWhen`, `ClosedLoop.BeliefCanOutliveOrder`).
- *The two P&L implementations agree.* Net position and average do. Realized P&L is the same all along a run
  if and only if, on every trade, what truncating the average loses on the contracts closed is less than
  half a tick, or exactly half a tick while the P&L booked with the truncated average is even (`Position.DeltasAgree`,
  `Position.SameExactlyWhen`); `Position.ImplementationsDiffer` are runs on which they are as far apart as one likes.
- *A flatten order brings the position to zero.* Exactly when the position fits in 32 bits and the book
  holds enough (`Consumers.FlattenReachesZero`).
- *Put-call parity holds exactly for any parameters* (a comment in risk/src/pricing.rs:240). The approximated
  distribution is not one half at zero. So in exact arithmetic, with exp(0) = 1, parity holds if and only if
  d1 is not zero or the spot is, and d2 is not zero or the discounted strike is; with both d1 and d2 zero, if
  and only if spot and discounted strike are equal (`Pricing.ParityExactlyWhen`). It fails at the money with a
  rate of minus half the variance (`Pricing.ParityCanFail`, at numbers that are exact in binary).

One document disagrees with the code: docs/socket-service-design-doc.md gives messages of 33 and 36 bytes and
a fill without its side; the code has 22 and 37 bytes and the side, and one more client message. The model
follows the code.

## Model

| member | source | states |
|---|---|---|
| Matching.AllocationLaw | engine/src/order_book.cpp:7-75 | the i-th resting order in priority order trades exactly min(its size, what earlier crossing orders left), at its own price, in list order, none without an allocation; the rest of the list, the remainder and the traded total follow; prices only worsen, never past a limit, and nobody fills twice |
| PriceTime.FillsWithinLimit | engine/src/order_book.cpp:14-16 | no fill of a limit buy is above its price, none of a limit sell below |
| PriceTime.LeftoverUncrossed | engine/src/order_book.cpp:10-40 | with quantity left, a market order has emptied the other side, and all that still rests there is strictly beyond a limit order's price |
| PriceTime.PriceTimePriority | engine/src/order_book.cpp:10-37 | when an order trades, every order of a better price, or of the same price and an earlier stamp, has traded in full |
| PriceTime.FillsMean | engine/src/order_book.cpp:18-32 | each fill names the incoming order, a resting order at that order's price and for no more than it had, and the next stamp; no resting order fills twice |
| PriceTime.OwnSideAfter | engine/src/order_book.cpp:77-102 | on its own side an accepted order adds exactly what is left of it, if it is a limit order, stamped on arrival; a resting id changes nothing |
| PriceTime.OtherSideAfter | engine/src/order_book.cpp:18-40 | on the other side an order rests afterwards iff it rested before with more than was taken from it, and with the difference |
| PriceTime.ValidMeans | engine/include/orderbook/order_book.hpp:53-61 | a valid book lists bids by falling and asks by rising price, by stamp within a price, all limited, positive and stamped in the past, every bid below every ask |
| Matching.MatchKeepsSide | engine/src/order_book.cpp:7-75 | matching keeps the opposite side valid, adds no id and no price, and stops with quantity left only when nothing crosses |
| BookSpec.SubmitKeepsValid | engine/src/order_book.cpp:77-102 | a submission keeps the book valid: priority order, distinct ids, positive sizes, increasing stamps, best bid below best ask |
| BookSpec.CancelKeepsValid | engine/src/order_book.cpp:104-132 | so does a cancel |
| BookSpec.RunKeepsValid | engine/src/order_book.cpp:77-132 | every run of submissions and cancels keeps the book valid |
| BookLaws.RunConserves | engine/src/order_book.cpp:18-32 | per side over any run: resting at the start plus accepted equals resting at the end plus filled plus cancelled plus dropped |
| BookLaws.MatchSplits | engine/src/order_book.cpp:10-37 | matching a then b leaves and takes from every resting order what matching a + b does |
| BookLaws.SubmitSplits | engine/src/order_book.cpp:77-102 | two fresh submissions of a and b leave the opposite side, the quantity at every price and what each resting order lost as one submission of a + b |
| BookLaws.MirrorRun | engine/src/order_book.cpp:42-75 | negating prices and swapping sides commutes with every run, fills and final book included: the sell loop is the mirror of the buy loop |
| BookLaws.CancelRemovesExactly | engine/src/order_book.cpp:104-132 | a cancel succeeds iff the id rests; then exactly that order is gone and all others keep their place; otherwise nothing changes |
| BookLaws.CancelUndoesSubmit | engine/src/order_book.cpp:86-130 | resting a fresh non-crossing limit order and cancelling it restores both sides |
| PriceLevels.FlatInsert | engine/src/order_book.cpp:88-98 | queueing at the back of a price level is inserting behind every order at least as good in the flat list |
| PriceLevels.FlatRemove | engine/src/order_book.cpp:113-121 | erasing from a level is removing from the flat list |
| Snapshots.SideSnapshot | engine/src/order_book.cpp:148-166 | the entries are the best prices of the side, best first, as many as exist up to depth, each with its order count and its total modulo 2^32 |
| Snapshots.SnapshotUnique | engine/src/order_book.cpp:148-166 | only one list of entries meets that description |
| OrderBooks.IndexDetermined | engine/include/orderbook/order_book.hpp:53-61 | the index of resting ids is determined by the book it belongs to |
| OrderBooks.OrderBook.constructor | engine/include/orderbook/order_book.hpp:53-61 | a new book is valid and empty |
| OrderBooks.OrderBook.MatchBuy | engine/src/order_book.cpp:7-40 | the nested loops over ask levels end and give exactly the fills, the asks, the remainder and the stamps of flat matching; bids untouched, index exact, no empty level |
| OrderBooks.OrderBook.MatchSell | engine/src/order_book.cpp:42-75 | the same over bid levels |
| OrderBooks.OrderBook.MatchAskLevel | engine/src/order_book.cpp:17-33 | the inner loop empties the level or uses up the order, trade by trade as flat matching does |
| OrderBooks.OrderBook.MatchBidLevel | engine/src/order_book.cpp:52-68 | the same for a bid level |
| OrderBooks.OrderBook.Submit | engine/src/order_book.cpp:77-102 | the mutable book refines submission to the flat book, fills and refusal of a resting id included, and stays valid; no fill is past the order's limit, and with quantity left nothing within it rests |
| OrderBooks.OrderBook.Cancel | engine/src/order_book.cpp:104-132 | the mutable book refines cancellation, the level and the order the index points to always being there |
| OrderBooks.OrderBook.Contains | engine/src/order_book.cpp:134-136 | true exactly for resting ids |
| OrderBooks.OrderBook.BestBid | engine/src/order_book.cpp:138-141 | the highest price among the bids, none iff there are none |
| OrderBooks.OrderBook.BestAsk | engine/src/order_book.cpp:143-146 | the lowest price among the asks, none iff there are none |
| OrderBooks.OrderBook.Snapshot | engine/src/order_book.cpp:148-166 | both halves of the depth snapshot meet their description, at most depth entries each, bids falling and asks rising |
| OrderBooks.OrderBook.BestBidBelowBestAsk | engine/src/order_book.cpp:138-146 | the book is never crossed or locked |
| Wire.Put | engine/src/protocol.cpp:13-28 | writes the value big-endian at the cursor and nothing else |
| Wire.Get | engine/src/protocol.cpp:16-29 | shift-and-add reads the big-endian value, nothing shifted out |
| Wire.OrderRoundTrip | engine/src/protocol.cpp:44-62 | decoding an encoded order gives it back, signed prices included |
| Wire.OrderPayloadsUnique | engine/src/protocol.cpp:44-62 | every 22-byte payload is the encoding of what it decodes to |
| Wire.EncodeOrderInto | engine/src/protocol.cpp:44-51 | the cursor writes put exactly the encoding into the buffer |
| Wire.DecodeOrderFrom | engine/src/protocol.cpp:53-62 | the cursor reads give the decoded order, whose encoding is the payload |
| Wire.EncodeFillInto | engine/src/protocol.cpp:74-82 | the cursor writes put exactly the encoding of a fill into the buffer |
| Wire.OrderLayout | engine/src/protocol.cpp:44-62 | the fields of an order at their offsets, big-endian, the price in two's complement |
| Wire.FillLayout | engine/src/protocol.cpp:74-94 | the fields of a fill at their offsets |
| Wire.AckLayout | engine/src/protocol.cpp:96-110 | the fields of an ack at their offsets |
| Wire.RustOrderLayout | risk/src/protocol.rs:115-124 | the bytes of the Rust client's order: tag 1, byte 0 for a buy and for a limit order, 1 for the others |
| Wire.FillRoundTrip | engine/src/protocol.cpp:74-94 | decoding an encoded fill gives it back |
| Wire.AckRoundTrip | engine/src/protocol.cpp:96-110 | decoding an encoded ack gives it back |
| Wire.RustOrderUnderstood | risk/src/protocol.rs:115-124 | the engine decodes an order the Rust client encoded to the same order, behind its tag |
| Wire.FillUnderstoodByRust | risk/src/protocol.rs:147-156 | the Rust client decodes the engine's fill to the same fill |
| Framing.ChunkIndependent | engine/src/server.cpp:187-222 | any chunks read one after the other give the requests, the leftover and the open or closed state of all bytes at once |
| Framing.EncodedRequestsReadBack | engine/src/server.cpp:191-222 | any list of encoded requests is read back exactly, nothing left over |
| Framing.ChunkedRequestsReadBack | engine/src/server.cpp:187-222 | also when cut into chunks anywhere |
| ServerSpec.ReachableIsGood | engine/src/server.cpp:97-230 | after any events the book is valid and the owner index has exactly the resting ids |
| Routing.OrderRouting | engine/src/server.cpp:134-172 | what each descriptor receives for a new order: one ack first, refused iff the id rested, then each fill exactly once, in order, to the submitter, the resting order's owner and the subscribers only |
| Routing.CancelRouting | engine/src/server.cpp:174-178 | one ack to the sender, ok iff the id rested, and nothing to anyone else |
| Routing.SubmitterHearsAll | engine/src/server.cpp:156-166 | the submitter's stream holds every fill of its submission, in order |
| Routing.ServerChunkIndependent | engine/src/server.cpp:180-223 | two chunks change the whole server, book, owners and sent messages, as one chunk with all bytes does |
| Framing.UnknownTagCloses | engine/src/server.cpp:193-199 | a byte that is no message tag closes the connection; the requests in front of it are read |
| Framing.ServerTagCloses | engine/src/server.cpp:200-218 | so does a tag only the server sends, once its whole payload is there and not before |
| Framing.ReadingExplained | engine/src/server.cpp:187-222 | every byte string is the encoding of the requests read from it and, behind them, nothing, the start of a message, or a byte that closes the connection |
| Traffic.ViolationDisconnects | engine/src/server.cpp:195-230 | such bytes disconnect the sender and no one else, after the requests in front of them were dispatched |
| Routing.NoticeReaches | engine/src/server.cpp:123-172 | a fill reaches the submitter, the owner of the resting order and the subscribers, and no one else |
| Routing.OwnersAfter | engine/src/server.cpp:134-172 | an accepted order that rests belongs to its submitter, every other resting id to whom it did |
| Servers.Server.constructor | engine/src/server.cpp:60-63 | a new server is valid with an empty book and no connections |
| Servers.Server.BroadcastFillToSubscribers | engine/src/server.cpp:123-132 | sends the fill once to each subscriber not already served |
| Servers.Server.SendFills | engine/src/server.cpp:156-171 | the fan-out seen through the owner index being changed along the way is that of the owners before the submission |
| Servers.Server.DispatchNewOrder | engine/src/server.cpp:134-172 | acks, registration, fan-out and forgetting make exactly the state machine's step |
| Servers.Server.DispatchCancelRequest | engine/src/server.cpp:174-178 | the same for a cancel |
| Servers.Server.Accept | engine/src/server.cpp:97-104 | a new descriptor joins with an empty buffer, not subscribed |
| Servers.Server.RemoveConnection | engine/src/server.cpp:225-230 | the connection goes, its orders and their owner stay |
| Servers.Server.HandleReadable | engine/src/server.cpp:180-223 | the framing loop with in-place erasure and interleaved dispatch handles the bytes as reading all requests first would (which closes the connection on exactly the bytes of Framing.ReadingExplained) |
| Quoter.FixedOffsetQuoter.Price | strategy/orderbook_client/strategy.py:70-91 | new quotes on both sides before the cancels of the stale ones, ids counted up; afterwards both sides are tracked, the buy at the price less the offset and the sell at the price plus it |
| Quoter.OnPriceMeans | strategy/orderbook_client/strategy.py:70-91 | both sides are quoted, the buy the offset below the price and the sell the offset above; a side already there gets no command, any other a new order and a cancel of the old one |
| Quoter.OnFillMeans | strategy/orderbook_client/strategy.py:93-100 | a fill clears the quote whose id it names as resting, on that side only |
| Quoter.FixedOffsetQuoter.FillEvent | strategy/orderbook_client/strategy.py:93-100 | the tracked quote with the resting id is forgotten, whatever the size of the fill |
| Quoter.Loop.RunStrategyLoop | strategy/orderbook_client/session_runner.py:17-68 | the loop over feed, actions and drained events runs the session state machine for as many ticks as it counts, then delivers what comes before the first empty poll; every fill is delivered iff those polls hold all that are outstanding |
| ClosedLoop.ClosedLoop | strategy/orderbook_client/strategy.py:70-100 | alone in the book, after any prices and any fill delays, the only order on each side is the tracked quote, at its price and whole; at most one a side, the bid the offset below the last price and the ask the offset above |
| ClosedLoop.TicksKeepInStep | strategy/orderbook_client/session_runner.py:35-53 | the invariant across quoter, book and undelivered fills holds over all ticks |
| ClosedLoop.BeliefExactWhen | strategy/orderbook_client/strategy.py:93-100 | with every fill delivered, a believed order rests iff it was never the incoming order of a fill |
| ClosedLoop.BeliefCanOutliveOrder | strategy/orderbook_client/strategy.py:93-100 | two ticks after which a believed order does not rest |
| Sessions.ChunksAsOne | engine/src/server.cpp:180-223 | any chunks leave the whole server as their bytes at once do |
| Sessions.ServedRun | engine/src/server.cpp:134-223 | one client's encoded requests on a fresh server, cut anywhere: the book is what their commands make of the empty book, and the client's stream holds exactly the fills of that run |
| Traffic.ServerIsDesk | engine/src/server.cpp:97-230 | after any events on any connections: the requests acted on do not depend on the book, the book is what their commands make of the empty book, and every descriptor has been sent exactly its acks and the notices of the fills it submitted either order of or was subscribed to, in order |
| Traffic.SubscriberHearsRun | engine/src/server.cpp:123-132 | a descriptor that subscribes first and stays is told of exactly the fills of the whole run, whoever trades |
| Sessions.ClosedLoopOnServer | strategy/orderbook_client/session_runner.py:35-53 | the quoter's session over the wire: the stream holds the session's fills, and all that rests on the server is the tracked quotes, whole, at most one a side, the offset away from the last price |
| FixLaws.RoundTrip | risk/src/fix.rs:58-197 | for any text, a built message is read back as exactly the tags and values printed, in order, with body length and padded checksum, iff no string holds the delimiter and a limit order has a price; in either build profile |
| FixVerdicts.AcceptedExactlyWhen | risk/src/fix.rs:97-128 | a message with a good trailer and parsed fields passes iff it begins with tags 8 and 9, the number in field 9 is the byte count, which an overflow-checking build also requires not to be zero, the type is D, the five required tags are there, and a limit order has a price |
| FixVerdicts.WrongLengthRejected | risk/src/fix.rs:106-112 | any clean fields under any other BodyLength number, the checksum made to fit, are rejected with both numbers |
| FixVerdicts.TrailerAcceptedExactlyWhen | risk/src/fix.rs:59-84 | the trailer passes iff the message is text with three delimiters whose last checksum marker is followed by three bytes, a character ending there, that are a number equal to the byte sum modulo 256 |
| FixVerdicts.TextExactly | risk/src/fix.rs:59 | the bytes taken for text are exactly the UTF-8 encodings of Unicode scalar values |
| FixVerdicts.BuiltIs | risk/src/fix.rs:160-197 | the fields of a built message, one by one |
| FixLaws.ParsersAgree | risk/src/fix.rs:133-143 | both parsers accept the same messages with the same errors; the map has exactly the list's tags, each with its last value |
| FixLaws.CorruptionDetected | risk/src/fix.rs:64-84 | one byte replaced before the trailer of any accepted message makes both parsers reject |
| FixLaws.BuiltCorruption | risk/src/fix.rs:69-84 | exactly which single-byte replacements in a built message go unnoticed |
| FixLaws.BodyCountNotNegative | risk/src/fix.rs:104-112 | where the body length is computed, the marker is at or behind the second delimiter |
| FixLaws.PanicsExactlyWhen | risk/src/fix.rs:75-112 | the parser panics iff the checksum bytes end inside a character or, in a build that checks overflow, the byte count underflows |
| FixLaws.ProfilesAgree | risk/src/fix.rs:106-112 | a checked and a wrapping build give the same verdict on every message whose count does not underflow |
| FixLaws.ParserCanUnderflow | risk/src/fix.rs:109 | a fifteen-byte message on which the checked build panics and the wrapping one counts zero |
| FixLaws.ParserCanPanic | risk/src/fix.rs:75-79 | a ten-byte message on which it does |
| FixMessages.WrappingSum | risk/src/fix.rs:73 | the fold is the byte sum modulo 256 |
| FixMessages.PushFields | risk/src/fix.rs:86-95 | the loop pushes the fields of all non-empty pieces or stops at the first malformed one |
| FixMessages.CheckBody | risk/src/fix.rs:97-129 | first two fields, body length and tags, with the subtraction before the addition, wrapping around or panicking |
| FixMessages.ValidateAndParseFields | risk/src/fix.rs:58-129 | the statements in order give the verdict the laws are about |
| FixMessages.BuildNewOrderSingle | risk/src/fix.rs:160-197 | the message appended piece by piece is the one the laws are about, and parses back to the printed fields |
| Position.PositionTracker.OnFill | risk/src/position.rs:29-58 | net position, average, realized P&L and last price after a fill |
| Position.PositionReplay.OnFill | strategy/orderbook_client/backtest_report.py:40-64 | the same for the replay, with the P&L it returns |
| Position.TradeMoves | risk/src/position.rs:29-57 | case by case: adding blends the average, a partial close keeps it and closes the traded quantity, going past flat closes the position and starts at the trade's price |
| Position.TrackerBooks | risk/src/position.rs:46-48 | the tracker books closed contracts times the price less the truncated average |
| Position.ReplayBooks | strategy/orderbook_client/backtest_report.py:55-58 | the replay books the rounded product at the exact average |
| Position.TrackerLedger | risk/src/position.rs:29-58 | over any run the net is the signed sum, and realized P&L is within the contracts closed of net times average minus cost, exactly equal when the closing averages are whole |
| Position.ReplayLedger | strategy/orderbook_client/backtest_report.py:40-64 | the replay is within half a tick per closing trade of the same ledger |
| Position.MarkedToMarket | risk/src/position.rs:60-62 | over any run realized plus unrealized P&L is net times the last price minus cost, within the contracts closed plus the contracts held, and exactly when the averages cut are whole |
| Position.DeltasAgree | risk/src/position.rs:48 | on one trade the truncated and the rounded P&L are equal iff the loss by truncation rounds away |
| Position.SameExactlyWhen | strategy/orderbook_client/backtest_report.py:40-64 | the two realized P&Ls are equal after every prefix of a run iff every trade meets that condition |
| Position.ImplementationsAgree | strategy/orderbook_client/backtest_report.py:40-64 | equal net and average on every run; realized P&L equal all along iff every trade rounds alike, so whenever closing averages are whole, and always apart by at most contracts closed plus half the closing trades |
| Position.ImplementationsDiffer | risk/src/position.rs:48 | after buying q at p and q at p + 1 and selling all of it at any price, the tracker has booked q more than the replay |
| Report.MaxDrawdown | strategy/orderbook_client/backtest_report.py:99-105 | one pass with a running peak finds the deepest fall from any point to any later one |
| Report.MaxDrawdownUnique | strategy/orderbook_client/backtest_report.py:99-105 | that is one number |
| Report.WinRate | strategy/orderbook_client/backtest_report.py:108-112 | the share of positive P&Ls, 0 if there are none |
| Report.BuildReport | strategy/orderbook_client/backtest_report.py:67-86 | all five figures of the report are those of the log's fills in order |
| Report.DeviationIs | strategy/orderbook_client/backtest_report.py:93 | n (n - 1) times the square of the deviation is n times the sum of squares less the square of the sum |
| Report.SharpeIs | strategy/orderbook_client/backtest_report.py:89-96 | the square of the Sharpe ratio in closed form, from count, sum, sum of squares and periods |
| Report.SharpeSign | strategy/orderbook_client/backtest_report.py:89-96 | the Sharpe ratio has the sign of the total P&L when two trades differ and is zero otherwise |
| Report.EquityEndsAtRealized | strategy/orderbook_client/backtest_report.py:67-86 | the curve ends at total realized P&L, which is the sum of the recorded non-zero P&Ls |
| Consumers.MarketVolume | engine/src/order_book.cpp:77-102 | an accepted market order trades the smaller of its size and the opposite side, all in its own direction |
| Consumers.CheckBreach | risk/src/limits.rs:24-31 | no action iff the position is within the limit on either side; otherwise a sell of a long position or a buy of a short one, its size modulo 2^32 |
| Consumers.FlattenReachesZero | risk/src/limits.rs:24-31 | folding a flatten order's fills into the tracker gives zero iff the position fits in 32 bits and the book suffices, and never flips it |
| Consumers.DeltaHedger.Price | strategy/orderbook_client/delta_hedger.py:33-45 | the hedge order and the bookkeeping of a tick |
| Consumers.OnPriceMeans | strategy/orderbook_client/delta_hedger.py:33-45 | inside the band only the error is recorded; outside a market order for the whole error goes out against it |
| Consumers.DeltaHedger.FillEvent | strategy/orderbook_client/delta_hedger.py:47-56 | only fills of its own incoming orders move the position, by the resting side |
| Consumers.HedgedWithinBand | strategy/orderbook_client/delta_hedger.py:33-56 | after a tick worked through the book the position is within the band of the target iff the book held all but a band's worth, and on the target if the order was filled in full |
| Consumers.HedgedThroughout | strategy/orderbook_client/delta_hedger.py:33-56 | over any targets and books the position is within the band after every tick iff every tick's book sufficed |
| Pricing.LanesIndependent | risk/src/pricing.rs:97-147 | lane i of a lane group depends on lane i of the inputs only, in any arithmetic |
| Pricing.LaneIsScalar | risk/src/pricing.rs:70-147 | a lane computes the scalar pricer wherever four named identities hold |
| Pricing.ExactIsLawful | risk/src/pricing.rs:44-147 | exact real arithmetic has them |
| Pricing.PutCallParity | risk/src/pricing.rs:70-91 | call minus put, exactly, with the error term for d1 or d2 zero |
| Pricing.CdfAtZero | risk/src/pricing.rs:52-68 | the approximated distribution at zero, which is not one half |
| Pricing.ParityExactlyWhen | risk/src/pricing.rs:70-91 | parity holds iff no zero of d1 or d2 meets a term that is not zero, or with both zero spot equals discounted strike |
| Pricing.ParityCanFail | risk/src/pricing.rs:70-91 | an option for which it fails |
| PricingLaws.PolyAt | risk/src/pricing.rs:52-68 | the polynomial's exact values at one half and at one, which no change of one coefficient keeps |
| PricingLaws.DistributionBounds | risk/src/pricing.rs:52-68 | wherever exp of what is not positive is in (0, 1], the approximated distribution is in [0, 1], up to a hair at most one half left of zero and at least one half right of it |
| PricingLaws.DistributionAt | risk/src/pricing.rs:52-68 | its value in digits where the polynomial is taken at one half |
| PricingLaws.FormulaIs | risk/src/pricing.rs:70-91 | all six outputs by their formulas, with d1 the number that times volatility and root of time gives ln(spot / strike) + (rate + volatility squared / 2) time |
| PricingLaws.GreeksConsistent | risk/src/pricing.rs:70-91 | price, delta, gamma and theta satisfy the Black-Scholes equation; vega follows from gamma, rho from price and delta |
| PricingLaws.DeltaBounds | risk/src/pricing.rs:70-91 | a call's delta is in [0, 1], a put's in [-1, 0], gamma and vega are positive |
| PricingLaws.DensitiesBalance | risk/src/pricing.rs:70-91 | spot times the density at d1 is discounted strike times the density at d2, given the laws of exp and ln |
| Pricing.Transpose | risk/src/pricing.rs:163-188 | the columns hold the batch in order, the last option repeated up to a multiple of four |
| Pricing.PriceBatchSimd | risk/src/pricing.rs:158-220 | for every batch length, result i is option i's lane alone, and the scalar price where the identities hold: padding and neighbours never show |

## Left out

- Sockets, poll, accept errors, partial sends, threads and the reader thread's queue: input and output; they are byte sequences, logs and arbitrary delays here.
- Delivery to a descriptor that was closed and given to someone else: routing is stated by descriptor number, and a closed connection's orders keep theirs.
- The 64-bit wrap-around of the stamp counter, and integer widths inside the book: integers are unbounded there.
- IEEE rounding, infinities, NaN and the error of the approximated normal distribution: reals, or an arbitrary arithmetic, stand for floats. The price text of a FIX message and the hedger's rounded target are arbitrary.
- The 64-bit saturation of Rust's float-to-integer cast in position accounting.
- A zero-quantity fill on a flat position tracker: both programs divide zero by zero there, so positive quantities are required over runs.
- In-place mutation of the front order inside a deque: a level is a value that is replaced, and each side's inner loop, its body, one trade and the erasure of an empty level are methods of their own.
- Consumers.HedgedWithinBand: the option book's delta and the pricing request behind the target are not modelled; the target is any integer, one per tick.
- Exactly one flatten order per breach: the risk engine sends one for every observed fill that is still in breach, so it is not claimed.
- The quoter among other participants: a partial fill clears its tracking, so the closed-loop statement is about a session of its own.
- Rounding in the statistics of the report: mean and deviation are exact, and the square root is a parameter. Feeds, logs, CSV files, argument parsing and benchmarks.
- The Python wire codec and the pricing service's protocol: they would add easy members only.
- The market-order branch of the session runner: the quoter only places limit orders.
