# Karma prediction-market contract: a Dafny model

This project models the settlement core of the Karma smart contract, a binary
YES/NO prediction market. Users register with a starting balance of 100. Any
caller can open a market with a question and a liquidity parameter. Registered
users buy shares of one side at a price set by the logarithmic market scoring
rule (LMSR). The market's creator resolves it, and every winning bet is paid
one unit per share.

The model has one module per source file, plus two small support modules:

- `Elements` (`elements.dfy`, models `src/elements.rs`): the `Outcome` enum (exactly `YES` and `NO`, with
  equality), the `Bet` record and `LmsrPrice`. Prices are `real`. The
  exponential is a function value `exp` that is only assumed to be positive,
  and strictly increasing where monotonicity is stated. `Quote` and `Cost` pick
  a price by side and multiply it by the quantity, as `bet` does.
- `Users` (`user.dfy`, models `src/user.rs`): class `User` with `Deposit`, `Withdraw` and `AddMarket`,
  which update its fields in place. `Balance` is a read-only function.
- `Markets` (`market.dfy`, models `src/market.rs`): class `Market` with `AddBet` and `Resolve`, which
  update its fields in place, and the queries `IsResolved` and
  `HasAlreadyVoted`. `Decide` is the resolution rule: NO only on a strict NO
  majority.
- `Payout` (`payout.dfy`): what a resolution credits each user, and sums of credits and of
  stakes over sets of user ids.
- `Karma` (`karma.dfy`, models `src/lib.rs`): class `KarmaContract`. It holds the `users` and
  `markets` maps, the `userIds` and `marketIds` lists, and the exponential used
  for pricing. `Valid()` is the contract's invariant:
  - every record is stored under its own id;
  - every market has `numYes + numNo == |voters|`, is resolved exactly when it
    has an outcome, has the outcome its counts decide once resolved, and has a
    nonzero liquidity, so a resolved market never changes again;
  - every bettor is a registered user;
  - the id lists name exactly the stored records.
- `Errors`, `Wrappers`: the rejection kinds with the contract's messages, and
  `Option`/`Result`.

Whoever invokes an operation is passed in explicitly as `caller`. The source
reads it from the host runtime instead.

The model follows the code as written, including these behaviours that a
reader might not expect:

- `resolve` has no guard against a market that is already resolved. A creator
  may settle again and every winner is paid again. `DoubleResolve` is proved to
  credit each winner twice.
- `lmsr_price` exponentiates `q / b` directly. The code does not shift the
  exponents to avoid overflow.
- `market.rs` takes a counter when a market is created, and the market id is
  `"market_" + counter`. The call in `lib.rs` passes no counter. The model's
  `AddMarket` takes the counter from its caller.
- A second `register_user` by the same caller replaces the account, so the
  balance and the history start over. The id is also listed a second time.
  `add_market` with an id already in use likewise replaces the stored market.

## Model

| member | source | states |
|---|---|---|
| Elements.LmsrPrice | src/elements.rs:16-21 | both prices lie strictly between 0 and 1 and they sum to exactly 1, because they share the denominator `exp(qYes/b) + exp(qNo/b)` |
| Elements.EqualCountsHalf | src/elements.rs:16-21 | equal YES and NO counts price both sides at exactly one half, so a fresh market quotes 0.5 per side |
| Elements.SwapSymmetric | src/elements.rs:16-21 | exchanging the YES and NO counts exchanges the two prices |
| Elements.PriceYesIncreasing | src/elements.rs:16-21 | with `exp` strictly increasing and `b > 0`, more YES shares give a strictly higher YES price and a strictly lower NO price |
| Elements.CostWithinPayout | src/lib.rs:132-141 | `quantity` shares of either side cost between 0 and `quantity`, at most what they can win |
| Users.User.constructor | src/user.rs:15-24 | a new account has the caller's id, the given bio, balance 100 and an empty history |
| Users.User.Deposit | src/user.rs:30-32 | the balance grows by exactly `amount`, whatever its sign, and the history is unchanged |
| Users.User.Withdraw | src/user.rs:34-36 | the balance falls by exactly `amount` with no floor, and the history is unchanged |
| Users.User.AddMarket | src/user.rs:38-40 | the market id is appended to the history and the balance is unchanged |
| Users.DepositThenWithdraw | src/user.rs:30-36 | a deposit followed by a withdrawal of the same amount restores the balance and the history |
| Markets.DecideTiesGoToYes | src/market.rs:59-64 | the outcome is NO exactly when `numNo > numYes` and YES otherwise, so ties go to YES |
| Markets.Market.constructor | src/market.rs:22-38 | a new market has the caller as creator, id `"market_" + counter`, zero counters, is not resolved, has no outcome and has no voters |
| Markets.Market.AddBet | src/market.rs:40-53 | the bet's side counter rises by one whatever the quantity, and the other counter stays; the caller maps to the bet and every other voter entry stays; when the market was open and the caller had not bet, the market stays consistent |
| Markets.Market.Resolve | src/market.rs:55-66 | a non-creator gets `NotCreator` and nothing changes; the creator gets success, `resolved` becomes true and the outcome becomes the one `Decide` picks; counters and voters never change; on a consistent market that is already resolved nothing changes at all |
| Markets.Market.IsResolved | src/market.rs:68-70 | on a consistent market, it is true exactly when an outcome is present |
| Markets.Market.HasAlreadyVoted | src/market.rs:72-74 | it is true exactly when the user id is a key of `voters` |
| Markets.ResolveTwiceSameOutcome | src/market.rs:55-66 | resolving a second time on unchanged counts leaves the same outcome |
| Payout.Credit | src/lib.rs:169-177 | the reference definition of one user's credit, which `PayWinners`, `Resolve` and `TotalPayout` are stated against: the bet's quantity for a bettor on the outcome's side, and 0 for everyone else |
| Payout.PaidToIsWinningStake | src/lib.rs:169-178 | the credits paid to any set of users add up to the shares staked by the winners in that set |
| Payout.TotalPayout | src/lib.rs:169-180 | when all bettors are registered, the total credited is the number of shares held on the winning side |
| Karma.KarmaContract.constructor | src/lib.rs:45-63 | the contract starts with no users, no markets and empty id lists, and is consistent |
| Karma.KarmaContract.RegisterUser | src/lib.rs:66-73 | the caller maps to a fresh account with the bio, balance 100 and no history; the id is appended to `userIds`; nothing else changes |
| Karma.KarmaContract.AddMarket | src/lib.rs:75-82 | a fresh market created by the caller is stored under `"market_" + counter`, with zero counters, unresolved and no voters; the id is appended to `marketIds` |
| Karma.KarmaContract.GetUsers | src/lib.rs:84-92 | returns one user per listed id, in order, and every registered user appears |
| Karma.KarmaContract.GetMarkets | src/lib.rs:94-102 | returns one market per listed id, in order, and every stored market appears |
| Karma.KarmaContract.GetUser | src/lib.rs:104-107 | it is present exactly when the id is registered, and the account returned carries that id |
| Karma.KarmaContract.GetMarket | src/lib.rs:109-112 | it is present exactly when the id is stored, and the market returned carries that id |
| Karma.KarmaContract.GetCost | src/lib.rs:194-201 | an unknown market gives `(0, 0)` with no error; a stored market gives two prices strictly in (0,1) that sum to 1, and one half each when the counts are equal |
| Karma.KarmaContract.Bet | src/lib.rs:114-157 | the errors come in the fixed order `NoSuchMarket`, `MarketAlreadyResolved`, `UserNotRegistered`, `AlreadyVoted`, `InsufficientBalance`, and after any of them every user and market is unchanged; on success the caller pays the quote at the counts before the bet times `quantity` and keeps a non-negative balance, the market id joins the history, the bet is stored, the side's counter rises by one, no other user or market changes, and the invariant is kept |
| Karma.KarmaContract.Accept | src/lib.rs:146-155 | the writes of an accepted bet: charge, history entry, and the bet recorded in the market, keeping the invariant |
| Karma.KarmaContract.Resolve | src/lib.rs:159-182 | an unknown market gives `NoSuchMarket` and a non-creator gets `NotCreator`, with nothing changed; otherwise the market is resolved as `Decide` picks on the old counts, its counters and voters stay, every user's balance grows by exactly their credit, so losers and non-bettors are unchanged, no history changes and no other market changes; settling a market that is already resolved leaves every market unchanged and only repeats the payout |
| Karma.KarmaContract.SettleMarket | src/lib.rs:165 | the market's resolution step as the contract sees it: only that market changes, an already resolved market does not change, and the invariant is kept |
| Karma.KarmaContract.PayWinners | src/lib.rs:168-178 | the payout loop credits each user exactly their credit and leaves every history unchanged |
| Karma.KarmaContract.Deposit | src/lib.rs:184-192 | a registered caller's balance grows by `amount`; an unregistered caller changes nothing; no other user and no market changes |
| Karma.KarmaContract.DoubleResolve | src/lib.rs:159-182 | two resolutions by the creator credit every winner twice their quantity, because nothing stops the second, while the market ends resolved as `Decide` picks on the original counts with its counters and voters unchanged |

## Left out

- The Weil runtime: the `smart_contract`, `mutate`, `query` and `constructor` macros, `WeilType`, serde and `async`. `WeilMap` and `WeilVec` are Dafny `map` and `seq` fields.
- Id generation. `WeilIdGenerator` and the collection ids in the constructor are not modelled. The market counter is a parameter of `AddMarket`, because the code's own call to `Market::new` passes none.
- The runtime's current sender. It is the explicit `caller` parameter of every operation that reads it.
- Copy-on-read storage. `get` returns a copy that the code changes and writes back with `insert`. The model changes the stored object in place. No operation fails after its first write, so the result is the same. The listing queries return the stored objects, not copies.
- Floating point. Prices and balances are `real`. The model leaves out `f64` rounding, overflow of `exp` for large `q/b`, NaN, and numeric scenarios such as a 0.5249 YES price after one bet at `b = 10`. `exp` is an abstract positive function.
- KarmaContract.AddMarket: requires a nonzero liquidity, because real division by zero is undefined. The code accepts any `f64`, and a zero liquidity there yields infinities or NaN.
- Integer widths. `quantity` and the counters are unbounded `nat`, so the `u64` overflow of `num_yes += 1` is not modelled. A zero `quantity` is accepted, as in the code.
- Panics. The `unwrap` calls in `get_users`, `get_markets` and the payout loop cannot fail under `Valid()`: every listed id is stored, and every bettor is registered.
- Concurrency and atomicity across storage. The host serialises calls, so each operation is one sequential step.
- Users.User.Balance: a getter with no `ensures`. It only reads the object, so it cannot change anything.
- The order in which the payout loop visits bettors. The code walks a `BTreeMap` in key order, and the model takes any order. The credits do not depend on the order.
- A balance that never goes negative is not an invariant of the contract as a whole, because `deposit` accepts negative amounts. What the model proves is what `bet` guarantees: an accepted bet leaves the caller with a non-negative balance.
