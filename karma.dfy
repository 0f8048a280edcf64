/**
 * The contract itself: the registry of users and markets, and the public
 * operations that register, open markets, take bets, settle them and pay
 * winners. Host storage is modelled as two maps from id to record plus the
 * two lists of ids in creation order. The identity of whoever invokes an
 * operation is passed in as `caller`.
 */
module Karma {
  import opened Wrappers
  import opened Errors
  import opened Elements
  import opened Users
  import opened Markets
  import opened Payout

  class KarmaContract {
    /** The exponential the prices are computed with. */
    const exp: real -> real
    var users: map<string, User>
    var markets: map<string, Market>
    var userIds: seq<string>
    var marketIds: seq<string>

    /**
     * Every record is stored under its own id, every market is internally
     * consistent and can be priced, every bettor is a registered user, and
     * the id lists name exactly the stored records.
     */
    ghost predicate Valid()
      reads this, markets.Values
    {
      && Positive(exp)
      && (forall k :: k in users ==> users[k].id == k)
      && (forall k :: k in markets ==> markets[k].id == k)
      && (forall k :: k in markets ==> markets[k].Valid())
      && (forall k :: k in markets ==> markets[k].liquidity != 0.0)
      && (forall k :: k in markets ==> markets[k].voters.Keys <= users.Keys)
      && (forall i :: 0 <= i < |userIds| ==> userIds[i] in users)
      && (forall k :: k in users ==> k in userIds)
      && (forall i :: 0 <= i < |marketIds| ==> marketIds[i] in markets)
      && (forall k :: k in markets ==> k in marketIds)
    }

    /** An empty contract pricing with `exp`. */
    constructor (exp: real -> real)
      requires Positive(exp)
      ensures Valid()
      ensures this.exp == exp
      ensures users == map[] && markets == map[] && userIds == [] && marketIds == []
    {
      this.exp := exp;
      users, markets := map[], map[];
      userIds, marketIds := [], [];
    }

    /**
     * Registers `caller` with a fresh account. Registering again replaces
     * the old account (balance and history start over) and lists the id a
     * second time.
     */
    method RegisterUser(caller: string, bio: string)
      requires Valid()
      modifies this
      ensures Valid()
      ensures caller in users && fresh(users[caller])
      ensures users[caller].bio == bio && users[caller].balance == StartingBalance && users[caller].history == []
      ensures users == old(users)[caller := users[caller]]
      ensures userIds == old(userIds) + [caller]
      ensures markets == old(markets) && marketIds == old(marketIds)
    {
      var user := new User(caller, bio);
      users := users[user.id := user];
      userIds := userIds + [user.id];
    }

    /**
     * Opens a market created by `caller` under the id `"market_" + counter`.
     * A market already stored under that id is replaced.
     */
    method AddMarket(caller: string, counter: string, question: string, liquidity: real)
      requires Valid()
      requires liquidity != 0.0
      modifies this
      ensures Valid()
      ensures var id := "market_" + counter;
        && id in markets && fresh(markets[id])
        && markets == old(markets)[id := markets[id]]
        && marketIds == old(marketIds) + [id]
        && markets[id].creator == caller && markets[id].question == question && markets[id].liquidity == liquidity
        && markets[id].numYes == 0 && markets[id].numNo == 0
        && !markets[id].resolved && markets[id].outcome == None && markets[id].voters == map[]
      ensures users == old(users) && userIds == old(userIds)
    {
      var market := new Market(caller, counter, question, liquidity);
      markets := markets[market.id := market];
      marketIds := marketIds + [market.id];
    }

    /** Every registered user, in registration order. */
    method GetUsers() returns (all: seq<User>)
      requires Valid()
      ensures |all| == |userIds|
      ensures forall i :: 0 <= i < |all| ==> all[i] == users[userIds[i]]
      ensures forall k :: k in users ==> users[k] in all
    {
      all := [];
      for i := 0 to |userIds|
        invariant |all| == i
        invariant forall j :: 0 <= j < i ==> all[j] == users[userIds[j]]
      {
        all := all + [users[userIds[i]]];
      }
      forall k | k in users ensures users[k] in all {
        var i :| 0 <= i < |userIds| && userIds[i] == k;
        assert all[i] == users[k];
      }
    }

    /** Every market, in creation order. */
    method GetMarkets() returns (all: seq<Market>)
      requires Valid()
      ensures |all| == |marketIds|
      ensures forall i :: 0 <= i < |all| ==> all[i] == markets[marketIds[i]]
      ensures forall k :: k in markets ==> markets[k] in all
    {
      all := [];
      for i := 0 to |marketIds|
        invariant |all| == i
        invariant forall j :: 0 <= j < i ==> all[j] == markets[marketIds[j]]
      {
        all := all + [markets[marketIds[i]]];
      }
      forall k | k in markets ensures markets[k] in all {
        var i :| 0 <= i < |marketIds| && marketIds[i] == k;
        assert all[i] == markets[k];
      }
    }

    /** The account registered under `id`, if any. */
    function GetUser(id: string): (r: Option<User>)
      reads this, markets.Values
      requires Valid()
      ensures r.Some? <==> id in users
      ensures r.Some? ==> r.value.id == id
    {
      MapGet(users, id)
    }

    /** The market stored under `id`, if any. */
    function GetMarket(id: string): (r: Option<Market>)
      reads this, markets.Values
      requires Valid()
      ensures r.Some? <==> id in markets
      ensures r.Some? ==> r.value.id == id
    {
      MapGet(markets, id)
    }

    /** What `quantity` shares of `side` cost in `market` at its current counts. */
    function BetPrice(market: Market, side: Outcome, quantity: nat): real
      reads market
      requires market.liquidity != 0.0 && Positive(exp)
    {
      Cost(LmsrPrice(market.numYes, market.numNo, market.liquidity, exp), side, quantity)
    }

    /**
     * The current per-share prices of a market, or `(0, 0)` when there is no
     * such market. For a stored market they form a probability
     * distribution, and equal counts (a fresh market in particular) quote
     * one half per side.
     */
    function GetCost(marketId: string): (r: (real, real))
      reads this, markets.Values
      requires Valid()
      ensures marketId !in markets ==> r == (0.0, 0.0)
      ensures marketId in markets ==> 0.0 < r.0 < 1.0 && 0.0 < r.1 < 1.0 && r.0 + r.1 == 1.0
      ensures marketId in markets && markets[marketId].numYes == markets[marketId].numNo ==> r == (0.5, 0.5)
    {
      if marketId !in markets then (0.0, 0.0)
      else
        var market := markets[marketId];
        EqualCountsHalf(market.numYes, market.liquidity, exp);
        LmsrPrice(market.numYes, market.numNo, market.liquidity, exp)
    }

    /**
     * `caller` buys `quantity` shares of `side` in market `marketId`. The
     * five checks run in order and the first that fails decides the error;
     * nothing is written unless all pass. The price is quoted at the counts
     * before the bet is recorded.
     */
    method Bet(caller: string, marketId: string, side: Outcome, quantity: nat) returns (r: Result<(), Error>)
      requires Valid()
      modifies users.Values, markets.Values
      ensures Valid()
      ensures marketId !in markets ==> r == Err(NoSuchMarket)
      ensures marketId in markets ==>
        var m := markets[marketId];
        r == if old(m.resolved) then Err(MarketAlreadyResolved)
             else if caller !in users then Err(UserNotRegistered)
             else if caller in old(m.voters) then Err(AlreadyVoted)
             else if old(BetPrice(m, side, quantity)) > old(users[caller].balance) then Err(InsufficientBalance)
             else Ok(())
      ensures r.Err? ==> unchanged(users.Values) && unchanged(markets.Values)
      ensures r.Ok? ==>
        var m, u := markets[marketId], users[caller];
        && u.balance == old(u.balance) - old(BetPrice(m, side, quantity))
        && u.balance >= 0.0
        && u.history == old(u.history) + [marketId]
        && m.voters == old(m.voters)[caller := Elements.Bet(side, quantity)]
        && (side == YES ==> m.numYes == old(m.numYes) + 1 && m.numNo == old(m.numNo))
        && (side == NO ==> m.numNo == old(m.numNo) + 1 && m.numYes == old(m.numYes))
        && m.resolved == old(m.resolved) && m.outcome == old(m.outcome)
        && (forall k :: k in users && k != caller ==> unchanged(users[k]))
        && (forall k :: k in markets && k != marketId ==> unchanged(markets[k]))
    {
      if marketId !in markets {
        r := Err(NoSuchMarket);
      } else {
        var market := markets[marketId];
        if market.IsResolved() {
          r := Err(MarketAlreadyResolved);
        } else if caller !in users {
          r := Err(UserNotRegistered);
        } else if market.HasAlreadyVoted(caller) {
          r := Err(AlreadyVoted);
        } else {
          var user := users[caller];
          var price := BetPrice(market, side, quantity);
          if price > user.Balance() {
            r := Err(InsufficientBalance);
          } else {
            Accept(caller, marketId, side, quantity, price);
            r := Ok(());
          }
        }
      }
    }

    /**
     * The writes of an accepted bet: the caller's history gains the market,
     * the price leaves their balance, and the market records the bet.
     */
    method Accept(caller: string, marketId: string, side: Outcome, quantity: nat, price: real)
      requires Valid()
      requires marketId in markets && caller in users
      requires !markets[marketId].resolved && caller !in markets[marketId].voters
      requires price == BetPrice(markets[marketId], side, quantity)
      modifies users[caller], markets[marketId]
      ensures Valid()
      ensures var m, u := markets[marketId], users[caller];
        && u.balance == old(u.balance) - price
        && u.history == old(u.history) + [marketId]
        && m.voters == old(m.voters)[caller := Elements.Bet(side, quantity)]
        && (side == YES ==> m.numYes == old(m.numYes) + 1 && m.numNo == old(m.numNo))
        && (side == NO ==> m.numNo == old(m.numNo) + 1 && m.numYes == old(m.numYes))
        && m.resolved == old(m.resolved) && m.outcome == old(m.outcome)
    {
      var user, market := users[caller], markets[marketId];
      user.AddMarket(marketId);
      user.Withdraw(price);
      market.AddBet(caller, Elements.Bet(side, quantity));
    }

    /**
     * The creator of `marketId` settles it, and every bettor on the winning
     * side is credited one unit per share. There is no check that the
     * market is still open: settling again pays the winners again.
     */
    method Resolve(caller: string, marketId: string) returns (r: Result<(), Error>)
      requires Valid()
      modifies users.Values, markets.Values
      ensures Valid()
      ensures marketId !in markets ==> r == Err(NoSuchMarket)
      ensures marketId in markets ==> r == (if caller == markets[marketId].creator then Ok(()) else Err(NotCreator))
      ensures r.Err? ==> unchanged(users.Values) && unchanged(markets.Values)
      ensures r.Ok? ==>
        var m := markets[marketId];
        var o := Decide(old(m.numYes), old(m.numNo));
        && m.resolved && m.outcome == Some(o)
        && m.numYes == old(m.numYes) && m.numNo == old(m.numNo) && m.voters == old(m.voters)
        && (forall k :: k in markets && k != marketId ==> unchanged(markets[k]))
        && (forall k :: k in users ==> users[k].balance == old(users[k].balance) + Credit(m.voters, o, k) as real)
        && (forall k :: k in users ==> users[k].history == old(users[k].history))
      ensures marketId in markets && old(markets[marketId].resolved) ==> unchanged(markets.Values)
    {
      if marketId !in markets {
        return Err(NoSuchMarket);
      }
      var market := markets[marketId];
      r := SettleMarket(caller, marketId);
      if r.Err? {
        return;
      }
      PayWinners(market.voters, market.outcome.value);
    }

    /** The market's own resolution step, seen from the contract: only that market changes. */
    method SettleMarket(caller: string, marketId: string) returns (r: Result<(), Error>)
      requires Valid()
      requires marketId in markets
      modifies markets[marketId]
      ensures Valid()
      ensures var m := markets[marketId];
        && r == (if caller == m.creator then Ok(()) else Err(NotCreator))
        && (r.Err? ==> unchanged(m))
        && (r.Ok? ==> m.resolved && m.outcome == Some(Decide(old(m.numYes), old(m.numNo))))
        && (old(m.resolved) ==> unchanged(m))
        && m.numYes == old(m.numYes) && m.numNo == old(m.numNo) && m.voters == old(m.voters)
    {
      r := markets[marketId].Resolve(caller);
    }

    /** Credits every bettor in `voters` whose side is `outcome` with one unit per share. */
    method PayWinners(voters: map<string, Elements.Bet>, outcome: Outcome)
      requires forall k :: k in users ==> users[k].id == k
      requires voters.Keys <= users.Keys
      modifies users.Values
      ensures forall k :: k in users ==> users[k].balance == old(users[k].balance) + Credit(voters, outcome, k) as real
      ensures forall k :: k in users ==> users[k].history == old(users[k].history)
    {
      var todo := voters.Keys;
      ghost var done: set<string> := {};
      while todo != {}
        invariant todo + done == voters.Keys && todo !! done
        invariant forall k :: k in users ==>
          users[k].balance == old(users[k].balance) + (if k in done then Credit(voters, outcome, k) as real else 0.0)
        invariant forall k :: k in users ==> users[k].history == old(users[k].history)
        decreases todo
      {
        var voter :| voter in todo;
        var bet := voters[voter];
        if bet.side == outcome {
          var user := users[voter];
          user.Deposit(bet.quantity as real);
        }
        todo := todo - {voter};
        done := done + {voter};
      }
    }

    /** Credits `amount` to `caller`'s account; does nothing for an unregistered caller. */
    method Deposit(caller: string, amount: real)
      requires Valid()
      modifies users.Values
      ensures Valid()
      ensures caller in users ==>
        users[caller].balance == old(users[caller].balance) + amount && users[caller].history == old(users[caller].history)
      ensures forall k :: k in users && k != caller ==> unchanged(users[k])
      ensures unchanged(markets.Values)
    {
      if caller !in users {
        return;
      }
      var user := users[caller];
      user.Deposit(amount);
    }

    /**
     * Settling the same market twice on the creator's behalf credits every
     * winner twice over, while the market itself ends as the first
     * settlement left it.
     */
    method DoubleResolve(caller: string, marketId: string)
      requires Valid()
      requires marketId in markets && caller == markets[marketId].creator
      modifies users.Values, markets.Values
      ensures Valid()
      ensures var m := markets[marketId];
        && m.resolved && m.outcome == Some(Decide(old(m.numYes), old(m.numNo)))
        && m.numYes == old(m.numYes) && m.numNo == old(m.numNo) && m.voters == old(m.voters)
        && (forall k :: k in users ==>
          users[k].balance == old(users[k].balance) + 2.0 * Credit(old(m.voters), Decide(old(m.numYes), old(m.numNo)), k) as real)
    {
      var _ := Resolve(caller, marketId);
      var _ := Resolve(caller, marketId);
    }
  }
}
