/**
 * One binary market: its creator, question and liquidity, the number of YES
 * and NO bets placed, the bets themselves keyed by bettor, and whether and
 * how it has been resolved.
 */
module Markets {
  import opened Wrappers
  import opened Errors
  import opened Elements

  /** The outcome a market with these counts resolves to: NO only on a strict NO majority. */
  function Decide(numYes: nat, numNo: nat): (o: Outcome)
  {
    if numNo > numYes then NO else YES
  }

  /** Ties go to YES, and each side wins exactly when the other does not. */
  lemma DecideTiesGoToYes(numYes: nat, numNo: nat)
    ensures Decide(numYes, numNo) == NO <==> numNo > numYes
    ensures Decide(numYes, numNo) == YES <==> numYes >= numNo
    ensures Decide(numYes, numYes) == YES
  {
  }

  class Market {
    const creator: string
    const id: string
    const question: string
    var numYes: nat
    var numNo: nat
    const liquidity: real
    var resolved: bool
    var outcome: Option<Outcome>
    var voters: map<string, Bet>

    /**
     * The counters agree with the bets recorded, a market is resolved
     * exactly when it has an outcome, and that outcome is the one its counts
     * decide. Since a resolved market takes no further bets, its counts,
     * voters and outcome never change again.
     */
    ghost predicate Valid()
      reads this
    {
      && numYes + numNo == |voters|
      && resolved == outcome.Some?
      && (resolved ==> outcome == Some(Decide(numYes, numNo)))
    }

    /** A market opened by `caller`; its id is derived from `counter`. */
    constructor (caller: string, counter: string, question: string, liquidity: real)
      ensures Valid()
      ensures creator == caller && id == "market_" + counter
      ensures this.question == question && this.liquidity == liquidity
      ensures numYes == 0 && numNo == 0
      ensures !resolved && outcome == None && voters == map[]
    {
      creator := caller;
      id := "market_" + counter;
      this.question := question;
      this.liquidity := liquidity;
      numYes, numNo := 0, 0;
      resolved := false;
      outcome := None;
      voters := map[];
    }

    /**
     * Records `bet` as `caller`'s position and counts it on its side. The
     * counter moves by one bet, not by the bet's quantity, and nothing here
     * checks that `caller` has not bet before.
     */
    method AddBet(caller: string, bet: Bet)
      modifies this
      ensures bet.side == YES ==> numYes == old(numYes) + 1 && numNo == old(numNo)
      ensures bet.side == NO ==> numNo == old(numNo) + 1 && numYes == old(numYes)
      ensures voters == old(voters)[caller := bet]
      ensures resolved == old(resolved) && outcome == old(outcome)
      ensures old(Valid()) && !old(resolved) && caller !in old(voters) ==> Valid()
    {
      match bet.side {
        case YES => numYes := numYes + 1;
        case NO => numNo := numNo + 1;
      }
      voters := voters[caller := bet];
    }

    /**
     * Settles the market on behalf of `caller`. Only the creator may do it;
     * it does not look at whether the market is already resolved, but on a
     * consistent market that is already resolved it recomputes the same
     * outcome and so changes nothing.
     */
    method Resolve(caller: string) returns (r: Result<(), Error>)
      modifies this
      ensures caller != creator ==> r == Err(NotCreator) && unchanged(this)
      ensures caller == creator ==> r == Ok(())
      ensures caller == creator ==> resolved && outcome == Some(Decide(old(numYes), old(numNo)))
      ensures numYes == old(numYes) && numNo == old(numNo) && voters == old(voters)
      ensures old(Valid()) ==> Valid()
      ensures old(Valid()) && old(resolved) ==> unchanged(this)
    {
      if creator != caller {
        return Err(NotCreator);
      }
      resolved := true;
      if numNo > numYes {
        outcome := Some(NO);
      } else {
        outcome := Some(YES);
      }
      r := Ok(());
    }

    /** Whether the market has been settled; on a valid market, exactly when it has an outcome. */
    function IsResolved(): (b: bool)
      reads this
      ensures Valid() ==> (b <==> outcome.Some?)
    {
      resolved
    }

    /** Whether `userId` holds a bet in this market. */
    function HasAlreadyVoted(userId: string): (b: bool)
      reads this
      ensures b <==> userId in voters.Keys
    {
      MapGet(voters, userId).Some?
    }
  }

  /** The entry for `key`, if any. */
  function MapGet<K, V>(m: map<K, V>, key: K): (r: Option<V>)
    ensures r.Some? <==> key in m
    ensures r.Some? ==> r.value == m[key]
  {
    if key in m then Some(m[key]) else None
  }

  /** Resolving twice on the creator's behalf picks the same outcome both times. */
  method ResolveTwiceSameOutcome(m: Market, caller: string)
    requires caller == m.creator
    modifies m
    ensures m.outcome == Some(Decide(old(m.numYes), old(m.numNo)))
  {
    var _ := m.Resolve(caller);
    var _ := m.Resolve(caller);
  }
}
