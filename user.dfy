/**
 * A registered account: its identity, a free-text bio, a balance and the
 * ordered list of markets it has bet on. The balance primitives check
 * nothing; keeping the balance non-negative is up to the contract that
 * calls them.
 */
module Users {

  /** The balance every account starts with. */
  const StartingBalance: real := 100.0

  class User {
    const id: string
    const bio: string
    var balance: real
    var history: seq<string>

    /** A fresh account for `caller`, holding the starting balance and no history. */
    constructor (caller: string, bio: string)
      ensures id == caller && this.bio == bio
      ensures balance == StartingBalance && history == []
    {
      id := caller;
      this.bio := bio;
      balance := StartingBalance;
      history := [];
    }

    /** The current balance; reading it changes nothing. */
    function Balance(): real
      reads this
    {
      balance
    }

    /** Adds `amount` to the balance, whatever its sign. */
    method Deposit(amount: real)
      modifies this
      ensures balance == old(balance) + amount
      ensures history == old(history)
    {
      balance := balance + amount;
    }

    /** Subtracts `amount` from the balance; there is no floor. */
    method Withdraw(amount: real)
      modifies this
      ensures balance == old(balance) - amount
      ensures history == old(history)
    {
      balance := balance - amount;
    }

    /** Appends a market id to the history, leaving the balance alone. */
    method AddMarket(marketId: string)
      modifies this
      ensures history == old(history) + [marketId]
      ensures balance == old(balance)
    {
      history := history + [marketId];
    }
  }

  /** Depositing an amount and then withdrawing it leaves the account as it was. */
  method DepositThenWithdraw(u: User, amount: real)
    modifies u
    ensures u.balance == old(u.balance) && u.history == old(u.history)
  {
    u.Deposit(amount);
    u.Withdraw(amount);
  }
}
