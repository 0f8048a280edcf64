/** The ways a contract operation can be rejected, with the message each one carries. */
module Errors {

  datatype Error =
    | NoSuchMarket
    | MarketAlreadyResolved
    | UserNotRegistered
    | AlreadyVoted
    | InsufficientBalance
    | NotCreator

  /** The text the contract returns for each rejection. */
  function Message(e: Error): string
  {
    match e
    case NoSuchMarket => "No such market"
    case MarketAlreadyResolved => "Market already resolved"
    case UserNotRegistered => "User is not registered"
    case AlreadyVoted => "You have already voted for this market"
    case InsufficientBalance => "Insufficient balance"
    case NotCreator => "You are not the creator"
  }
}
