/**
 * What a resolution pays out. Every winning bet is worth one currency unit
 * per share, whatever was paid for it; losing bets and non-bettors get
 * nothing. Totals over a set of users are finite sums defined by picking
 * elements one at a time; the lemmas show the pick does not matter.
 */
module Payout {
  import opened Elements

  /** What user `u` is credited when a market with these `voters` resolves to `outcome`. */
  function Credit(voters: map<string, Bet>, outcome: Outcome, u: string): (c: nat)
    ensures c > 0 ==> u in voters && voters[u].side == outcome
    ensures u in voters && voters[u].side == outcome ==> c == voters[u].quantity
  {
    if u in voters && voters[u].side == outcome then voters[u].quantity else 0
  }

  /** The bettors whose side is `outcome`. */
  ghost function Winners(voters: map<string, Bet>, outcome: Outcome): set<string>
  {
    set u | u in voters && voters[u].side == outcome
  }

  /** The total credited to the users in `s`. */
  ghost function PaidTo(voters: map<string, Bet>, outcome: Outcome, s: set<string>): nat
    decreases s
  {
    if s == {} then 0
    else
      var u :| u in s;
      Credit(voters, outcome, u) + PaidTo(voters, outcome, s - {u})
  }

  /** The total number of shares staked by the bettors in `s` (non-bettors count as zero). */
  ghost function StakeOf(voters: map<string, Bet>, s: set<string>): nat
    decreases s
  {
    if s == {} then 0
    else
      var u :| u in s;
      (if u in voters then voters[u].quantity else 0) + StakeOf(voters, s - {u})
  }

  /** Any member of `s` can be taken out of `PaidTo` first. */
  lemma {:induction false} PaidToRemove(voters: map<string, Bet>, outcome: Outcome, s: set<string>, u: string)
    requires u in s
    ensures PaidTo(voters, outcome, s) == Credit(voters, outcome, u) + PaidTo(voters, outcome, s - {u})
    decreases s
  {
    var w :| w in s && PaidTo(voters, outcome, s) == Credit(voters, outcome, w) + PaidTo(voters, outcome, s - {w});
    if w != u {
      PaidToRemove(voters, outcome, s - {w}, u);
      PaidToRemove(voters, outcome, s - {u}, w);
      assert s - {w} - {u} == s - {u} - {w};
    }
  }

  /** Any member of `s` can be taken out of `StakeOf` first. */
  lemma {:induction false} StakeOfRemove(voters: map<string, Bet>, s: set<string>, u: string)
    requires u in s
    ensures StakeOf(voters, s) == (if u in voters then voters[u].quantity else 0) + StakeOf(voters, s - {u})
    decreases s
  {
    var w :| w in s && StakeOf(voters, s) == (if w in voters then voters[w].quantity else 0) + StakeOf(voters, s - {w});
    if w != u {
      StakeOfRemove(voters, s - {w}, u);
      StakeOfRemove(voters, s - {u}, w);
      assert s - {w} - {u} == s - {u} - {w};
    }
  }

  /** Paying the users in `s` costs the stake of exactly those of them who won. */
  lemma {:induction false} PaidToIsWinningStake(voters: map<string, Bet>, outcome: Outcome, s: set<string>)
    ensures PaidTo(voters, outcome, s) == StakeOf(voters, s * Winners(voters, outcome))
    decreases s
  {
    var w := Winners(voters, outcome);
    if s != {} {
      var u :| u in s;
      PaidToRemove(voters, outcome, s, u);
      PaidToIsWinningStake(voters, outcome, s - {u});
      if u in w {
        StakeOfRemove(voters, s * w, u);
        assert s * w - {u} == (s - {u}) * w;
      } else {
        assert s * w == (s - {u}) * w;
      }
    }
  }

  /**
   * When every bettor is among the users paid, the total credited is the
   * number of shares held on the winning side.
   */
  lemma TotalPayout(voters: map<string, Bet>, outcome: Outcome, users: set<string>)
    requires voters.Keys <= users
    ensures PaidTo(voters, outcome, users) == StakeOf(voters, Winners(voters, outcome))
  {
    PaidToIsWinningStake(voters, outcome, users);
    assert users * Winners(voters, outcome) == Winners(voters, outcome);
  }
}
