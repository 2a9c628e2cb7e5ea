/** Payments out of holds, and where they may go. */
module Payouts {
  import opened Collections
  import opened HoldLedger

  type HoldKey = (Account, nat)

  /** Who paid is on record for an execution or release; a reclaim can be anybody's. */
  datatype Payout = Payout(hold: HoldKey, to: Account, amount: int, time: int, caller: Option<Account>)

  /** Where a hold's tokens go back to: its holder. The test double takes the zero address for "no target". */
  function Back(hold: Hold, holder: Account): Account {
    if holder == ZERO then hold.to else holder
  }

  /** A fixed destination is paid, or the holder; once the hold has expired, only the holder. */
  predicate GoesRight(hold: Hold, p: Payout, expired: bool) {
    && (hold.to != ZERO ==> p.to == hold.to || p.to == p.hold.0)
    && (expired ==> p.to == Back(hold, p.hold.0))
  }

  /** Everything paid to one account. */
  function PaidTo(payouts: seq<Payout>, a: Account): int {
    if payouts == [] then 0
    else
      var last := payouts[|payouts| - 1];
      PaidTo(payouts[..|payouts| - 1], a) + if last.to == a then last.amount else 0
  }

  lemma PaidToMore(payouts: seq<Payout>, p: Payout, a: Account)
    ensures PaidTo(payouts + [p], a) == PaidTo(payouts, a) + if p.to == a then p.amount else 0
  {
    assert (payouts + [p])[..|payouts|] == payouts;
  }
}
