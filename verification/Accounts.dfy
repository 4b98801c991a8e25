/** How the theorems read amounts from the stored state, and the changes they speak of. */
module Accounts {
  import opened ByteStrings
  import opened Ledger

  /** What an account holds of an asset. */
  function Held(s: State, owner: string, asset: string): int {
    if Account(owner, asset) in s.balances then s.balances[Account(owner, asset)] else 0
  }

  /** What a spender may still take of an owner's asset. */
  function Granted(s: State, owner: string, spender: string, asset: string): int {
    if Grant(owner, spender, asset) in s.allowances then s.allowances[Grant(owner, spender, asset)] else 0
  }

  function Tracked(s: State, asset: string): Supply {
    if asset in s.supplies then s.supplies[asset] else Supply(0, 0, 0, 0)
  }

  /** One balance changed by the amount, and no other. */
  ghost predicate HeldChanges(s: State, after: State, owner: string, asset: string, amount: int) {
    forall o, x :: Held(after, o, x) == Held(s, o, x) + if o == owner && x == asset then amount else 0
  }

  /** An amount went from one account to another one, which may be the same. */
  ghost predicate HeldMoves(s: State, after: State, from: string, to: string, asset: string, amount: int) {
    forall o, x :: Held(after, o, x) == Held(s, o, x)
      + (if o == to && x == asset then amount else 0) - (if o == from && x == asset then amount else 0)
  }

  /** One grant now has the value, and no other changed. */
  ghost predicate GrantBecomes(s: State, after: State, owner: string, spender: string, asset: string, value: int) {
    forall o, p, x :: Granted(after, o, p, x)
      == if o == owner && p == spender && x == asset then value else Granted(s, o, p, x)
  }

  /** The totals of one asset are now these, and those of no other changed. */
  ghost predicate TrackedBecomes(s: State, after: State, asset: string, active: int, user: int, fee: int) {
    forall x :: Tracked(after, x)
      == if x == asset then Supply(active, user, fee, Tracked(s, x).baseFee) else Tracked(s, x)
  }

  /** Nothing but these parts of the state may differ. */
  predicate OnlyMoney(s: State, after: State) {
    after == s.(balances := after.balances, allowances := after.allowances, supplies := after.supplies,
                gasReserve := after.gasReserve)
  }
}
