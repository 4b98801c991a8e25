/** Runs of the contract, each with the log of what its calls brought about. */
module History {
  import opened ByteStrings
  import opened Ledger
  import opened Observed
  import opened Actions
  import H = Handlers

  /**
   What one call brought about: a verified deposit, of ETH or of a token; a withdrawal queued, paid, refunded, or dropped
   by a testnet clear; observed deposits wiped at some heights. The last three are the ways in which
   the tracked supply parts from the balances: a swap passes the deposit tax on, unmapFrom charges a
   fee that no total records, and the user total of an ETH unmap is held at zero.
   */
  datatype Event =
    | Credit(asset: string, amount: int, height: uint64, mark: Mark, token: Option<Address>)
    | Queue(spend: PendingSpend)
    | Pay(spend: PendingSpend)
    | Refund(spend: PendingSpend)
    | Drop(spend: PendingSpend)
    | Wipe(low: uint64, high: uint64)
    | SwapTax(asset: string, amount: int)
    | UntrackedFee(asset: string, amount: int)
    | Excess(asset: string, amount: int)

  datatype World = World(state: State, log: seq<Event>)

  function SpendEvents(s: State, n: uint64, event: PendingSpend -> Event): seq<Event> {
    if n in s.spends then [event(s.spends[n])] else []
  }

  /** What the owner's balance fell by. */
  function Debit(s: State, after: State, owner: string, asset: string): int {
    BalanceOf(s.balances, owner, asset) - BalanceOf(after.balances, owner, asset)
  }

  function CreditEvent(asset: string, deposit: H.DepositProof, height: uint64, hash: Hash, index: uint64,
                       token: Option<Address>): Event
  {
    Credit(asset, if deposit.Deposit? then deposit.amount else 0, height, H.DepositMark(hash, index), token)
  }

  /** A swap hands the router the whole deposit, tax included. */
  function SwapEvents(s: State, deposit: H.DepositProof, instructions: seq<string>, call: H.RouterCall): seq<Event> {
    if deposit.Deposit? && call.CallReturns? && H.Swaps(s, H.ReadInstructions(deposit.depositor, instructions)) then
      [SwapTax("eth", H.Tax(deposit.amount))]
    else []
  }

  /** The log of a successful call. */
  function Events(s: State, a: Action, after: State): seq<Event> {
    match a
    case MapETH(_, height, hash, index, deposit, instructions, call) =>
      [CreditEvent("eth", deposit, height, hash, index, None)] + SwapEvents(s, deposit, instructions, call)
    case MapERC20(token, height, hash, index, deposit, _, _) =>
      if token.Some? && H.GetTokenInfo(s, token.value).Some? then
        [CreditEvent(H.GetTokenInfo(s, token.value).value.symbol, deposit, height, hash, index, token)]
      else []
    case UnmapETH(caller, _, _, _, _, _) =>
      SpendEvents(after, s.pending, ps => Queue(ps))
      + [Excess("eth", Clamp(Debit(s, after, caller, "eth") - SupplyOf(s.supplies, "eth").user))]
    case UnmapERC20(_, _, _, _, _) => SpendEvents(after, s.pending, ps => Queue(ps))
    case UnmapFrom(_, from, asset, amount, _, _, _, _, _) =>
      SpendEvents(after, s.pending, ps => Queue(ps))
      + (if amount.Some? then [UntrackedFee(asset, Debit(s, after, from, asset) - amount.value)] else [])
    case ConfirmSpend(_, _, spend) =>
      if spend.Proven? && spend.status == 1 then SpendEvents(s, s.confirmed, ps => Pay(ps))
      else SpendEvents(s, s.confirmed, ps => Refund(ps))
    case ClearNonce(_) => SpendEvents(s, s.confirmed, ps => Refund(ps))
    case ExpireWithdrawal(_, nonce, _, _) => SpendEvents(s, nonce, ps => Refund(ps))
    case CancelMyWithdrawal(_, nonce, _) => SpendEvents(s, nonce, ps => Refund(ps))
    case ClearTestnetState =>
      SpendEvents(s, s.confirmed, ps => Drop(ps)) + [Wipe(H.ClearFrom(s.chain.lastHeight), s.chain.lastHeight)]
    case ReplaceBlock(e) => [Wipe(e.blockNumber, e.blockNumber)]
    case _ => []
  }

  /** A failed call is reverted and leaves no trace. */
  function Step(keccak: Hasher, w: World, a: Action): World {
    match Apply(keccak, w.state, a)
    case Ok(after) => World(after, w.log + Events(w.state, a, after))
    case Err(_) => w
  }

  function Run(keccak: Hasher, init: State, actions: seq<Action>): World {
    if actions == [] then World(init, [])
    else Step(keccak, Run(keccak, init, actions[..|actions| - 1]), actions[|actions| - 1])
  }

  /** The log is only an observer: the states are those of the bare runs. */
  lemma {:induction false} RunIsRunFrom(keccak: Hasher, init: State, actions: seq<Action>)
    ensures Run(keccak, init, actions).state == RunFrom(keccak, init, actions)
  {
    if actions != [] {
      RunIsRunFrom(keccak, init, actions[..|actions| - 1]);
      hide Apply, Events;
    }
  }
}
