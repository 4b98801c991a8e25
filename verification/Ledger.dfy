/** The bridge's stored amounts and the elementary changes to them. */
module Ledger {
  import opened ByteStrings
  import opened Blocklist

  datatype Account = Account(owner: string, asset: string)

  datatype Grant = Grant(owner: string, spender: string, asset: string)

  datatype Supply = Supply(active: int, user: int, fee: int, baseFee: uint64)

  datatype TokenInfo = TokenInfo(symbol: string, minWithdrawal: int)

  /** A queued withdrawal; gasCost is 0 where the program leaves it nil. */
  datatype PendingSpend = PendingSpend(
    nonce: uint64, amount: int, from: string, to: Address, asset: string, token: Option<Address>,
    unsignedTx: Bytes, blockHeight: uint64, vaultAtQueue: Address, gasCost: int)

  datatype State = State(
    chain: Chain, paused: bool, testnet: bool, vault: Address, chainId: uint64, self: string, router: string,
    relayers: set<string>, tokens: map<Address, TokenInfo>,
    balances: map<Account, int>, allowances: map<Grant, int>, supplies: map<string, Supply>, gasReserve: int,
    confirmed: uint64, pending: uint64, spends: map<uint64, PendingSpend>)

  datatype Error =
    | Paused | NoVault | NotRelayer | ProofRejected | AlreadyObserved | InvalidAmount | InvalidToken
    | WithdrawalPending | BelowMinimum | BadAddress | ZeroAddress | NoHeader | LowGasReserve | FeeOverflow
    | BadMaxFee | FeeAboveMax | InsufficientBalance | InsufficientAllowance | NoTssKey | InvalidRecipient
    | NoPendingSpend | IntentMismatch | NotAfterWithdrawal | ZeroVaultAtQueue | NotHead | NotWithdrawer
    | ProofMissing | NotTestnet | SpendMismatch | ChainError(e: Blocklist.Error) | Aborted

  const ZERO_ADDRESS: Address := Zeros(20)

  // ----- Reading -----

  function BalanceOf(balances: map<Account, int>, owner: string, asset: string): int {
    var k := Account(owner, asset);
    if k in balances then balances[k] else 0
  }

  function AllowanceOf(allowances: map<Grant, int>, owner: string, spender: string, asset: string): int {
    var k := Grant(owner, spender, asset);
    if k in allowances then allowances[k] else 0
  }

  function SupplyOf(supplies: map<string, Supply>, asset: string): Supply {
    if asset in supplies then supplies[asset] else Supply(0, 0, 0, 0)
  }

  predicate HasPendingWithdrawal(s: State) {
    s.pending > s.confirmed
  }

  // ----- Elementary changes -----

  function Credited(balances: map<Account, int>, owner: string, asset: string, amount: int): map<Account, int> {
    balances[Account(owner, asset) := BalanceOf(balances, owner, asset) + amount]
  }

  /** DecBalance: refused for a non-positive amount or a balance below it. */
  predicate CanDebit(balances: map<Account, int>, owner: string, asset: string, amount: int) {
    amount > 0 && BalanceOf(balances, owner, asset) >= amount
  }

  function Allowed(allowances: map<Grant, int>, owner: string, spender: string, asset: string, amount: int)
    : map<Grant, int>
  {
    allowances[Grant(owner, spender, asset) := amount]
  }

  /** TrackDeposit. */
  function Deposited(supplies: map<string, Supply>, asset: string, userAmount: int, feeAmount: int): map<string, Supply> {
    var s := SupplyOf(supplies, asset);
    supplies[asset := s.(active := s.active + userAmount + feeAmount, user := s.user + userAmount, fee := s.fee + feeAmount)]
  }

  /** TrackWithdrawal goes through; otherwise it aborts the call. */
  predicate CanWithdraw(supplies: map<string, Supply>, asset: string, amount: int) {
    amount <= SupplyOf(supplies, asset).active && amount <= SupplyOf(supplies, asset).user
  }

  function Withdrawn(supplies: map<string, Supply>, asset: string, amount: int): map<string, Supply> {
    var s := SupplyOf(supplies, asset);
    supplies[asset := s.(active := s.active - amount, user := s.user - amount)]
  }

  /** The supply change of an ETH unmap, with its two clamps at zero. */
  function WithdrawnETH(supplies: map<string, Supply>, amount: int, totalDeduct: int): map<string, Supply> {
    var s := SupplyOf(supplies, "eth");
    supplies["eth" := s.(active := Clamp(s.active - amount), user := Clamp(s.user - totalDeduct),
                         fee := s.fee + (totalDeduct - amount))]
  }

  function Restored(supplies: map<string, Supply>, asset: string, amount: int): map<string, Supply> {
    var s := SupplyOf(supplies, asset);
    supplies[asset := s.(active := s.active + amount, user := s.user + amount)]
  }

  function Clamp(n: int): int {
    if n < 0 then 0 else n
  }

  /** Takes the head spend's amount back to its owner and into supply. */
  function Refunded(s: State, ps: PendingSpend): State {
    s.(balances := Credited(s.balances, ps.from, ps.asset, ps.amount),
       supplies := Restored(s.supplies, ps.asset, ps.amount))
  }

  function GetPendingSpend(s: State, nonce: uint64): Option<PendingSpend> {
    if nonce in s.spends then Some(s.spends[nonce].(nonce := nonce)) else None
  }

  /** NonceAdvance by one: compare with the stored head and require its spend to exist. */
  predicate Advances(s: State, ps: PendingSpend) {
    s.confirmed == ps.nonce && s.confirmed in s.spends
  }

  function NonceAdvanced(s: State, ps: PendingSpend): State {
    if Advances(s, ps) then s.(confirmed := Wrap64(s.confirmed + 1)) else s
  }

  function Deleted(s: State, nonce: uint64): State {
    s.(spends := s.spends - {nonce})
  }
}
