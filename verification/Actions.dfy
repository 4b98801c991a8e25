/** The contract's calls as data, and what each does to the stored state. */
module Actions {
  import opened ByteStrings
  import opened Blocklist
  import opened Ledger
  import HeaderStores
  import H = Handlers

  datatype Action =
    | MapETH(caller: string, height: uint64, hash: Hash, index: uint64, deposit: H.DepositProof,
             instructions: seq<string>, call: H.RouterCall)
    | MapERC20(token: Option<Address>, height: uint64, hash: Hash, index: uint64, deposit: H.DepositProof,
               instructions: seq<string>, call: H.RouterCall)
    | UnmapETH(caller: string, amount: Option<int>, dest: Option<Address>, maxFee: H.MaxFee, deductFee: bool, tssKey: bool)
    | UnmapERC20(caller: string, amount: Option<int>, token: Option<Address>, dest: Option<Address>, tssKey: bool)
    | UnmapFrom(caller: string, from: string, asset: string, amount: Option<int>, token: Option<Address>,
                dest: Option<Address>, maxFee: H.MaxFee, deductFee: bool, tssKey: bool)
    | ConfirmSpend(intent: H.Intent, height: uint64, spend: H.SpendProof)
    | ClearNonce(drop: H.DropProof)
    | ExpireWithdrawal(caller: string, nonce: uint64, drop: H.DropProof, l2Height: uint64)
    | CancelMyWithdrawal(caller: string, nonce: uint64, drop: H.DropProof)
    | ReplaceWithdrawal
    | ClearTestnetState
    | Transfer(caller: string, to: string, asset: string, amount: Option<int>)
    | TransferFrom(caller: string, from: string, to: string, asset: string, amount: Option<int>)
    | Approve(caller: string, spender: string, asset: string, amount: Option<int>)
    | IncreaseAllowance(caller: string, spender: string, asset: string, amount: Option<int>)
    | DecreaseAllowance(caller: string, spender: string, asset: string, amount: Option<int>)
    | Configure(setting: H.Setting)
    | Pause
    | Unpause
    | SeedBlock(entry: BlockEntry)
    | AddBlocks(entries: seq<BlockEntry>)
    | ReplaceBlock(entry: BlockEntry)

  /** Seeding and replacing a header wait for unpausing like every other admin action; adding does not. */
  function Apply(keccak: Hasher, s: State, a: Action): H.Outcome {
    match a
    case MapETH(caller, height, hash, index, deposit, instructions, call) =>
      H.MapETH(s, caller, height, hash, index, deposit, instructions, call)
    case MapERC20(token, height, hash, index, deposit, instructions, call) =>
      H.MapERC20(s, token, height, hash, index, deposit, instructions, call)
    case UnmapETH(caller, amount, dest, maxFee, deductFee, tssKey) =>
      H.UnmapETH(s, caller, amount, dest, maxFee, deductFee, tssKey)
    case UnmapERC20(caller, amount, token, dest, tssKey) => H.UnmapERC20(s, caller, amount, token, dest, tssKey)
    case UnmapFrom(caller, from, asset, amount, token, dest, maxFee, deductFee, tssKey) =>
      H.UnmapFrom(s, caller, from, asset, amount, token, dest, maxFee, deductFee, tssKey)
    case ConfirmSpend(intent, height, spend) => H.ConfirmSpend(s, intent, height, spend)
    case ClearNonce(drop) => H.ClearNonce(s, drop)
    case ExpireWithdrawal(caller, nonce, drop, l2Height) => H.ExpireWithdrawal(s, caller, nonce, drop, l2Height)
    case CancelMyWithdrawal(caller, nonce, drop) => H.CancelMyWithdrawal(s, caller, nonce, drop)
    case ReplaceWithdrawal => H.ReplaceWithdrawal(s)
    case ClearTestnetState => H.ClearTestnetState(s)
    case Transfer(caller, to, asset, amount) => H.Transfer(s, caller, to, asset, amount)
    case TransferFrom(caller, from, to, asset, amount) => H.TransferFrom(s, caller, from, to, asset, amount)
    case Approve(caller, spender, asset, amount) => H.Approve(s, caller, spender, asset, amount)
    case IncreaseAllowance(caller, spender, asset, amount) => H.IncreaseAllowance(s, caller, spender, asset, amount)
    case DecreaseAllowance(caller, spender, asset, amount) => H.DecreaseAllowance(s, caller, spender, asset, amount)
    case Configure(setting) => H.Configure(s, setting)
    case Pause => Ok(s.(paused := true))
    case Unpause => Ok(s.(paused := false))
    case SeedBlock(e) => if s.paused then Err(Paused) else H.OnChain(s, HeaderStores.SeedBlock(s.chain, e, s.chainId))
    case AddBlocks(es) => H.OnChain(s, HeaderStores.AddBlocks(keccak, s.chain, es, s.chainId))
    case ReplaceBlock(e) => if s.paused then Err(Paused) else H.OnChain(s, HeaderStores.ReplaceBlock(s.chain, e, s.chainId))
  }

  /** A failed call is reverted. */
  function Next(keccak: Hasher, s: State, a: Action): State {
    match Apply(keccak, s, a)
    case Ok(after) => after
    case Err(_) => s
  }

  function RunFrom(keccak: Hasher, s: State, actions: seq<Action>): State {
    if actions == [] then s
    else Next(keccak, RunFrom(keccak, s, actions[..|actions| - 1]), actions[|actions| - 1])
  }

  lemma RunPrefix(keccak: Hasher, init: State, actions: seq<Action>, i: nat)
    requires i < |actions|
    ensures RunFrom(keccak, init, actions[..i + 1]) == Next(keccak, RunFrom(keccak, init, actions[..i]), actions[i])
  {
    hide Next;
    assert actions[..i + 1][..i] == actions[..i];
  }

  /** The state of a freshly deployed contract. */
  function Deployed(testnet: bool, chainId: uint64, self: string): State {
    State(Chain(map[], 0, map[]), false, testnet, ZERO_ADDRESS, chainId, self, "", {}, map[],
          map[], map[], map[], 0, 0, 0, map[])
  }

  // ----- What Apply unfolds to -----

  lemma MapETHShape(keccak: Hasher, s: State, a: Action)
    requires a.MapETH? && Apply(keccak, s, a).Ok?
    ensures a.deposit.Deposit? && a.deposit.amount > 0
    ensures Apply(keccak, s, a).value
      == H.AcceptDeposit(s, a.height, H.DepositMark(a.hash, a.index), "eth", a.deposit.amount, H.Tax(a.deposit.amount),
                         H.ReadInstructions(a.deposit.depositor, a.instructions), a.call)
  {
    hide H.AcceptDeposit, H.Marked, H.ReadInstructions;
  }

  lemma MapERC20Shape(keccak: Hasher, s: State, a: Action)
    requires a.MapERC20? && Apply(keccak, s, a).Ok?
    ensures a.deposit.Deposit? && a.deposit.amount > 0 && a.token.Some? && H.GetTokenInfo(s, a.token.value).Some?
    ensures Apply(keccak, s, a).value
      == H.AcceptDeposit(s, a.height, H.DepositMark(a.hash, a.index), H.GetTokenInfo(s, a.token.value).value.symbol,
                         a.deposit.amount, 0, H.ReadInstructions(a.deposit.depositor, a.instructions), a.call)
  {
    hide H.AcceptDeposit, H.Marked, H.ReadInstructions, H.GetTokenInfo;
  }

  lemma IsUnmapETH(keccak: Hasher, s: State, a: Action)
    requires a.UnmapETH?
    ensures Apply(keccak, s, a) == H.UnmapETH(s, a.caller, a.amount, a.dest, a.maxFee, a.deductFee, a.tssKey)
  {
    hide H.UnmapETH;
  }

  lemma IsUnmapFrom(keccak: Hasher, s: State, a: Action)
    requires a.UnmapFrom?
    ensures Apply(keccak, s, a)
      == H.UnmapFrom(s, a.caller, a.from, a.asset, a.amount, a.token, a.dest, a.maxFee, a.deductFee, a.tssKey)
  {
    hide H.UnmapFrom;
  }

  lemma IsUnmapERC20(keccak: Hasher, s: State, a: Action)
    requires a.UnmapERC20?
    ensures Apply(keccak, s, a) == H.UnmapERC20(s, a.caller, a.amount, a.token, a.dest, a.tssKey)
  {
    hide H.UnmapERC20;
  }

  lemma IsReplace(keccak: Hasher, s: State, a: Action)
    requires a.ReplaceWithdrawal?
    ensures Apply(keccak, s, a) == H.ReplaceWithdrawal(s)
  {
    hide H.ReplaceWithdrawal;
  }

  lemma IsClear(keccak: Hasher, s: State, a: Action)
    requires a.ClearTestnetState?
    ensures Apply(keccak, s, a) == H.ClearTestnetState(s)
  {
    hide H.ClearTestnetState;
  }

  lemma IsConfigure(keccak: Hasher, s: State, a: Action)
    requires a.Configure?
    ensures Apply(keccak, s, a) == H.Configure(s, a.setting)
  {
    hide H.Configure;
  }
}
