/** Every handler of the bridge as a function from the stored state to the next one, or an error. */
module Handlers {
  import opened ByteStrings
  import opened Blocklist
  import opened HeaderStores
  import opened Ledger
  import opened Observed
  import Erc20
  import Gas
  import Transactions

  type Outcome = Result<State, Ledger.Error>

  const MIN_ETH_WITHDRAWAL := 10_000_000_000_000_000
  const MIN_TOKEN_WITHDRAWAL := 10_000_000
  const MIN_GAS_RESERVE := 50_000_000_000_000_000
  const DEPOSIT_TAX_BPS := 100
  const GAS_TIP_CAP: uint64 := 2_000_000_000
  const REPLACEMENT_TIP_CAP: uint64 := 4_000_000_000
  const EXPIRY_WINDOW := 5000

  // ----- Inputs decided outside the stored state -----

  /** A depositor's identifier, never empty. */
  type Did = s: string | s != "" witness "did"

  /** The verdict on a deposit proof: rejected, or who paid how much. */
  datatype DepositProof = Rejected | Deposit(depositor: Did, amount: nat)

  /** A transferFrom made by another contract during the router call. */
  datatype Move = Move(caller: string, from: string, to: string, asset: string, amount: Option<int>)

  /** The router call fails without effect, or returns after some transfers. */
  datatype RouterCall = CallFails | CallReturns(moves: seq<Move>)

  datatype Routing = Routing(dest: string, swapTo: string, assetOut: string, destChain: string)

  datatype MaxFee = NoCap | BadCap | Cap(limit: int)

  /** The verdict on a withdrawal's transaction and receipt proofs; signer is what ecrecover returned. */
  datatype SpendProof = Unproven | Proven(tx: Transactions.ParsedTx, signer: Address, status: uint64)

  /** An L1 proof that a withdrawal was dropped: not given, given and refused, or accepted. */
  datatype DropProof = Missing | Refused | Dropped

  datatype Intent = Intent(nonce: uint64, to: Address, amount: Option<int>, asset: string)

  // ----- Deposits -----

  /** The value of an instruction "key=value" with a non-empty value. */
  function Instruction(instr: string, key: string): Option<string> {
    if |instr| > |key| && instr[..|key|] == key then Some(instr[|key|..]) else None
  }

  function ReadInstruction(r: Routing, instr: string): Routing {
    var r1 := match Instruction(instr, "deposit_to=") case Some(v) => r.(dest := v) case None => r;
    var r2 := match Instruction(instr, "swap_to=") case Some(v) => r1.(swapTo := v) case None => r1;
    var r3 := match Instruction(instr, "asset_out=") case Some(v) => r2.(assetOut := v) case None => r2;
    match Instruction(instr, "destination_chain=") case Some(v) => r3.(destChain := v) case None => r3
  }

  /** Later instructions override earlier ones. */
  function ReadInstructions(did: string, instructions: seq<string>): Routing {
    if instructions == [] then Routing(did, "", "", "")
    else ReadInstruction(ReadInstructions(did, instructions[..|instructions| - 1]), instructions[|instructions| - 1])
  }

  predicate Swaps(s: State, r: Routing) {
    r.swapTo != "" && r.assetOut != "" && s.router != ""
  }

  function RouterAddress(s: State): string {
    "contract:" + s.router
  }

  function ApplyMoves(s: State, moves: seq<Move>): State {
    if moves == [] then s
    else
      var before := ApplyMoves(s, moves[..|moves| - 1]);
      var m := moves[|moves| - 1];
      match TransferFrom(before, m.caller, m.from, m.to, m.asset, m.amount)
      case Ok(after) => after
      case Err(_) => before
  }

  /** routeDeposit: the state after a swap attempt, and who is still to be credited ("" for nobody). */
  function Routed(s: State, r: Routing, asset: string, amount: int, call: RouterCall): (State, string) {
    if !Swaps(s, r) then (s, r.dest)
    else
      var funded := s.(balances := Credited(s.balances, s.self, asset, amount),
                       allowances := Allowed(s.allowances, s.self, RouterAddress(s), asset, amount));
      var called := match call case CallFails => funded case CallReturns(moves) => ApplyMoves(funded, moves);
      var closed := called.(allowances := Allowed(called.allowances, s.self, RouterAddress(s), asset, 0));
      if call.CallReturns? then (closed, "")
      else if CanDebit(closed.balances, s.self, asset, amount) then
        (closed.(balances := Credited(closed.balances, s.self, asset, -amount)), r.dest)
      else (closed, r.dest)
  }

  function CreditTo(s: State, dest: string, asset: string, amount: int): State {
    if dest == "" then s else s.(balances := Credited(s.balances, dest, asset, amount))
  }

  predicate Marked(c: Chain, height: uint64, m: Mark)
    requires ValidMark(m)
  {
    height in c.observed && HasEntry(c.observed[height], MakeEntry(m))
  }

  function AddMark(c: Chain, height: uint64, m: Mark): Chain
    requires ValidMark(m)
  {
    c.(observed := c.observed[height := (if height in c.observed then c.observed[height] else []) + MakeEntry(m)])
  }

  function DepositMark(hash: Hash, index: uint64): (m: Mark)
    ensures ValidMark(m)
  {
    Mark(hash, index % 0x1_0000)
  }

  function Tax(amount: nat): nat {
    amount * DEPOSIT_TAX_BPS / 10000
  }

  /** The accepted deposit: route, tax, credit, account, mark. */
  function AcceptDeposit(s: State, height: uint64, m: Mark, asset: string, amount: nat, tax: nat,
                    routing: Routing, call: RouterCall): State
    requires ValidMark(m)
  {
    var (routed, dest) := Routed(s, routing, asset, amount, call);
    Booked(routed, height, m, asset, amount, tax, dest)
  }

  function Booked(routed: State, height: uint64, m: Mark, asset: string, amount: nat, tax: nat, dest: string): State
    requires ValidMark(m)
  {
    var taxed := routed.(gasReserve := routed.gasReserve + tax);
    var credited := CreditTo(taxed, dest, asset, amount - tax);
    credited.(supplies := Deposited(credited.supplies, asset, amount - tax, tax),
              chain := AddMark(credited.chain, height, m))
  }

  /** Whatever transfers the router makes, only balances and allowances change. */
  lemma {:induction false} MovesChange(s: State, moves: seq<Move>)
    ensures var after := ApplyMoves(s, moves);
      after == s.(balances := after.balances, allowances := after.allowances)
  {
    if moves != [] {
      MovesChange(s, moves[..|moves| - 1]);
      hide Credited, Allowed;
    }
  }

  lemma RoutedChanges(s: State, r: Routing, asset: string, amount: int, call: RouterCall)
    ensures var after := Routed(s, r, asset, amount, call).0;
      after == s.(balances := after.balances, allowances := after.allowances)
  {
    hide Credited, Allowed, ApplyMoves;
    if Swaps(s, r) && call.CallReturns? {
      MovesChange(s.(balances := Credited(s.balances, s.self, asset, amount),
                     allowances := Allowed(s.allowances, s.self, RouterAddress(s), asset, amount)), call.moves);
    }
  }

  /** All that an accepted deposit changes. */
  lemma AcceptChanges(s: State, height: uint64, m: Mark, asset: string, amount: nat, tax: nat, routing: Routing, call: RouterCall)
    requires ValidMark(m)
    ensures var after := AcceptDeposit(s, height, m, asset, amount, tax, routing, call);
      after == s.(balances := after.balances, allowances := after.allowances, gasReserve := s.gasReserve + tax,
                  supplies := after.supplies, chain := AddMark(s.chain, height, m))
  {
    hide Routed, Credited, Deposited, AddMark;
    RoutedChanges(s, routing, asset, amount, call);
  }

  function MapETH(s: State, caller: string, height: uint64, hash: Hash, txIndex: uint64, proof: DepositProof,
                  instructions: seq<string>, call: RouterCall): Outcome
  {
    var m := DepositMark(hash, txIndex);
    if s.paused then Err(Paused)
    else if s.vault == ZERO_ADDRESS then Err(NoVault)
    else if caller == "" || caller !in s.relayers then Err(NotRelayer)
    else if proof.Rejected? then Err(ProofRejected)
    else if Marked(s.chain, height, m) then Err(AlreadyObserved)
    else if proof.amount <= 0 then Err(InvalidAmount)
    else Ok(AcceptDeposit(s, height, m, "eth", proof.amount, Tax(proof.amount),
                     ReadInstructions(proof.depositor, instructions), call))
  }

  function GetTokenInfo(s: State, token: Address): Option<TokenInfo> {
    if token !in s.tokens then None
    else
      var info := s.tokens[token];
      Some(if info.minWithdrawal <= 0 then info.(minWithdrawal := MIN_TOKEN_WITHDRAWAL) else info)
  }

  function MapERC20(s: State, token: Option<Address>, height: uint64, hash: Hash, logIndex: uint64, proof: DepositProof,
                    instructions: seq<string>, call: RouterCall): Outcome
  {
    var m := DepositMark(hash, logIndex);
    if s.paused then Err(Paused)
    else if s.vault == ZERO_ADDRESS then Err(NoVault)
    else if token.None? then Err(BadAddress)
    else if GetTokenInfo(s, token.value).None? then Err(InvalidToken)
    else if proof.Rejected? then Err(ProofRejected)
    else if Marked(s.chain, height, m) then Err(AlreadyObserved)
    else if proof.amount <= 0 then Err(InvalidAmount)
    else Ok(AcceptDeposit(s, height, m, GetTokenInfo(s, token.value).value.symbol, proof.amount, 0,
                     ReadInstructions(proof.depositor, instructions), call))
  }

  // ----- Withdrawals -----

  function CheckMaxFee(m: MaxFee, fee: int): Option<Ledger.Error> {
    match m
    case NoCap => None
    case BadCap => Some(BadMaxFee)
    case Cap(limit) => if limit < 0 then Some(BadMaxFee) else if fee > limit then Some(FeeAboveMax) else None
  }

  function Tip(s: State): Option<Header> {
    GetHeader(s.chain.headers, s.chain.lastHeight)
  }

  /** Stores a spend under its nonce and moves the pending nonce past it. */
  function Queued(s: State, ps: PendingSpend): State {
    s.(spends := s.spends[ps.nonce := ps], pending := Wrap64(s.pending + 1))
  }

  function NewSpend(s: State, amount: int, from: string, to: Address, asset: string, token: Option<Address>,
                    unsignedTx: Bytes, gasCost: int): PendingSpend
  {
    PendingSpend(s.pending, amount, from, to, asset, token, unsignedTx, s.chain.lastHeight, s.vault, gasCost)
  }

  function UnmapETH(s: State, caller: string, amount: Option<int>, to: Option<Address>, maxFee: MaxFee, deductFee: bool,
                    tssKey: bool): Outcome
  {
    if s.paused then Err(Paused)
    else if HasPendingWithdrawal(s) then Err(WithdrawalPending)
    else if amount.None? || amount.value <= 0 then Err(InvalidAmount)
    else if amount.value < MIN_ETH_WITHDRAWAL then Err(BelowMinimum)
    else if to.None? then Err(BadAddress)
    else if to.value == ZERO_ADDRESS then Err(ZeroAddress)
    else if Tip(s).None? then Err(NoHeader)
    else if s.gasReserve < MIN_GAS_RESERVE then Err(LowGasReserve)
    else
      match Gas.SafeGasFee(Transactions.ETH_TRANSFER_GAS, Tip(s).value.baseFeePerGas, 2, GAS_TIP_CAP)
      case None => Err(FeeOverflow)
      case Some(price) =>
        var totalDeduct := if deductFee then amount.value else amount.value + price.fee;
        if CheckMaxFee(maxFee, price.fee).Some? then Err(CheckMaxFee(maxFee, price.fee).value)
        else if BalanceOf(s.balances, caller, "eth") < totalDeduct then Err(InsufficientBalance)
        else if !tssKey then Err(NoTssKey)
        else
          var unsigned := Transactions.BuildETHWithdrawalTx(s.chainId, s.pending, GAS_TIP_CAP, price.cap, to.value, amount.value);
          Ok(Queued(
            s.(balances := Credited(s.balances, caller, "eth", -totalDeduct),
               supplies := WithdrawnETH(s.supplies, amount.value, totalDeduct)),
            NewSpend(s, amount.value, caller, to.value, "eth", None, unsigned, 0)))
  }

  /** The amount fits the calldata buffer; beyond that the encoder panics and the call aborts. */
  predicate Encodable(amount: int) {
    amount >= 0 && |ToBigEndian(amount)| <= Erc20.CALLDATA_SIZE
  }

  function UnmapERC20(s: State, caller: string, amount: Option<int>, token: Option<Address>, to: Option<Address>,
                      tssKey: bool): Outcome
  {
    if s.paused then Err(Paused)
    else if HasPendingWithdrawal(s) then Err(WithdrawalPending)
    else if amount.None? || amount.value <= 0 then Err(InvalidAmount)
    else if token.None? then Err(BadAddress)
    else if GetTokenInfo(s, token.value).None? then Err(InvalidToken)
    else if amount.value < GetTokenInfo(s, token.value).value.minWithdrawal then Err(BelowMinimum)
    else if to.None? then Err(BadAddress)
    else if to.value == ZERO_ADDRESS then Err(ZeroAddress)
    else if Tip(s).None? then Err(NoHeader)
    else if s.gasReserve < MIN_GAS_RESERVE then Err(LowGasReserve)
    else
      match Gas.SafeGasFee(Transactions.ERC20_TRANSFER_GAS, Tip(s).value.baseFeePerGas, 2, GAS_TIP_CAP)
      case None => Err(FeeOverflow)
      case Some(price) =>
        var asset := GetTokenInfo(s, token.value).value.symbol;
        if !Encodable(amount.value) then Err(Aborted)
        else if !tssKey then Err(NoTssKey)
        else if !CanDebit(s.balances, caller, asset, amount.value) then Err(InsufficientBalance)
        else if !CanWithdraw(s.supplies, asset, amount.value) then Err(Aborted)
        else
          var unsigned := Transactions.BuildERC20WithdrawalTx(
            s.chainId, s.pending, GAS_TIP_CAP, price.cap, token.value, to.value, amount.value);
          Ok(Queued(
            s.(balances := Credited(s.balances, caller, asset, -amount.value),
               supplies := Withdrawn(s.supplies, asset, amount.value),
               gasReserve := Clamp(s.gasReserve - price.fee)),
            NewSpend(s, amount.value, caller, to.value, asset, token, unsigned, price.fee)))
  }

  /** The checks of unmapFrom on the token of a non-ETH withdrawal. */
  function CheckToken(s: State, asset: string, amount: int, token: Option<Address>): Option<Ledger.Error> {
    if asset == "eth" then None
    else if token.None? then Some(BadAddress)
    else if GetTokenInfo(s, token.value).None? then Some(InvalidToken)
    else if amount < GetTokenInfo(s, token.value).value.minWithdrawal then Some(BelowMinimum)
    else None
  }

  /** What unmapFrom debits: the fee is added for ETH unless it is to be deducted. */
  function DebitOf(asset: string, amount: int, fee: int, deductFee: bool): int {
    if asset == "eth" && !deductFee then amount + fee else amount
  }

  function UnmapFrom(s: State, caller: string, from: string, asset: string, amount: Option<int>, token: Option<Address>,
                     to: Option<Address>, maxFee: MaxFee, deductFee: bool, tssKey: bool): Outcome
  {
    if s.paused then Err(Paused)
    else if HasPendingWithdrawal(s) then Err(WithdrawalPending)
    else if amount.None? || amount.value <= 0 then Err(InvalidAmount)
    else if asset == "eth" && amount.value < MIN_ETH_WITHDRAWAL then Err(BelowMinimum)
    else if !tssKey then Err(NoTssKey)
    else if to.None? then Err(BadAddress)
    else if to.value == ZERO_ADDRESS then Err(ZeroAddress)
    else if Tip(s).None? then Err(NoHeader)
    else
      var gas := if asset == "eth" then Transactions.ETH_TRANSFER_GAS else Transactions.ERC20_TRANSFER_GAS;
      match Gas.SafeGasFee(gas, Tip(s).value.baseFeePerGas, 2, GAS_TIP_CAP)
      case None => Err(FeeOverflow)
      case Some(price) =>
        var totalDeduct := DebitOf(asset, amount.value, price.fee, deductFee);
        if CheckToken(s, asset, amount.value, token).Some? then Err(CheckToken(s, asset, amount.value, token).value)
        else if s.gasReserve < MIN_GAS_RESERVE then Err(LowGasReserve)
        else if AllowanceOf(s.allowances, from, caller, asset) < amount.value then Err(InsufficientAllowance)
        else if asset == "eth" && CheckMaxFee(maxFee, price.fee).Some? then Err(CheckMaxFee(maxFee, price.fee).value)
        else if !CanDebit(s.balances, from, asset, totalDeduct) then Err(InsufficientBalance)
        else if !CanWithdraw(s.supplies, asset, amount.value) then Err(Aborted)
        else if asset != "eth" && !Encodable(amount.value) then Err(Aborted)
        else Ok(UnmappedFrom(s, caller, from, asset, amount.value, token, to.value, price, totalDeduct))
  }

  /** The accepted unmapFrom: the owner pays totalDeduct, but supply falls by amount only. */
  function UnmappedFrom(s: State, caller: string, from: string, asset: string, amount: int, token: Option<Address>,
                        to: Address, price: Gas.Price, totalDeduct: int): State
    requires amount >= 0 && (asset == "eth" || (token.Some? && Encodable(amount)))
  {
    var eth := asset == "eth";
    var unsigned :=
      if eth then Transactions.BuildETHWithdrawalTx(s.chainId, s.pending, GAS_TIP_CAP, price.cap, to, amount)
      else Transactions.BuildERC20WithdrawalTx(s.chainId, s.pending, GAS_TIP_CAP, price.cap, token.value, to, amount);
    Queued(
      s.(balances := Credited(s.balances, from, asset, -totalDeduct),
         allowances := Allowed(s.allowances, from, caller, asset, AllowanceOf(s.allowances, from, caller, asset) - amount),
         supplies := Withdrawn(s.supplies, asset, amount),
         gasReserve := if eth then s.gasReserve else Clamp(s.gasReserve - price.fee)),
      NewSpend(s, amount, from, to, asset, if eth then None else token, unsigned, if eth then 0 else price.fee))
  }

  // ----- Settlement -----

  /** The proven transaction is the one the spend was queued with. */
  predicate SpendMatches(ps: PendingSpend, tx: Transactions.ParsedTx, chainId: uint64) {
    && tx.nonce == ps.nonce && tx.chainId == chainId
    && if ps.asset == "eth" then
         tx.to == ps.to && FromBigEndian(tx.value) == ps.amount
       else
         && ps.token.Some? && tx.to == ps.token.value
         && FromBigEndian(tx.value) == 0 && |tx.data| == Erc20.CALLDATA_SIZE
         && tx.data[..4] == Erc20.TransferSelector() && tx.data[4..16] == Zeros(12)
         && tx.data[16..36] == ps.to && FromBigEndian(tx.data[36..68]) == ps.amount
  }

  function ConfirmSpend(s: State, intent: Intent, height: uint64, proof: SpendProof): Outcome {
    if s.paused then Err(Paused)
    else
      match GetPendingSpend(s, s.confirmed)
      case None => Err(NoPendingSpend)
      case Some(ps) =>
        if intent != Intent(s.confirmed, ps.to, Some(ps.amount), ps.asset) then Err(IntentMismatch)
        else if height <= ps.blockHeight then Err(NotAfterWithdrawal)
        else if GetHeader(s.chain.headers, height).None? then Err(NoHeader)
        else if proof.Unproven? then Err(ProofRejected)
        else if ps.vaultAtQueue == ZERO_ADDRESS then Err(ZeroVaultAtQueue)
        else if proof.signer != ps.vaultAtQueue then Err(SpendMismatch)
        else if !SpendMatches(ps, proof.tx, s.chainId) then Err(SpendMismatch)
        else Ok(Settled(s, ps, proof.status))
  }

  /** Status 1 pays; any other status refunds amount, supply and the gas taken from the reserve. */
  function Settled(s: State, ps: PendingSpend, status: uint64): State {
    var settled :=
      if status == 1 then s
      else
        var refunded := Refunded(s, ps);
        if ps.gasCost > 0 then refunded.(gasReserve := refunded.gasReserve + ps.gasCost) else refunded;
    Deleted(settled, s.confirmed).(confirmed := Wrap64(s.confirmed + 1))
  }

  /** Refund, compare-and-advance, realign the pending nonce, delete: the tail shared by the three drop paths. */
  function DropSpend(s: State, ps: PendingSpend, nonce: uint64): State {
    var advanced := NonceAdvanced(Refunded(s, ps), ps);
    Deleted(advanced.(pending := advanced.confirmed), nonce)
  }

  function ClearNonce(s: State, proof: DropProof): Outcome {
    if s.paused then Err(Paused)
    else
      match GetPendingSpend(s, s.confirmed)
      case None => Err(NoPendingSpend)
      case Some(ps) => if proof != Dropped then Err(ProofRejected) else Ok(DropSpend(s, ps, s.confirmed))
  }

  function ExpireWithdrawal(s: State, caller: string, nonce: uint64, proof: DropProof, l2Height: uint64): Outcome {
    if s.paused then Err(Paused)
    else if nonce != s.confirmed then Err(NotHead)
    else
      match GetPendingSpend(s, s.confirmed)
      case None => Err(NoPendingSpend)
      case Some(ps) =>
        if ps.vaultAtQueue == ZERO_ADDRESS then Err(ZeroVaultAtQueue)
        else if l2Height < Wrap64(ps.blockHeight + EXPIRY_WINDOW) && caller != ps.from then Err(NotWithdrawer)
        else if proof.Missing? then Err(ProofMissing)
        else if proof.Refused? then Err(ProofRejected)
        else Ok(DropSpend(s, ps, nonce))
  }

  /** Unlike the other two, this one never compares the nonce with the head. */
  function CancelMyWithdrawal(s: State, caller: string, nonce: uint64, proof: DropProof): Outcome {
    if s.paused then Err(Paused)
    else
      match GetPendingSpend(s, nonce)
      case None => Err(NoPendingSpend)
      case Some(ps) =>
        if caller != ps.from then Err(NotWithdrawer)
        else if proof.Missing? then Err(ProofMissing)
        else if proof.Refused? then Err(ProofRejected)
        else Ok(DropSpend(s, ps, nonce))
  }

  function ReplaceWithdrawal(s: State): Outcome {
    if s.paused then Err(Paused)
    else
      match GetPendingSpend(s, s.confirmed)
      case None => Err(NoPendingSpend)
      case Some(ps) =>
        if Tip(s).None? then Err(NoHeader)
        else
          match Gas.SafeGasFee(0, Tip(s).value.baseFeePerGas, 3, REPLACEMENT_TIP_CAP)
          case None => Err(FeeOverflow)
          case Some(price) =>
            if ps.asset == "eth" then
              if ps.amount < 0 then Err(Aborted)
              else
                var unsigned := Transactions.BuildETHWithdrawalTx(
                  s.chainId, s.confirmed, REPLACEMENT_TIP_CAP, price.cap, ps.to, ps.amount);
                Ok(s.(spends := s.spends[ps.nonce := ps.(unsignedTx := unsigned)]))
            else if ps.token.None? then Err(BadAddress)
            else if !Encodable(ps.amount) then Err(Aborted)
            else
              var unsigned := Transactions.BuildERC20WithdrawalTx(
                s.chainId, s.confirmed, REPLACEMENT_TIP_CAP, price.cap, ps.token.value, ps.to, ps.amount);
              Ok(s.(spends := s.spends[ps.nonce := ps.(unsignedTx := unsigned)]))
  }

  /** The first height whose observed deposits a testnet clear drops. */
  function ClearFrom(last: uint64): uint64 {
    if last > 2 * MAX_BLOCK_RETENTION then last - 2 * MAX_BLOCK_RETENTION else 0
  }

  function ClearedSpends(s: State): map<uint64, PendingSpend> {
    map n | n in s.spends && !(s.confirmed <= n <= s.pending) :: s.spends[n]
  }

  function ClearedObserved(c: Chain): map<uint64, Bytes> {
    map h | h in c.observed && !(ClearFrom(c.lastHeight) <= h <= c.lastHeight) :: c.observed[h]
  }

  function ClearTestnetState(s: State): Outcome {
    if s.paused then Err(Paused)
    else if !s.testnet then Err(NotTestnet)
    else
      Ok(s.(spends := ClearedSpends(s), confirmed := 0, pending := 0,
            chain := s.chain.(observed := ClearedObserved(s.chain))))
  }

  // ----- Balances and allowances -----

  function Transfer(s: State, caller: string, to: string, asset: string, amount: Option<int>): Outcome {
    if s.paused then Err(Paused)
    else if amount.None? || amount.value <= 0 then Err(InvalidAmount)
    else if to == "" then Err(InvalidRecipient)
    else if !CanDebit(s.balances, caller, asset, amount.value) then Err(InsufficientBalance)
    else Ok(s.(balances := Credited(Credited(s.balances, caller, asset, -amount.value), to, asset, amount.value)))
  }

  function TransferFrom(s: State, caller: string, from: string, to: string, asset: string, amount: Option<int>): Outcome {
    if s.paused then Err(Paused)
    else if amount.None? || amount.value <= 0 then Err(InvalidAmount)
    else if to == "" then Err(InvalidRecipient)
    else
      var allowance := AllowanceOf(s.allowances, from, caller, asset);
      if allowance < amount.value then Err(InsufficientAllowance)
      else if !CanDebit(s.balances, from, asset, amount.value) then Err(InsufficientBalance)
      else Ok(s.(balances := Credited(Credited(s.balances, from, asset, -amount.value), to, asset, amount.value),
                 allowances := Allowed(s.allowances, from, caller, asset, allowance - amount.value)))
  }

  function Approve(s: State, caller: string, spender: string, asset: string, amount: Option<int>): Outcome {
    if s.paused then Err(Paused)
    else if amount.None? || amount.value < 0 then Err(InvalidAmount)
    else Ok(s.(allowances := Allowed(s.allowances, caller, spender, asset, amount.value)))
  }

  function IncreaseAllowance(s: State, caller: string, spender: string, asset: string, amount: Option<int>): Outcome {
    if s.paused then Err(Paused)
    else if amount.None? || amount.value <= 0 then Err(InvalidAmount)
    else Ok(s.(allowances := Allowed(s.allowances, caller, spender, asset,
                                     AllowanceOf(s.allowances, caller, spender, asset) + amount.value)))
  }

  function DecreaseAllowance(s: State, caller: string, spender: string, asset: string, amount: Option<int>): Outcome {
    if s.paused then Err(Paused)
    else if amount.None? || amount.value <= 0 then Err(InvalidAmount)
    else Ok(s.(allowances := Allowed(s.allowances, caller, spender, asset,
                                     Clamp(AllowanceOf(s.allowances, caller, spender, asset) - amount.value))))
  }

  // ----- Administration -----

  datatype Setting =
    | SetVault(vault: Address) | SetGasReserve(amount: int) | RegisterToken(token: Address, info: TokenInfo)
    | RegisterRouter(router: string) | RegisterRelayer(account: string) | DeregisterRelayer(account: string)

  function Configure(s: State, c: Setting): Outcome {
    if s.paused then Err(Paused)
    else
      match c
      case SetVault(v) => Ok(s.(vault := v))
      case SetGasReserve(n) => Ok(s.(gasReserve := n))
      case RegisterToken(t, info) => Ok(s.(tokens := s.tokens[t := info]))
      case RegisterRouter(r) => Ok(s.(router := r))
      case RegisterRelayer(a) => if a == "" then Err(InvalidRecipient) else Ok(s.(relayers := s.relayers + {a}))
      case DeregisterRelayer(a) => if a == "" then Err(InvalidRecipient) else Ok(s.(relayers := s.relayers - {a}))
  }

  function OnChain(s: State, r: Result<Chain, Blocklist.Error>): Outcome {
    match r
    case Ok(c) => Ok(s.(chain := c))
    case Err(e) => Err(ChainError(e))
  }
}
