/**
 The bridge contract's stored fields and the handlers that overwrite them. Every method is proved
 to make exactly the step its function in Handlers describes; a refused call leaves all fields alone.
 */
module Bridges {
  import opened ByteStrings
  import opened Blocklist
  import opened HeaderStores
  import opened Ledger
  import opened Handlers
  import opened Observed
  import Actions
  import Gas
  import Submissions
  import Transactions

  class Bridge {
    const store: HeaderStore
    const testnet: bool
    const chainId: uint64
    const self: string
    var paused: bool
    var vault: Address
    var router: string
    var relayers: set<string>
    var tokens: map<Address, TokenInfo>
    var balances: map<Account, int>
    var allowances: map<Grant, int>
    var supplies: map<string, Supply>
    var gasReserve: int
    var confirmed: uint64
    var pending: uint64
    var spends: map<uint64, PendingSpend>

    constructor (testnet: bool, chainId: uint64, self: string)
      ensures View() == Actions.Deployed(testnet, chainId, self)
      ensures View() == State(Chain(map[], 0, map[]), false, testnet, Zeros(20), chainId, self, "", {}, map[],
                              map[], map[], map[], 0, 0, 0, map[])
      ensures fresh(store)
    {
      this.store := new HeaderStore();
      this.testnet, this.chainId, this.self := testnet, chainId, self;
      paused, vault, router, relayers, tokens := false, ZERO_ADDRESS, "", {}, map[];
      balances, allowances, supplies, gasReserve := map[], map[], map[], 0;
      confirmed, pending, spends := 0, 0, map[];
    }

    function View(): State
      reads this, store
    {
      State(Chain(store.headers, store.lastHeight, store.observed), paused, testnet, vault, chainId, self, router,
            relayers, tokens, balances, allowances, supplies, gasReserve, confirmed, pending, spends)
    }

    // ----- Elementary updates -----

    method IncBalance(owner: string, asset: string, amount: int)
      modifies this`balances
      ensures balances == Credited(old(balances), owner, asset, amount)
    {
      var bal := BalanceOf(balances, owner, asset);
      balances := balances[Account(owner, asset) := bal + amount];
    }

    method DecBalance(owner: string, asset: string, amount: int) returns (ok: bool)
      modifies this`balances
      ensures ok == (0 < amount <= BalanceOf(old(balances), owner, asset))
      ensures balances == if ok then Credited(old(balances), owner, asset, -amount) else old(balances)
    {
      if amount <= 0 {
        return false;
      }
      var bal := BalanceOf(balances, owner, asset);
      if bal < amount {
        return false;
      }
      balances := balances[Account(owner, asset) := bal - amount];
      return true;
    }

    method SetAllowance(owner: string, spender: string, asset: string, amount: int)
      modifies this`allowances
      ensures allowances == Allowed(old(allowances), owner, spender, asset, amount)
    {
      allowances := allowances[Grant(owner, spender, asset) := amount];
    }

    method TrackDeposit(asset: string, userAmount: int, feeAmount: int)
      modifies this`supplies
      ensures supplies == Deposited(old(supplies), asset, userAmount, feeAmount)
    {
      var s := SupplyOf(supplies, asset);
      var delta := userAmount + feeAmount;
      s := s.(active := s.active + delta);
      s := s.(user := s.user + userAmount);
      s := s.(fee := s.fee + feeAmount);
      supplies := supplies[asset := s];
    }

    /** False stands for the abort. */
    method TrackWithdrawal(asset: string, amount: int) returns (ok: bool)
      modifies this`supplies
      ensures ok == (amount <= SupplyOf(old(supplies), asset).active && amount <= SupplyOf(old(supplies), asset).user)
      ensures supplies == if ok then Withdrawn(old(supplies), asset, amount) else old(supplies)
    {
      var s := SupplyOf(supplies, asset);
      if amount > s.active || amount > s.user {
        return false;
      }
      s := s.(active := s.active - amount);
      s := s.(user := s.user - amount);
      supplies := supplies[asset := s];
      return true;
    }

    method AddGasReserve(amount: int)
      modifies this`gasReserve
      ensures gasReserve == old(gasReserve) + amount
    {
      gasReserve := gasReserve + amount;
    }

    method DeductGasReserve(amount: int)
      modifies this`gasReserve
      ensures gasReserve == Clamp(old(gasReserve) - amount)
    {
      gasReserve := gasReserve - amount;
      if gasReserve < 0 {
        gasReserve := 0;
      }
    }

    method QueueSpend(ps: PendingSpend)
      requires ps.nonce == pending
      modifies this`spends, this`pending
      ensures spends == old(spends)[ps.nonce := ps] && pending == Wrap64(old(pending) + 1)
    {
      spends := spends[ps.nonce := ps];
      pending := Wrap64(pending + 1);
    }

    /** Credits the owner and restores supply. */
    method Refund(ps: PendingSpend)
      modifies this`balances, this`supplies
      ensures balances == Credited(old(balances), ps.from, ps.asset, ps.amount)
      ensures supplies == Restored(old(supplies), ps.asset, ps.amount)
    {
      IncBalance(ps.from, ps.asset, ps.amount);
      var s := SupplyOf(supplies, ps.asset);
      s := s.(active := s.active + ps.amount);
      s := s.(user := s.user + ps.amount);
      supplies := supplies[ps.asset := s];
    }

    method NonceAdvance(ps: PendingSpend) returns (advanced: bool)
      modifies this`confirmed
      ensures advanced == (old(confirmed) == ps.nonce && old(confirmed) in old(spends))
      ensures confirmed == if advanced then Wrap64(old(confirmed) + 1) else old(confirmed)
    {
      var current: int := confirmed;
      if current != ps.nonce {
        return false;
      }
      if current !in spends {
        return false;
      }
      confirmed := Wrap64(current + 1);
      return true;
    }

    // ----- Deposits -----

    method ParseInstructions(did: string, instructions: seq<string>) returns (r: Routing)
      ensures r == ReadInstructions(did, instructions)
    {
      r := Routing(did, "", "", "");
      for i := 0 to |instructions|
        invariant r == ReadInstructions(did, instructions[..i])
      {
        assert instructions[..i + 1][..i] == instructions[..i];
        var instr := instructions[i];
        if |instr| > 11 && instr[..11] == "deposit_to=" {
          r := r.(dest := instr[11..]);
        }
        if |instr| > 8 && instr[..8] == "swap_to=" {
          r := r.(swapTo := instr[8..]);
        }
        if |instr| > 10 && instr[..10] == "asset_out=" {
          r := r.(assetOut := instr[10..]);
        }
        if |instr| > 18 && instr[..18] == "destination_chain=" {
          r := r.(destChain := instr[18..]);
        }
      }
      assert instructions[..|instructions|] == instructions;
    }

    /** The transfers other contracts make while the router call is open. */
    method RunMoves(moves: seq<Move>)
      modifies this`balances, this`allowances
      ensures View() == ApplyMoves(old(View()), moves)
    {
      for i := 0 to |moves|
        invariant View() == ApplyMoves(old(View()), moves[..i])
      {
        assert moves[..i + 1][..i] == moves[..i];
        var m := moves[i];
        var error := HandleTransferFrom(m.caller, m.from, m.to, m.asset, m.amount);
      }
      assert moves[..|moves|] == moves;
    }

    method RouteDeposit(r: Routing, asset: string, amount: int, call: RouterCall) returns (dest: string)
      modifies this`balances, this`allowances
      ensures (View(), dest) == Routed(old(View()), r, asset, amount, call)
    {
      if r.swapTo != "" && r.assetOut != "" {
        if router == "" {
          return r.dest;
        }
        IncBalance(self, asset, amount);
        SetAllowance(self, "contract:" + router, asset, amount);
        ghost var funded := View();
        if call.CallReturns? {
          RunMoves(call.moves);
          MovesChange(funded, call.moves);
        }
        SetAllowance(self, "contract:" + router, asset, 0);
        if call.CallFails? {
          var reversed := DecBalance(self, asset, amount);
          return r.dest;
        }
        return "";
      }
      return r.dest;
    }

    method MarkDeposit(height: uint64, m: Mark)
      requires ValidMark(m)
      modifies store`observed
      ensures Chain(store.headers, store.lastHeight, store.observed) == AddMark(old(View()).chain, height, m)
    {
      var existing := if height in store.observed then Some(store.observed[height]) else None;
      var data := MarkObserved(existing, m);
      store.observed := store.observed[height := data];
    }

    method AlreadyMarked(height: uint64, m: Mark) returns (found: bool)
      requires ValidMark(m)
      ensures found == Marked(View().chain, height, m)
    {
      var existing := if height in store.observed then Some(store.observed[height]) else None;
      found := IsObserved(existing, m);
    }

    method Accept(height: uint64, m: Mark, asset: string, amount: nat, tax: nat, routing: Routing, call: RouterCall)
      requires ValidMark(m)
      modifies this, store
      ensures View() == AcceptDeposit(old(View()), height, m, asset, amount, tax, routing, call)
    {
      hide Routed, Credited, Deposited, AddMark;
      var dest := RouteDeposit(routing, asset, amount, call);
      ghost var routed := View();
      BookAmounts(asset, amount, tax, dest);
      MarkDeposit(height, m);
      assert View() == Booked(routed, height, m, asset, amount, tax, dest);
    }

    /** Tax, credit and account for a routed deposit. */
    method BookAmounts(asset: string, amount: nat, tax: nat, dest: string)
      modifies this`gasReserve, this`balances, this`supplies
      ensures gasReserve == old(gasReserve) + tax
      ensures balances == if dest == "" then old(balances) else Credited(old(balances), dest, asset, amount - tax)
      ensures supplies == Deposited(old(supplies), asset, amount - tax, tax)
    {
      hide Credited, Deposited;
      var net := amount;
      if tax > 0 {
        AddGasReserve(tax);
        net := amount - tax;
      }
      if dest != "" {
        IncBalance(dest, asset, net);
      }
      TrackDeposit(asset, net, tax);
    }

    method HandleMapETH(caller: string, height: uint64, hash: Hash, txIndex: uint64, proof: DepositProof,
                        instructions: seq<string>, call: RouterCall) returns (error: Option<Ledger.Error>)
      modifies this, store
      ensures MapETH(old(View()), caller, height, hash, txIndex, proof, instructions, call)
        == if error.Some? then Err(error.value) else Ok(View())
      ensures error.Some? ==> View() == old(View())
    {
      hide AcceptDeposit, MakeEntry, HasEntry;
      if paused {
        return Some(Paused);
      }
      if vault == ZERO_ADDRESS {
        return Some(NoVault);
      }
      if caller == "" || caller !in relayers {
        return Some(NotRelayer);
      }
      if proof.Rejected? {
        return Some(ProofRejected);
      }
      var m := DepositMark(hash, txIndex);
      var seen := AlreadyMarked(height, m);
      if seen {
        return Some(AlreadyObserved);
      }
      if proof.amount <= 0 {
        return Some(InvalidAmount);
      }
      var routing := ParseInstructions(proof.depositor, instructions);
      Accept(height, m, "eth", proof.amount, Tax(proof.amount), routing, call);
      error := None;
    }

    method HandleMapERC20(token: Option<Address>, height: uint64, hash: Hash, logIndex: uint64, proof: DepositProof,
                          instructions: seq<string>, call: RouterCall) returns (error: Option<Ledger.Error>)
      modifies this, store
      ensures MapERC20(old(View()), token, height, hash, logIndex, proof, instructions, call)
        == if error.Some? then Err(error.value) else Ok(View())
      ensures error.Some? ==> View() == old(View())
    {
      hide AcceptDeposit, MakeEntry, HasEntry;
      if paused {
        return Some(Paused);
      }
      if vault == ZERO_ADDRESS {
        return Some(NoVault);
      }
      if token.None? {
        return Some(BadAddress);
      }
      var info := GetTokenInfo(View(), token.value);
      if info.None? {
        return Some(InvalidToken);
      }
      if proof.Rejected? {
        return Some(ProofRejected);
      }
      var m := DepositMark(hash, logIndex);
      var seen := AlreadyMarked(height, m);
      if seen {
        return Some(AlreadyObserved);
      }
      if proof.amount <= 0 {
        return Some(InvalidAmount);
      }
      var routing := ParseInstructions(proof.depositor, instructions);
      Accept(height, m, info.value.symbol, proof.amount, 0, routing, call);
      error := None;
    }

    // ----- Withdrawals -----

    method HandleUnmapETH(caller: string, amount: Option<int>, to: Option<Address>, maxFee: MaxFee, deductFee: bool,
                          tssKey: bool) returns (error: Option<Ledger.Error>)
      modifies this
      ensures UnmapETH(old(View()), caller, amount, to, maxFee, deductFee, tssKey)
        == if error.Some? then Err(error.value) else Ok(View())
      ensures error.Some? ==> View() == old(View())
    {
      hide GetHeader, Gas.SafeGasFee, Transactions.BuildETHWithdrawalTx, CheckMaxFee;
      if paused {
        return Some(Paused);
      }
      if pending > confirmed {
        return Some(WithdrawalPending);
      }
      if amount.None? || amount.value <= 0 {
        return Some(InvalidAmount);
      }
      if amount.value < MIN_ETH_WITHDRAWAL {
        return Some(BelowMinimum);
      }
      if to.None? {
        return Some(BadAddress);
      }
      if to.value == ZERO_ADDRESS {
        return Some(ZeroAddress);
      }
      var header := GetHeader(store.headers, store.lastHeight);
      if header.None? {
        return Some(NoHeader);
      }
      if gasReserve < MIN_GAS_RESERVE {
        return Some(LowGasReserve);
      }
      var price := Gas.SafeGasFee(Transactions.ETH_TRANSFER_GAS, header.value.baseFeePerGas, 2, GAS_TIP_CAP);
      if price.None? {
        return Some(FeeOverflow);
      }
      error := CheckMaxFee(maxFee, price.value.fee);
      if error.Some? {
        return;
      }
      var totalDeduct := amount.value;
      if !deductFee {
        totalDeduct := amount.value + price.value.fee;
      }
      if BalanceOf(balances, caller, "eth") < totalDeduct {
        return Some(InsufficientBalance);
      }
      var unsigned := Transactions.BuildETHWithdrawalTx(chainId, pending, GAS_TIP_CAP, price.value.cap, to.value, amount.value);
      if !tssKey {
        return Some(NoTssKey);
      }
      PayETH(caller, amount.value, totalDeduct, to.value, unsigned);
      error := None;
    }

    /** The mutating half of unmapETH, with its clamped supply update. */
    method PayETH(caller: string, amount: int, totalDeduct: int, to: Address, unsigned: Bytes)
      requires CanDebit(balances, caller, "eth", totalDeduct)
      modifies this
      ensures View() == Queued(
        old(View()).(balances := Credited(old(balances), caller, "eth", -totalDeduct),
                     supplies := WithdrawnETH(old(supplies), amount, totalDeduct)),
        NewSpend(old(View()), amount, caller, to, "eth", None, unsigned, 0))
    {
      var ok := DecBalance(caller, "eth", totalDeduct);
      ReduceETHSupply(amount, totalDeduct);
      hide CanDebit, WithdrawnETH, Credited;
      QueueSpend(PendingSpend(pending, amount, caller, to, "eth", None, unsigned, store.lastHeight, vault, 0));
    }

    method ReduceETHSupply(amount: int, totalDeduct: int)
      modifies this`supplies
      ensures supplies == WithdrawnETH(old(supplies), amount, totalDeduct)
    {
      var s := SupplyOf(supplies, "eth");
      s := s.(active := s.active - amount);
      if s.active < 0 {
        s := s.(active := 0);
      }
      s := s.(user := s.user - totalDeduct);
      if s.user < 0 {
        s := s.(user := 0);
      }
      s := s.(fee := s.fee + (totalDeduct - amount));
      supplies := supplies["eth" := s];
    }

    method HandleUnmapERC20(caller: string, amount: Option<int>, token: Option<Address>, to: Option<Address>, tssKey: bool)
      returns (error: Option<Ledger.Error>)
      modifies this
      ensures UnmapERC20(old(View()), caller, amount, token, to, tssKey)
        == if error.Some? then Err(error.value) else Ok(View())
      ensures error.Some? ==> View() == old(View())
    {
      hide GetHeader, Gas.SafeGasFee, Transactions.BuildERC20WithdrawalTx, Encodable;
      if paused {
        return Some(Paused);
      }
      if pending > confirmed {
        return Some(WithdrawalPending);
      }
      if amount.None? || amount.value <= 0 {
        return Some(InvalidAmount);
      }
      if token.None? {
        return Some(BadAddress);
      }
      var info := GetTokenInfo(View(), token.value);
      if info.None? {
        return Some(InvalidToken);
      }
      if amount.value < info.value.minWithdrawal {
        return Some(BelowMinimum);
      }
      if to.None? {
        return Some(BadAddress);
      }
      if to.value == ZERO_ADDRESS {
        return Some(ZeroAddress);
      }
      var header := GetHeader(store.headers, store.lastHeight);
      if header.None? {
        return Some(NoHeader);
      }
      if gasReserve < MIN_GAS_RESERVE {
        return Some(LowGasReserve);
      }
      var price := Gas.SafeGasFee(Transactions.ERC20_TRANSFER_GAS, header.value.baseFeePerGas, 2, GAS_TIP_CAP);
      if price.None? {
        return Some(FeeOverflow);
      }
      if !Encodable(amount.value) {
        return Some(Aborted);
      }
      EncodableSize(amount.value);
      var unsigned := Transactions.BuildERC20WithdrawalTx(
        chainId, pending, GAS_TIP_CAP, price.value.cap, token.value, to.value, amount.value);
      if !tssKey {
        return Some(NoTssKey);
      }
      error := PayToken(caller, info.value.symbol, amount.value, price.value.fee, token, to.value, unsigned);
    }

    /** The mutating half of unmapERC20. */
    method PayToken(caller: string, asset: string, amount: int, gasCost: int, token: Option<Address>, to: Address, unsigned: Bytes)
      returns (error: Option<Ledger.Error>)
      modifies this
      ensures error == if !CanDebit(old(balances), caller, asset, amount) then Some(InsufficientBalance)
                       else if !CanWithdraw(old(supplies), asset, amount) then Some(Aborted) else None
      ensures error.Some? ==> View() == old(View())
      ensures error.None? ==> View() == Queued(
        old(View()).(balances := Credited(old(balances), caller, asset, -amount),
                     supplies := Withdrawn(old(supplies), asset, amount),
                     gasReserve := Clamp(old(gasReserve) - gasCost)),
        NewSpend(old(View()), amount, caller, to, asset, token, unsigned, gasCost))
    {
      hide BalanceOf, SupplyOf, Credited, Withdrawn;
      var saved := balances;
      var ok := DecBalance(caller, asset, amount);
      if !ok {
        return Some(InsufficientBalance);
      }
      ok := TrackWithdrawal(asset, amount);
      if !ok {
        balances := saved; // the abort makes the host restore the debit
        return Some(Aborted);
      }
      DeductGasReserve(gasCost);
      QueueSpend(PendingSpend(pending, amount, caller, to, asset, token, unsigned, store.lastHeight, vault, gasCost));
      error := None;
    }

    lemma EncodableSize(amount: int)
      requires Encodable(amount)
      ensures amount >= 0 && |ToBigEndian(amount)| <= 68
    {
    }

    method HandleUnmapFrom(caller: string, from: string, asset: string, amount: Option<int>, token: Option<Address>,
                           to: Option<Address>, maxFee: MaxFee, deductFee: bool, tssKey: bool)
      returns (error: Option<Ledger.Error>)
      modifies this
      ensures UnmapFrom(old(View()), caller, from, asset, amount, token, to, maxFee, deductFee, tssKey)
        == if error.Some? then Err(error.value) else Ok(View())
      ensures error.Some? ==> View() == old(View())
    {
      hide GetHeader, Gas.SafeGasFee, CheckMaxFee, Encodable, GetTokenInfo, UnmappedFrom;
      if paused {
        return Some(Paused);
      }
      if pending > confirmed {
        return Some(WithdrawalPending);
      }
      if amount.None? || amount.value <= 0 {
        return Some(InvalidAmount);
      }
      if asset == "eth" && amount.value < MIN_ETH_WITHDRAWAL {
        return Some(BelowMinimum);
      }
      if !tssKey {
        return Some(NoTssKey);
      }
      if to.None? {
        return Some(BadAddress);
      }
      if to.value == ZERO_ADDRESS {
        return Some(ZeroAddress);
      }
      var header := GetHeader(store.headers, store.lastHeight);
      if header.None? {
        return Some(NoHeader);
      }
      var gas := if asset == "eth" then Transactions.ETH_TRANSFER_GAS else Transactions.ERC20_TRANSFER_GAS;
      var price := Gas.SafeGasFee(gas, header.value.baseFeePerGas, 2, GAS_TIP_CAP);
      if price.None? {
        return Some(FeeOverflow);
      }
      error := CheckToken(View(), asset, amount.value, token);
      if error.Some? {
        return;
      }
      if gasReserve < MIN_GAS_RESERVE {
        return Some(LowGasReserve);
      }
      var allowance := AllowanceOf(allowances, from, caller, asset);
      if allowance < amount.value {
        return Some(InsufficientAllowance);
      }
      var totalDeduct := amount.value;
      if asset == "eth" {
        error := CheckMaxFee(maxFee, price.value.fee);
        if error.Some? {
          return;
        }
        if !deductFee {
          totalDeduct := amount.value + price.value.fee;
        }
      }
      error := DebitAndQueue(caller, from, asset, amount.value, token, to.value, price.value, totalDeduct, allowance);
    }

    /** The mutating half of unmapFrom. */
    method DebitAndQueue(caller: string, from: string, asset: string, amount: int, token: Option<Address>, to: Address,
                         price: Gas.Price, totalDeduct: int, allowance: int) returns (error: Option<Ledger.Error>)
      requires amount > 0 && allowance == AllowanceOf(allowances, from, caller, asset)
      requires asset == "eth" || token.Some?
      modifies this
      ensures error.Some? ==> View() == old(View())
      ensures !CanDebit(old(balances), from, asset, totalDeduct) ==> error == Some(InsufficientBalance)
      ensures CanDebit(old(balances), from, asset, totalDeduct) ==>
        if !CanWithdraw(old(supplies), asset, amount) || (asset != "eth" && !Encodable(amount)) then error == Some(Aborted)
        else error == None && View() == UnmappedFrom(old(View()), caller, from, asset, amount, token, to, price, totalDeduct)
    {
      hide Encodable, CanDebit, CanWithdraw, Credited, Withdrawn, Allowed, UnmappedFrom, SpendFrom, Queued;
      error := DebitOwner(caller, from, asset, amount, totalDeduct, allowance);
      if error.None? {
        ghost var debited := View();
        QueueFrom(from, asset, amount, token, to, price);
        IsUnmappedFrom(old(View()), debited, View(), caller, from, asset, amount, token, to, price, totalDeduct);
      }
    }

    /** Debit, allowance and supply, or nothing when the call is refused or aborts. */
    method DebitOwner(caller: string, from: string, asset: string, amount: int, totalDeduct: int, allowance: int)
      returns (error: Option<Ledger.Error>)
      modifies this`balances, this`allowances, this`supplies
      ensures error ==
        if !CanDebit(old(balances), from, asset, totalDeduct) then Some(InsufficientBalance)
        else if !CanWithdraw(old(supplies), asset, amount) || (asset != "eth" && !Encodable(amount)) then Some(Aborted)
        else None
      ensures error.Some? ==>
        balances == old(balances) && allowances == old(allowances) && supplies == old(supplies)
      ensures error.None? ==>
        && balances == Credited(old(balances), from, asset, -totalDeduct)
        && allowances == Allowed(old(allowances), from, caller, asset, allowance - amount)
        && supplies == Withdrawn(old(supplies), asset, amount)
    {
      hide Encodable, BalanceOf, SupplyOf, Credited, Withdrawn, Allowed;
      var savedBalances, savedAllowances, savedSupplies := balances, allowances, supplies;
      var ok := DecBalance(from, asset, totalDeduct);
      if !ok {
        return Some(InsufficientBalance);
      }
      SetAllowance(from, caller, asset, allowance - amount);
      ok := TrackWithdrawal(asset, amount);
      if !ok || (asset != "eth" && !Encodable(amount)) {
        balances, allowances, supplies := savedBalances, savedAllowances, savedSupplies; // restored by the host
        return Some(Aborted);
      }
      error := None;
    }

    /** The spend an unmapFrom queues, and the gas it takes from the reserve. */
    function SpendFrom(s: State, from: string, asset: string, amount: int, token: Option<Address>, to: Address,
                       price: Gas.Price): PendingSpend
      requires amount >= 0 && (asset == "eth" || (token.Some? && Encodable(amount)))
    {
      if asset == "eth" then
        NewSpend(s, amount, from, to, asset, None,
                 Transactions.BuildETHWithdrawalTx(s.chainId, s.pending, GAS_TIP_CAP, price.cap, to, amount), 0)
      else
        NewSpend(s, amount, from, to, asset, token,
                 Transactions.BuildERC20WithdrawalTx(s.chainId, s.pending, GAS_TIP_CAP, price.cap, token.value, to, amount), price.fee)
    }

    method QueueFrom(from: string, asset: string, amount: int, token: Option<Address>, to: Address, price: Gas.Price)
      requires amount >= 0 && (asset == "eth" || (token.Some? && Encodable(amount)))
      modifies this`spends, this`pending, this`gasReserve
      ensures View() == Queued(
        old(View()).(gasReserve := if asset == "eth" then old(gasReserve) else Clamp(old(gasReserve) - price.fee)),
        SpendFrom(old(View()), from, asset, amount, token, to, price))
    {
      hide Encodable, Transactions.BuildERC20WithdrawalTx, Transactions.BuildETHWithdrawalTx;
      if asset == "eth" {
        var unsigned := Transactions.BuildETHWithdrawalTx(chainId, pending, GAS_TIP_CAP, price.cap, to, amount);
        QueueSpend(PendingSpend(pending, amount, from, to, asset, None, unsigned, store.lastHeight, vault, 0));
      } else {
        EncodableSize(amount);
        var unsigned := Transactions.BuildERC20WithdrawalTx(chainId, pending, GAS_TIP_CAP, price.cap, token.value, to, amount);
        DeductGasReserve(price.fee);
        QueueSpend(PendingSpend(pending, amount, from, to, asset, token, unsigned, store.lastHeight, vault, price.fee));
      }
    }

    lemma IsUnmappedFrom(before: State, debited: State, after: State, caller: string, from: string, asset: string,
                         amount: int, token: Option<Address>, to: Address, price: Gas.Price, totalDeduct: int)
      requires amount >= 0 && (asset == "eth" || (token.Some? && Encodable(amount)))
      requires debited == before.(
        balances := Credited(before.balances, from, asset, -totalDeduct),
        allowances := Allowed(before.allowances, from, caller, asset, AllowanceOf(before.allowances, from, caller, asset) - amount),
        supplies := Withdrawn(before.supplies, asset, amount))
      requires after == Queued(
        debited.(gasReserve := if asset == "eth" then debited.gasReserve else Clamp(debited.gasReserve - price.fee)),
        SpendFrom(debited, from, asset, amount, token, to, price))
      ensures after == UnmappedFrom(before, caller, from, asset, amount, token, to, price, totalDeduct)
    {
      hide Encodable, Credited, Withdrawn, Allowed, Transactions.BuildERC20WithdrawalTx, Transactions.BuildETHWithdrawalTx;
    }

    // ----- Settlement -----

    method HandleConfirmSpend(intent: Intent, height: uint64, proof: SpendProof) returns (error: Option<Ledger.Error>)
      modifies this
      ensures ConfirmSpend(old(View()), intent, height, proof) == if error.Some? then Err(error.value) else Ok(View())
      ensures error.Some? ==> View() == old(View())
    {
      hide GetHeader, SpendMatches, Settled;
      if paused {
        return Some(Paused);
      }
      var head := GetPendingSpend(View(), confirmed);
      if head.None? {
        return Some(NoPendingSpend);
      }
      var ps := head.value;
      if intent.nonce != confirmed || intent.to != ps.to || intent.amount != Some(ps.amount) || intent.asset != ps.asset {
        return Some(IntentMismatch);
      }
      if height <= ps.blockHeight {
        return Some(NotAfterWithdrawal);
      }
      if GetHeader(store.headers, height).None? {
        return Some(NoHeader);
      }
      if proof.Unproven? {
        return Some(ProofRejected);
      }
      if ps.vaultAtQueue == ZERO_ADDRESS {
        return Some(ZeroVaultAtQueue);
      }
      if proof.signer != ps.vaultAtQueue || !SpendMatches(ps, proof.tx, chainId) {
        return Some(SpendMismatch);
      }
      Settle(ps, proof.status);
      error := None;
    }

    /** Pays or refunds the head, deletes it and moves on. */
    method Settle(ps: PendingSpend, status: uint64)
      modifies this
      ensures View() == Settled(old(View()), ps, status)
    {
      var nonce: int := confirmed;
      if status != 1 {
        Refund(ps);
        if ps.gasCost > 0 {
          AddGasReserve(ps.gasCost);
        }
      }
      spends := spends - {nonce};
      confirmed := Wrap64(nonce + 1);
    }

    /** Refund, advance, realign, delete. */
    method Drop(ps: PendingSpend, nonce: uint64)
      modifies this
      ensures View() == DropSpend(old(View()), ps, nonce)
    {
      Refund(ps);
      var advanced := NonceAdvance(ps);
      pending := confirmed;
      spends := spends - {nonce};
    }

    method HandleClearNonce(proof: DropProof) returns (error: Option<Ledger.Error>)
      modifies this
      ensures ClearNonce(old(View()), proof) == if error.Some? then Err(error.value) else Ok(View())
      ensures error.Some? ==> View() == old(View())
    {
      if paused {
        return Some(Paused);
      }
      var head := GetPendingSpend(View(), confirmed);
      if head.None? {
        return Some(NoPendingSpend);
      }
      if proof != Dropped {
        return Some(ProofRejected);
      }
      Drop(head.value, confirmed);
      error := None;
    }

    method HandleExpireWithdrawal(caller: string, nonce: uint64, proof: DropProof, l2Height: uint64)
      returns (error: Option<Ledger.Error>)
      modifies this
      ensures ExpireWithdrawal(old(View()), caller, nonce, proof, l2Height)
        == if error.Some? then Err(error.value) else Ok(View())
      ensures error.Some? ==> View() == old(View())
    {
      if paused {
        return Some(Paused);
      }
      if nonce != confirmed {
        return Some(NotHead);
      }
      var head := GetPendingSpend(View(), confirmed);
      if head.None? {
        return Some(NoPendingSpend);
      }
      if head.value.vaultAtQueue == ZERO_ADDRESS {
        return Some(ZeroVaultAtQueue);
      }
      var hasExpired := l2Height >= Wrap64(head.value.blockHeight + EXPIRY_WINDOW);
      if !hasExpired && caller != head.value.from {
        return Some(NotWithdrawer);
      }
      if proof.Missing? {
        return Some(ProofMissing);
      }
      if proof.Refused? {
        return Some(ProofRejected);
      }
      Drop(head.value, nonce);
      error := None;
    }

    method HandleCancelMyWithdrawal(caller: string, nonce: uint64, proof: DropProof) returns (error: Option<Ledger.Error>)
      modifies this
      ensures CancelMyWithdrawal(old(View()), caller, nonce, proof) == if error.Some? then Err(error.value) else Ok(View())
      ensures error.Some? ==> View() == old(View())
    {
      if paused {
        return Some(Paused);
      }
      var spend := GetPendingSpend(View(), nonce);
      if spend.None? {
        return Some(NoPendingSpend);
      }
      if caller != spend.value.from {
        return Some(NotWithdrawer);
      }
      if proof.Missing? {
        return Some(ProofMissing);
      }
      if proof.Refused? {
        return Some(ProofRejected);
      }
      Drop(spend.value, nonce);
      error := None;
    }

    method HandleReplaceWithdrawal() returns (error: Option<Ledger.Error>)
      modifies this
      ensures ReplaceWithdrawal(old(View())) == if error.Some? then Err(error.value) else Ok(View())
      ensures error.Some? ==> View() == old(View())
    {
      hide GetHeader, Gas.SafeGasFee, Encodable, Transactions.BuildERC20WithdrawalTx, Transactions.BuildETHWithdrawalTx;
      if paused {
        return Some(Paused);
      }
      var head := GetPendingSpend(View(), confirmed);
      if head.None? {
        return Some(NoPendingSpend);
      }
      var ps := head.value;
      var header := GetHeader(store.headers, store.lastHeight);
      if header.None? {
        return Some(NoHeader);
      }
      var price := Gas.SafeGasFee(0, header.value.baseFeePerGas, 3, REPLACEMENT_TIP_CAP);
      if price.None? {
        return Some(FeeOverflow);
      }
      var unsigned: Bytes;
      if ps.asset == "eth" {
        if ps.amount < 0 {
          return Some(Aborted);
        }
        unsigned := Transactions.BuildETHWithdrawalTx(chainId, confirmed, REPLACEMENT_TIP_CAP, price.value.cap, ps.to, ps.amount);
      } else {
        if ps.token.None? {
          return Some(BadAddress);
        }
        if !Encodable(ps.amount) {
          return Some(Aborted);
        }
        EncodableSize(ps.amount);
        unsigned := Transactions.BuildERC20WithdrawalTx(
          chainId, confirmed, REPLACEMENT_TIP_CAP, price.value.cap, ps.token.value, ps.to, ps.amount);
      }
      ps := ps.(unsignedTx := unsigned);
      spends := spends[ps.nonce := ps];
      error := None;
    }

    method HandleClearTestnetState() returns (error: Option<Ledger.Error>)
      modifies this, store
      ensures ClearTestnetState(old(View())) == if error.Some? then Err(error.value) else Ok(View())
      ensures error.Some? ==> View() == old(View())
    {
      hide ClearedSpends, ClearedObserved;
      if paused {
        return Some(Paused);
      }
      if !testnet {
        return Some(NotTestnet);
      }
      DeleteSpends();
      confirmed, pending := 0, 0;
      DeleteObserved();
      error := None;
    }

    method DeleteSpends()
      modifies this`spends
      ensures spends == ClearedSpends(old(View()))
    {
      ghost var before := spends;
      var n: int := confirmed;
      while n <= pending
        invariant confirmed <= n && (n <= pending + 1 || n == confirmed)
        invariant spends == map k | k in before && !(confirmed <= k < n) :: before[k]
        decreases pending + 1 - n
      {
        spends := map k | k in spends && k != n :: spends[k];
        n := n + 1;
      }
    }

    method DeleteObserved()
      modifies store`observed
      ensures store.observed == ClearedObserved(old(View()).chain)
    {
      ghost var before := store.observed;
      var last := store.lastHeight;
      var h: int := ClearFrom(last);
      while h <= last
        invariant ClearFrom(last) <= h <= last + 1
        invariant store.observed == map k | k in before && !(ClearFrom(last) <= k < h) :: before[k]
        decreases last + 1 - h
      {
        store.observed := map k | k in store.observed && k != h :: store.observed[k];
        h := h + 1;
      }
    }

    // ----- Balances and allowances -----

    method HandleTransfer(caller: string, to: string, asset: string, amount: Option<int>) returns (error: Option<Ledger.Error>)
      modifies this`balances
      ensures Transfer(old(View()), caller, to, asset, amount) == if error.Some? then Err(error.value) else Ok(View())
      ensures error.Some? ==> View() == old(View())
    {
      if paused {
        return Some(Paused);
      }
      if amount.None? || amount.value <= 0 {
        return Some(InvalidAmount);
      }
      if to == "" {
        return Some(InvalidRecipient);
      }
      var ok := DecBalance(caller, asset, amount.value);
      if !ok {
        return Some(InsufficientBalance);
      }
      IncBalance(to, asset, amount.value);
      error := None;
    }

    method HandleTransferFrom(caller: string, from: string, to: string, asset: string, amount: Option<int>)
      returns (error: Option<Ledger.Error>)
      modifies this`balances, this`allowances
      ensures TransferFrom(old(View()), caller, from, to, asset, amount)
        == if error.Some? then Err(error.value) else Ok(View())
      ensures error.Some? ==> View() == old(View())
    {
      if paused {
        return Some(Paused);
      }
      if amount.None? || amount.value <= 0 {
        return Some(InvalidAmount);
      }
      if to == "" {
        return Some(InvalidRecipient);
      }
      var allowance := AllowanceOf(allowances, from, caller, asset);
      if allowance < amount.value {
        return Some(InsufficientAllowance);
      }
      var ok := DecBalance(from, asset, amount.value);
      if !ok {
        return Some(InsufficientBalance);
      }
      SetAllowance(from, caller, asset, allowance - amount.value);
      IncBalance(to, asset, amount.value);
      error := None;
    }

    method HandleApprove(caller: string, spender: string, asset: string, amount: Option<int>)
      returns (error: Option<Ledger.Error>)
      modifies this`allowances
      ensures Approve(old(View()), caller, spender, asset, amount) == if error.Some? then Err(error.value) else Ok(View())
      ensures error.Some? ==> View() == old(View())
    {
      if paused {
        return Some(Paused);
      }
      if amount.None? || amount.value < 0 {
        return Some(InvalidAmount);
      }
      SetAllowance(caller, spender, asset, amount.value);
      error := None;
    }

    method HandleIncreaseAllowance(caller: string, spender: string, asset: string, amount: Option<int>)
      returns (error: Option<Ledger.Error>)
      modifies this`allowances
      ensures IncreaseAllowance(old(View()), caller, spender, asset, amount)
        == if error.Some? then Err(error.value) else Ok(View())
      ensures error.Some? ==> View() == old(View())
    {
      if paused {
        return Some(Paused);
      }
      if amount.None? || amount.value <= 0 {
        return Some(InvalidAmount);
      }
      var current := AllowanceOf(allowances, caller, spender, asset);
      SetAllowance(caller, spender, asset, current + amount.value);
      error := None;
    }

    method HandleDecreaseAllowance(caller: string, spender: string, asset: string, amount: Option<int>)
      returns (error: Option<Ledger.Error>)
      modifies this`allowances
      ensures DecreaseAllowance(old(View()), caller, spender, asset, amount)
        == if error.Some? then Err(error.value) else Ok(View())
      ensures error.Some? ==> View() == old(View())
    {
      if paused {
        return Some(Paused);
      }
      if amount.None? || amount.value <= 0 {
        return Some(InvalidAmount);
      }
      var current := AllowanceOf(allowances, caller, spender, asset);
      var newVal := current - amount.value;
      if newVal < 0 {
        newVal := 0;
      }
      SetAllowance(caller, spender, asset, newVal);
      error := None;
    }

    // ----- Administration -----

    method ApplySetting(setting: Setting) returns (error: Option<Ledger.Error>)
      modifies this`vault, this`gasReserve, this`tokens, this`router, this`relayers
      ensures Configure(old(View()), setting) == if error.Some? then Err(error.value) else Ok(View())
      ensures error.Some? ==> View() == old(View())
    {
      if paused {
        return Some(Paused);
      }
      match setting {
        case SetVault(v) => vault := v;
        case SetGasReserve(n) => gasReserve := n;
        case RegisterToken(t, info) => tokens := tokens[t := info];
        case RegisterRouter(r) => router := r;
        case RegisterRelayer(a) =>
          if a == "" {
            return Some(InvalidRecipient);
          }
          relayers := relayers + {a};
        case DeregisterRelayer(a) =>
          if a == "" {
            return Some(InvalidRecipient);
          }
          relayers := relayers - {a};
      }
      error := None;
    }

    /** A header call; only adding blocks is allowed while paused. */
    method UpdateChain(keccak: Hasher, a: Actions.Action) returns (error: Option<Ledger.Error>)
      requires a.SeedBlock? || a.AddBlocks? || a.ReplaceBlock?
      modifies store
      ensures Actions.Apply(keccak, old(View()), a) == if error.Some? then Err(error.value) else Ok(View())
      ensures error.Some? ==> View() == old(View())
    {
      hide MapETH, MapERC20, UnmapETH, UnmapERC20, UnmapFrom, ConfirmSpend, ClearNonce, ExpireWithdrawal, CancelMyWithdrawal;
      hide ReplaceWithdrawal, ClearTestnetState;
      hide Transfer, TransferFrom, Approve, IncreaseAllowance, DecreaseAllowance, Configure;
      hide HeaderStores.SeedBlock, HeaderStores.AddBlocks, HeaderStores.ReplaceBlock;
      if paused && !a.AddBlocks? {
        return Some(Paused);
      }
      var refused: Option<Blocklist.Error>;
      if a.SeedBlock? {
        refused := store.HandleSeedBlock(a.entry, chainId);
      } else if a.AddBlocks? {
        refused := store.HandleAddBlocks(keccak, a.entries, chainId);
      } else {
        refused := store.HandleReplaceBlock(a.entry, chainId);
      }
      error := if refused.Some? then Some(ChainError(refused.value)) else None;
    }

    // ----- Calls -----

    method ExecuteDeposit(keccak: Hasher, a: Actions.Action) returns (error: Option<Ledger.Error>)
      requires a.MapETH? || a.MapERC20?
      modifies this, store
      ensures Actions.Apply(keccak, old(View()), a) == if error.Some? then Err(error.value) else Ok(View())
      ensures error.Some? ==> View() == old(View())
    {
      hide MapETH, MapERC20;
      match a {
        case MapETH(caller, height, hash, index, deposit, instructions, call) =>
          error := HandleMapETH(caller, height, hash, index, deposit, instructions, call);
        case MapERC20(token, height, hash, index, deposit, instructions, call) =>
          error := HandleMapERC20(token, height, hash, index, deposit, instructions, call);
      }
    }

    method ExecuteUnmap(keccak: Hasher, a: Actions.Action) returns (error: Option<Ledger.Error>)
      requires a.UnmapETH? || a.UnmapERC20? || a.UnmapFrom?
      modifies this, store
      ensures Actions.Apply(keccak, old(View()), a) == if error.Some? then Err(error.value) else Ok(View())
      ensures error.Some? ==> View() == old(View())
    {
      hide UnmapETH, UnmapERC20, UnmapFrom;
      match a {
        case UnmapETH(caller, amount, dest, maxFee, deductFee, tssKey) =>
          error := HandleUnmapETH(caller, amount, dest, maxFee, deductFee, tssKey);
        case UnmapERC20(caller, amount, token, dest, tssKey) =>
          error := HandleUnmapERC20(caller, amount, token, dest, tssKey);
        case UnmapFrom(caller, from, asset, amount, token, dest, maxFee, deductFee, tssKey) =>
          error := HandleUnmapFrom(caller, from, asset, amount, token, dest, maxFee, deductFee, tssKey);
      }
    }

    method ExecuteSettlement(keccak: Hasher, a: Actions.Action) returns (error: Option<Ledger.Error>)
      requires a.ConfirmSpend? || a.ClearNonce? || a.ExpireWithdrawal? || a.CancelMyWithdrawal? || a.ReplaceWithdrawal?
        || a.ClearTestnetState?
      modifies this, store
      ensures Actions.Apply(keccak, old(View()), a) == if error.Some? then Err(error.value) else Ok(View())
      ensures error.Some? ==> View() == old(View())
    {
      hide ConfirmSpend, ClearNonce, ExpireWithdrawal, CancelMyWithdrawal, ReplaceWithdrawal, ClearTestnetState;
      match a {
        case ConfirmSpend(intent, height, spend) => error := HandleConfirmSpend(intent, height, spend);
        case ClearNonce(drop) => error := HandleClearNonce(drop);
        case ExpireWithdrawal(caller, nonce, drop, l2Height) =>
          error := HandleExpireWithdrawal(caller, nonce, drop, l2Height);
        case CancelMyWithdrawal(caller, nonce, drop) => error := HandleCancelMyWithdrawal(caller, nonce, drop);
        case ReplaceWithdrawal => error := HandleReplaceWithdrawal();
        case ClearTestnetState => error := HandleClearTestnetState();
      }
    }

    method ExecuteTransfer(keccak: Hasher, a: Actions.Action) returns (error: Option<Ledger.Error>)
      requires a.Transfer? || a.TransferFrom? || a.Approve? || a.IncreaseAllowance? || a.DecreaseAllowance?
      modifies this, store
      ensures Actions.Apply(keccak, old(View()), a) == if error.Some? then Err(error.value) else Ok(View())
      ensures error.Some? ==> View() == old(View())
    {
      hide MapETH, MapERC20, UnmapETH, UnmapERC20, UnmapFrom, ConfirmSpend, ClearNonce, ExpireWithdrawal, CancelMyWithdrawal;
      hide ReplaceWithdrawal, ClearTestnetState;
      hide Transfer, TransferFrom, Approve, IncreaseAllowance, DecreaseAllowance;
      match a {
        case Transfer(caller, to, asset, amount) => error := HandleTransfer(caller, to, asset, amount);
        case TransferFrom(caller, from, to, asset, amount) => error := HandleTransferFrom(caller, from, to, asset, amount);
        case Approve(caller, spender, asset, amount) => error := HandleApprove(caller, spender, asset, amount);
        case IncreaseAllowance(caller, spender, asset, amount) =>
          error := HandleIncreaseAllowance(caller, spender, asset, amount);
        case DecreaseAllowance(caller, spender, asset, amount) =>
          error := HandleDecreaseAllowance(caller, spender, asset, amount);
      }
    }

    method ExecuteAdmin(keccak: Hasher, a: Actions.Action) returns (error: Option<Ledger.Error>)
      requires a.Configure? || a.Pause? || a.Unpause? || a.SeedBlock? || a.AddBlocks? || a.ReplaceBlock?
      modifies this, store
      ensures Actions.Apply(keccak, old(View()), a) == if error.Some? then Err(error.value) else Ok(View())
      ensures error.Some? ==> View() == old(View())
    {
      hide Configure, HeaderStores.SeedBlock, HeaderStores.AddBlocks, HeaderStores.ReplaceBlock;
      error := None;
      if a.Configure? {
        error := ApplySetting(a.setting);
      } else if a.Pause? {
        paused := true;
      } else if a.Unpause? {
        paused := false;
      } else {
        error := UpdateChain(keccak, a);
      }
    }

    /** Every call makes exactly its step; a refused one changes nothing. */
    method Execute(keccak: Hasher, a: Actions.Action) returns (error: Option<Ledger.Error>)
      modifies this, store
      ensures Actions.Apply(keccak, old(View()), a) == if error.Some? then Err(error.value) else Ok(View())
      ensures error.Some? ==> View() == old(View())
    {
      hide Actions.Apply;
      if a.MapETH? || a.MapERC20? {
        error := ExecuteDeposit(keccak, a);
      } else if a.UnmapETH? || a.UnmapERC20? || a.UnmapFrom? {
        error := ExecuteUnmap(keccak, a);
      } else if a.Transfer? || a.TransferFrom? || a.Approve? || a.IncreaseAllowance? || a.DecreaseAllowance? {
        error := ExecuteTransfer(keccak, a);
      } else if a.Configure? || a.Pause? || a.Unpause? || a.SeedBlock? || a.AddBlocks? || a.ReplaceBlock? {
        error := ExecuteAdmin(keccak, a);
      } else {
        error := ExecuteSettlement(keccak, a);
      }
    }

    /** A call as it comes in: the contract reaches the verdicts itself, on the submitted bytes and its stored headers. */
    method Submit(host: Submissions.Host, c: Submissions.Submission)
      returns (error: Option<Ledger.Error>)
      modifies this, store
      ensures Actions.Apply(host.keccak, old(View()), Submissions.Resolve(host, old(View()), c))
        == if error.Some? then Err(error.value) else Ok(View())
      ensures error.Some? ==> View() == old(View())
    {
      hide Submissions.Resolve, Actions.Apply;
      var a := Submissions.Resolve(host, View(), c);
      error := Execute(host.keccak, a);
    }

    /** A whole run of them leaves the state the theorems about submitted calls speak of. */
    method SubmitEach(host: Submissions.Host, calls: seq<Submissions.Submission>)
      modifies this, store
      ensures View() == Submissions.SubmitAll(host, old(View()), calls).state
    {
      hide Submissions.Resolve, Actions.Apply;
      for i := 0 to |calls|
        invariant View() == Submissions.SubmitAll(host, old(View()), calls[..i]).state
      {
        assert calls[..i + 1][..i] == calls[..i];
        var error := Submit(host, calls[i]);
      }
      assert calls[..|calls|] == calls;
    }

    /** A whole run of calls leaves the stored state the runs of Actions speak of. */
    method ExecuteAll(keccak: Hasher, actions: seq<Actions.Action>)
      modifies this, store
      ensures View() == Actions.RunFrom(keccak, old(View()), actions)
    {
      hide Actions.Apply;
      for i := 0 to |actions|
        invariant View() == Actions.RunFrom(keccak, old(View()), actions[..i])
      {
        assert actions[..i + 1][..i] == actions[..i];
        var error := Execute(keccak, actions[i]);
      }
      assert actions[..|actions|] == actions;
    }
  }
}
