/** In every reachable state the queued withdrawal, once the vault has signed it, passes the checks of confirmSpend. */
module ConfirmationTheorems {
  import opened ByteStrings
  import opened Ledger
  import opened Actions
  import opened WithdrawalQueue
  import opened WithdrawalTheorems
  import Gas
  import H = Handlers
  import HeaderStores
  import Transactions

  /** The call unmaps a token whose registered symbol is that of the native asset. */
  predicate UnmapsMisnamed(s: State, a: Action) {
    && a.UnmapERC20? && a.token.Some? && H.GetTokenInfo(s, a.token.value).Some?
    && H.GetTokenInfo(s, a.token.value).value.symbol == "eth"
  }

  /** The last accepted call that wrote the head's transaction is such a call. */
  predicate Misnamed(keccak: Hasher, init: State, actions: seq<Action>) {
    actions != [] &&
    var front, a := actions[..|actions| - 1], actions[|actions| - 1];
    var s := RunFrom(keccak, init, front);
    if Apply(keccak, s, a).Ok? && (IsUnmap(a) || a.ReplaceWithdrawal?) then UnmapsMisnamed(s, a)
    else Misnamed(keccak, init, front)
  }

  /** The spend carries a token transfer, whatever its asset is called. */
  ghost predicate BuiltForToken(ps: PendingSpend, chainId: uint64) {
    && ps.amount > 0 && ps.token.Some? && H.Encodable(ps.amount)
    && exists tip: uint64, cap: uint64 :: ps.unsignedTx == TokenTx(ps, chainId, tip, cap)
  }

  function TokenTx(ps: PendingSpend, chainId: uint64, tip: uint64, cap: uint64): Bytes
    requires ps.amount >= 0 && ps.token.Some? && H.Encodable(ps.amount)
  {
    Transactions.BuildERC20WithdrawalTx(chainId, ps.nonce, tip, cap, ps.token.value, ps.to, ps.amount)
  }

  /** What the head carries: its own withdrawal, or the token transfer of an asset called eth. */
  ghost predicate HeadBuilt(s: State, misnamed: bool) {
    s.confirmed in s.spends ==>
      var head := s.spends[s.confirmed];
      if misnamed then head.asset == "eth" && BuiltForToken(head, s.chainId) else Built(head, s.chainId)
  }

  predicate SameIdentity(s: State, after: State) {
    after.chainId == s.chainId && after.vault == s.vault && after.tokens == s.tokens
  }

  // ----- Deposits and settlement leave chain id, vault and registered tokens alone -----

  lemma DepositKeepsIdentity(keccak: Hasher, s: State, a: Action, after: State)
    requires (a.MapETH? || a.MapERC20?) && Apply(keccak, s, a) == Ok(after)
    ensures SameIdentity(s, after)
  {
    hide H.AcceptDeposit, H.ReadInstructions, H.GetTokenInfo, Apply;
    var m := H.DepositMark(a.hash, a.index);
    if a.MapETH? {
      MapETHShape(keccak, s, a);
      H.AcceptChanges(s, a.height, m, "eth", a.deposit.amount, H.Tax(a.deposit.amount),
                       H.ReadInstructions(a.deposit.depositor, a.instructions), a.call);
    } else {
      MapERC20Shape(keccak, s, a);
      H.AcceptChanges(s, a.height, m, H.GetTokenInfo(s, a.token.value).value.symbol, a.deposit.amount, 0,
                       H.ReadInstructions(a.deposit.depositor, a.instructions), a.call);
    }
  }

  lemma ClearKeepsIdentity(s: State, after: State)
    requires H.ClearTestnetState(s) == Ok(after)
    ensures SameIdentity(s, after)
  {
    hide H.ClearedSpends, H.ClearedObserved;
  }

  lemma TransferKeepsIdentity(keccak: Hasher, s: State, a: Action, after: State)
    requires (a.Transfer? || a.TransferFrom? || SetsAllowance(a) || a.Pause? || a.Unpause?) && Apply(keccak, s, a) == Ok(after)
    ensures SameIdentity(s, after)
  {
    hide Credited, Allowed, AllowanceOf, BalanceOf;
  }

  lemma HeadersKeepIdentity(keccak: Hasher, s: State, a: Action, after: State)
    requires MovesHeaders(a) && Apply(keccak, s, a) == Ok(after)
    ensures SameIdentity(s, after)
  {
    hide HeaderStores.SeedBlock, HeaderStores.AddBlocks, HeaderStores.ReplaceBlock;
  }

  lemma ConfigureKeepsIdentity(s: State, c: H.Setting)
    requires H.Configure(s, c).Ok?
    ensures H.Configure(s, c).value.chainId == s.chainId
    ensures !c.SetVault? ==> H.Configure(s, c).value.vault == s.vault
    ensures !c.RegisterToken? ==> H.Configure(s, c).value.tokens == s.tokens
  {
  }

  // ----- Each queued or repriced spend carries its transaction -----

  lemma UnmapETHBuilds(s: State, caller: string, amount: Option<int>, dest: Option<Address>, maxFee: H.MaxFee,
                       deductFee: bool, tssKey: bool)
    requires H.UnmapETH(s, caller, amount, dest, maxFee, deductFee, tssKey).Ok?
    ensures var after := H.UnmapETH(s, caller, amount, dest, maxFee, deductFee, tssKey).value;
      SameIdentity(s, after) && s.pending in after.spends && Built(after.spends[s.pending], s.chainId)
  {
    hide HeaderStores.GetHeader, Gas.SafeGasFee, Transactions.BuildETHWithdrawalTx, H.CheckMaxFee, Credited, WithdrawnETH;
    var price := Gas.SafeGasFee(Transactions.ETH_TRANSFER_GAS, H.Tip(s).value.baseFeePerGas, 2, H.GAS_TIP_CAP).value;
    var ps := H.UnmapETH(s, caller, amount, dest, maxFee, deductFee, tssKey).value.spends[s.pending];
    assert ps.unsignedTx == WithdrawalTx(ps, s.chainId, H.GAS_TIP_CAP, price.cap);
  }

  lemma UnmapERC20Builds(s: State, caller: string, amount: Option<int>, token: Option<Address>, dest: Option<Address>, tssKey: bool)
    requires H.UnmapERC20(s, caller, amount, token, dest, tssKey).Ok?
    ensures token.Some? && H.GetTokenInfo(s, token.value).Some?
    ensures var after := H.UnmapERC20(s, caller, amount, token, dest, tssKey).value;
      && SameIdentity(s, after) && s.pending in after.spends
      && BuiltForToken(after.spends[s.pending], s.chainId)
      && after.spends[s.pending].asset == H.GetTokenInfo(s, token.value).value.symbol
  {
    hide HeaderStores.GetHeader, Gas.SafeGasFee, Transactions.BuildERC20WithdrawalTx, H.GetTokenInfo, Credited, Withdrawn;
    var price := Gas.SafeGasFee(Transactions.ERC20_TRANSFER_GAS, H.Tip(s).value.baseFeePerGas, 2, H.GAS_TIP_CAP).value;
    var ps := H.UnmapERC20(s, caller, amount, token, dest, tssKey).value.spends[s.pending];
    assert ps.unsignedTx == TokenTx(ps, s.chainId, H.GAS_TIP_CAP, price.cap);
  }

  lemma TokenBuilt(ps: PendingSpend, chainId: uint64)
    requires BuiltForToken(ps, chainId) && ps.asset != "eth"
    ensures Built(ps, chainId)
  {
    hide Transactions.BuildETHWithdrawalTx, Transactions.BuildERC20WithdrawalTx;
    var tip: uint64, cap: uint64 :| ps.unsignedTx == TokenTx(ps, chainId, tip, cap);
    assert ps.unsignedTx == WithdrawalTx(ps, chainId, tip, cap);
  }

  lemma UnmappedFromBuilds(s: State, caller: string, from: string, asset: string, amount: int, token: Option<Address>,
                           dest: Address, price: Gas.Price, debit: int)
    requires amount > 0 && (asset == "eth" || (token.Some? && H.Encodable(amount)))
    ensures var after := H.UnmappedFrom(s, caller, from, asset, amount, token, dest, price, debit);
      SameIdentity(s, after) && s.pending in after.spends && Built(after.spends[s.pending], s.chainId)
  {
    hide Transactions.BuildETHWithdrawalTx, Transactions.BuildERC20WithdrawalTx, Credited, Withdrawn, Allowed, AllowanceOf;
    var ps := H.UnmappedFrom(s, caller, from, asset, amount, token, dest, price, debit).spends[s.pending];
    assert ps.unsignedTx == WithdrawalTx(ps, s.chainId, H.GAS_TIP_CAP, price.cap);
  }

  lemma UnmapFromBuilds(s: State, caller: string, from: string, asset: string, amount: Option<int>, token: Option<Address>,
                        dest: Option<Address>, maxFee: H.MaxFee, deductFee: bool, tssKey: bool)
    requires H.UnmapFrom(s, caller, from, asset, amount, token, dest, maxFee, deductFee, tssKey).Ok?
    ensures var after := H.UnmapFrom(s, caller, from, asset, amount, token, dest, maxFee, deductFee, tssKey).value;
      SameIdentity(s, after) && s.pending in after.spends && Built(after.spends[s.pending], s.chainId)
  {
    hide HeaderStores.GetHeader, Gas.SafeGasFee, H.CheckMaxFee, H.Encodable, CanDebit, CanWithdraw, AllowanceOf;
    hide H.UnmappedFrom, SameIdentity, Built, H.GetTokenInfo;
    var gas := if asset == "eth" then Transactions.ETH_TRANSFER_GAS else Transactions.ERC20_TRANSFER_GAS;
    var price := Gas.SafeGasFee(gas, H.Tip(s).value.baseFeePerGas, 2, H.GAS_TIP_CAP).value;
    var debit := H.DebitOf(asset, amount.value, price.fee, deductFee);
    UnmappedFromBuilds(s, caller, from, asset, amount.value, token, dest.value, price, debit);
  }

  lemma UnmapBuilds(keccak: Hasher, s: State, a: Action, after: State)
    requires IsUnmap(a) && Apply(keccak, s, a) == Ok(after)
    ensures SameIdentity(s, after) && s.pending in after.spends
    ensures var ps := after.spends[s.pending];
      if UnmapsMisnamed(s, a) then ps.asset == "eth" && BuiltForToken(ps, s.chainId) else Built(ps, s.chainId)
  {
    hide Apply, H.UnmapETH, H.UnmapERC20, H.UnmapFrom, H.GetTokenInfo, SameIdentity, Built, BuiltForToken;
    if a.UnmapETH? {
      IsUnmapETH(keccak, s, a);
      UnmapETHBuilds(s, a.caller, a.amount, a.dest, a.maxFee, a.deductFee, a.tssKey);
    } else if a.UnmapERC20? {
      IsUnmapERC20(keccak, s, a);
      UnmapERC20Builds(s, a.caller, a.amount, a.token, a.dest, a.tssKey);
      if !UnmapsMisnamed(s, a) {
        TokenBuilt(after.spends[s.pending], s.chainId);
      }
    } else {
      IsUnmapFrom(keccak, s, a);
      UnmapFromBuilds(s, a.caller, a.from, a.asset, a.amount, a.token, a.dest, a.maxFee, a.deductFee, a.tssKey);
    }
  }

  lemma ReplaceKeepsIdentity(s: State)
    requires H.ReplaceWithdrawal(s).Ok?
    ensures SameIdentity(s, H.ReplaceWithdrawal(s).value)
  {
    hide HeaderStores.GetHeader, H.Encodable;
  }

  lemma ReplaceBuilds(s: State)
    requires QueueInv(s) && H.ReplaceWithdrawal(s).Ok?
    ensures var after := H.ReplaceWithdrawal(s).value;
      SameIdentity(s, after) && s.confirmed in after.spends && Built(after.spends[s.confirmed], s.chainId)
  {
    hide HeaderStores.GetHeader, Gas.SafeGasFee, Transactions.BuildETHWithdrawalTx, Transactions.BuildERC20WithdrawalTx;
    hide H.Encodable;
    var price := Gas.SafeGasFee(0, H.Tip(s).value.baseFeePerGas, 3, H.REPLACEMENT_TIP_CAP).value;
    var ps := H.ReplaceWithdrawal(s).value.spends[s.confirmed];
    assert s.confirmed in s.spends && Sound(s.spends[s.confirmed], s.confirmed);
    assert ps.unsignedTx == WithdrawalTx(ps, s.chainId, H.REPLACEMENT_TIP_CAP, price.cap);
  }

  // ----- One call -----

  lemma BuiltForTokenRecognised(ps: PendingSpend, chainId: uint64, v: byte, r: Hash, sig: Hash)
    requires BuiltForToken(ps, chainId) && ps.amount < TWO_256
    ensures Recognised(ps, chainId, v, r, sig) <==> ps.asset != "eth"
  {
    hide Recognised, Transactions.BuildERC20WithdrawalTx;
    var tip: uint64, cap: uint64 :| ps.unsignedTx == TokenTx(ps, chainId, tip, cap);
    TokenRecognised(ps, chainId, tip, cap, v, r, sig);
  }

  /** A freshly queued withdrawal is recognised unless it is of a token registered under the symbol eth. */
  lemma UnmapRecognised(keccak: Hasher, s: State, a: Action, after: State, v: byte, r: Hash, sig: Hash)
    requires IsUnmap(a) && Apply(keccak, s, a) == Ok(after)
    ensures s.pending in after.spends
    ensures after.spends[s.pending].amount < TWO_256 ==>
      (Recognised(after.spends[s.pending], s.chainId, v, r, sig) <==> !UnmapsMisnamed(s, a))
  {
    hide Apply, Recognised, Built, BuiltForToken, UnmapsMisnamed;
    UnmapBuilds(keccak, s, a, after);
    var ps := after.spends[s.pending];
    if ps.amount < TWO_256 {
      if UnmapsMisnamed(s, a) {
        BuiltForTokenRecognised(ps, s.chainId, v, r, sig);
      } else {
        BuiltRecognised(ps, s.chainId, v, r, sig);
      }
    }
  }

  /** A replaced withdrawal always is: the replacement goes by the asset's name alone. */
  lemma ReplacedRecognised(s: State, v: byte, r: Hash, sig: Hash)
    requires QueueInv(s) && H.ReplaceWithdrawal(s).Ok?
    ensures s.confirmed in s.spends && s.confirmed in H.ReplaceWithdrawal(s).value.spends
    ensures s.spends[s.confirmed].amount < TWO_256 ==>
      Recognised(H.ReplaceWithdrawal(s).value.spends[s.confirmed], s.chainId, v, r, sig)
  {
    hide H.ReplaceWithdrawal, Recognised, Built;
    ReplaceBuilds(s);
    ReplaceReprices(s);
    if s.spends[s.confirmed].amount < TWO_256 {
      BuiltRecognised(H.ReplaceWithdrawal(s).value.spends[s.confirmed], s.chainId, v, r, sig);
    }
  }

  // ----- Every run -----

  lemma OtherKeepsIdentity(keccak: Hasher, s: State, a: Action, after: State)
    requires !IsUnmap(a) && !a.ReplaceWithdrawal? && Apply(keccak, s, a) == Ok(after)
    ensures after.chainId == s.chainId
    ensures !(a.Configure? && a.setting.SetVault?) ==> after.vault == s.vault
    ensures !(a.Configure? && a.setting.RegisterToken?) ==> after.tokens == s.tokens
  {
    hide Apply;
    if a.MapETH? || a.MapERC20? {
      DepositKeepsIdentity(keccak, s, a, after);
    } else if Settles(a) {
      SettlementChanges(keccak, s, a, after);
    } else if a.ClearTestnetState? {
      IsClear(keccak, s, a);
      ClearKeepsIdentity(s, after);
    } else if MovesHeaders(a) {
      HeadersKeepIdentity(keccak, s, a, after);
    } else if a.Configure? {
      IsConfigure(keccak, s, a);
      ConfigureKeepsIdentity(s, a.setting);
    } else {
      TransferKeepsIdentity(keccak, s, a, after);
    }
  }

  /** Nothing but registerToken changes the registered tokens. */
  lemma TokensKept(keccak: Hasher, s: State, a: Action)
    requires !(a.Configure? && a.setting.RegisterToken?)
    ensures Next(keccak, s, a).tokens == s.tokens
  {
    hide Apply, H.ReplaceWithdrawal, Built, BuiltForToken, UnmapsMisnamed;
    if Apply(keccak, s, a).Ok? {
      var after := Apply(keccak, s, a).value;
      if IsUnmap(a) {
        UnmapBuilds(keccak, s, a, after);
      } else if a.ReplaceWithdrawal? {
        IsReplace(keccak, s, a);
        ReplaceKeepsIdentity(s);
      } else {
        OtherKeepsIdentity(keccak, s, a, after);
      }
    }
  }

  /** Nothing but setVault moves the vault. */
  lemma VaultKept(keccak: Hasher, s: State, a: Action)
    requires !(a.Configure? && a.setting.SetVault?)
    ensures Next(keccak, s, a).vault == s.vault
  {
    hide Apply, H.ReplaceWithdrawal, Built, BuiltForToken, UnmapsMisnamed;
    if Apply(keccak, s, a).Ok? {
      var after := Apply(keccak, s, a).value;
      if IsUnmap(a) {
        UnmapBuilds(keccak, s, a, after);
      } else if a.ReplaceWithdrawal? {
        IsReplace(keccak, s, a);
        ReplaceKeepsIdentity(s);
      } else {
        OtherKeepsIdentity(keccak, s, a, after);
      }
    }
  }

  /** Whether the head is misnamed after one more call. */
  predicate MisnamedNext(keccak: Hasher, s: State, a: Action, misnamed: bool) {
    if Apply(keccak, s, a).Ok? && (IsUnmap(a) || a.ReplaceWithdrawal?) then UnmapsMisnamed(s, a) else misnamed
  }

  lemma StepBuilt(keccak: Hasher, s: State, a: Action, misnamed: bool)
    requires QueueInv(s) && s.confirmed < TWO_64 - 1 && HeadBuilt(s, misnamed)
    ensures HeadBuilt(Next(keccak, s, a), MisnamedNext(keccak, s, a, misnamed)) && Next(keccak, s, a).chainId == s.chainId
  {
    hide Apply, Built, BuiltForToken, QueueInv;
    if Apply(keccak, s, a).Ok? {
      var after := Apply(keccak, s, a).value;
      if IsUnmap(a) {
        hide UnmapsMisnamed;
        UnmapBuilds(keccak, s, a, after);
        UnmapQueues(keccak, s, a);
        UnmapHead(s, after);
      } else if a.ReplaceWithdrawal? {
        IsReplace(keccak, s, a);
        ReplaceBuilds(s);
        ReplaceReprices(s);
      } else {
        OtherKeepsIdentity(keccak, s, a, after);
        if Settles(a) {
          SettlementAdvances(keccak, s, a);
          SettledHead(s, after);
        } else if a.ClearTestnetState? {
          IsClear(keccak, s, a);
          ClearEmpties(s);
        } else {
          OtherKeepsQueue(keccak, s, a);
        }
      }
    }
  }

  lemma UnmapHead(s: State, after: State)
    requires QueueInv(s) && QueuesOne(s, after)
    ensures after.confirmed == s.pending
  {
  }

  lemma SettledHead(s: State, after: State)
    requires QueueInv(s) && SettlesHead(s, after)
    ensures after.confirmed !in after.spends
  {
  }

  lemma {:induction false} RunBuilt(keccak: Hasher, testnet: bool, chainId: uint64, self: string, actions: seq<Action>)
    requires |actions| < TWO_64
    ensures var init := Deployed(testnet, chainId, self);
      var s := RunFrom(keccak, init, actions);
      HeadBuilt(s, Misnamed(keccak, init, actions)) && s.chainId == chainId
  {
    if actions != [] {
      hide Apply, HeadBuilt, UnmapsMisnamed, QueueInv;
      var front, a := actions[..|actions| - 1], actions[|actions| - 1];
      RunBuilt(keccak, testnet, chainId, self, front);
      QueueInvariant(keccak, testnet, chainId, self, front);
      var init := Deployed(testnet, chainId, self);
      StepBuilt(keccak, RunFrom(keccak, init, front), a, Misnamed(keccak, init, front));
    }
  }

  /** A queued withdrawal of an amount that fits 256 bits is recognised exactly when it is not misnamed. */
  predicate RecognisedUnless(s: State, misnamed: bool, v: byte, r: Hash, sig: Hash) {
    s.confirmed in s.spends && s.spends[s.confirmed].amount < TWO_256 ==>
      (Recognised(s.spends[s.confirmed], s.chainId, v, r, sig) <==> !misnamed)
  }

  lemma HeadRecognised(s: State, misnamed: bool, v: byte, r: Hash, sig: Hash)
    requires HeadBuilt(s, misnamed)
    ensures RecognisedUnless(s, misnamed, v, r, sig)
  {
    hide Recognised, Built, BuiltForToken;
    if s.confirmed in s.spends && s.spends[s.confirmed].amount < TWO_256 {
      if misnamed {
        BuiltForTokenRecognised(s.spends[s.confirmed], s.chainId, v, r, sig);
      } else {
        BuiltRecognised(s.spends[s.confirmed], s.chainId, v, r, sig);
      }
    }
  }

  /**
   Over every run of fewer than 2^64 calls, and with any signature attached: the queued withdrawal is a
   transaction whose signing bytes are the stored unsigned ones and which confirmSpend matches, if and only
   if the last call that wrote it was not the unmap of a token registered under the symbol eth.
   */
  lemma QueuedIsRecognised(keccak: Hasher, testnet: bool, chainId: uint64, self: string, actions: seq<Action>,
                           v: byte, r: Hash, sig: Hash)
    requires |actions| < TWO_64
    ensures var init := Deployed(testnet, chainId, self);
      RecognisedUnless(RunFrom(keccak, init, actions), Misnamed(keccak, init, actions), v, r, sig)
  {
    hide RunFrom, HeadBuilt, Misnamed, RecognisedUnless;
    var init := Deployed(testnet, chainId, self);
    RunBuilt(keccak, testnet, chainId, self, actions);
    HeadRecognised(RunFrom(keccak, init, actions), Misnamed(keccak, init, actions), v, r, sig);
  }
}
