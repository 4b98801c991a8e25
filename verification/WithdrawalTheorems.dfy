/** What a withdrawal charges, what a failed one gives back, and that a signed one is always recognised. */
module WithdrawalTheorems {
  import opened ByteStrings
  import opened Blocklist
  import opened Ledger
  import opened Actions
  import opened History
  import opened WithdrawalQueue
  import opened Effects
  import opened SpendTheorems
  import opened TransactionTheorems
  import HeaderStores
  import H = Handlers
  import Erc20
  import Gas
  import Transactions

  // ----- The fee -----

  /** Twice the base fee plus 2 gwei. */
  function FeeCap(h: Header): nat {
    2 * h.baseFeePerGas + 2_000_000_000
  }

  /**
   A successful ETH unmap found a price that fits 64 bits, debits the amount and, unless it is to be
   deducted, exactly 21000 times that price, and books what it charged as fee.
   */
  lemma ExactFee(s: State, caller: string, amount: Option<int>, dest: Option<Address>, maxFee: H.MaxFee,
                 deductFee: bool, tssKey: bool)
    requires H.UnmapETH(s, caller, amount, dest, maxFee, deductFee, tssKey).Ok?
    ensures H.Tip(s).Some? && FeeCap(H.Tip(s).value) < TWO_64 && amount.Some? && dest.Some? && amount.value >= 0
    ensures var cap: uint64 := FeeCap(H.Tip(s).value);
      var charged := if deductFee then 0 else 21_000 * cap;
      var after := H.UnmapETH(s, caller, amount, dest, maxFee, deductFee, tssKey).value;
      && BalanceOf(after.balances, caller, "eth") == BalanceOf(s.balances, caller, "eth") - (amount.value + charged)
      && SupplyOf(after.supplies, "eth").fee == SupplyOf(s.supplies, "eth").fee + charged
      && s.pending in after.spends
      && after.spends[s.pending].unsignedTx
        == Transactions.BuildETHWithdrawalTx(s.chainId, s.pending, 2_000_000_000, cap, dest.value, amount.value)
  {
    hide HeaderStores.GetHeader, Gas.SafeGasFee, Transactions.BuildETHWithdrawalTx, H.CheckMaxFee;
    Gas.SafeGasFeeExact(Transactions.ETH_TRANSFER_GAS, H.Tip(s).value.baseFeePerGas, 2, H.GAS_TIP_CAP);
  }

  // ----- A failed receipt -----

  /** Every balance and every supply figure is the same, whether or not an account has an entry. */
  ghost predicate SameMoney(s: State, after: State) {
    && (forall owner, asset :: BalanceOf(after.balances, owner, asset) == BalanceOf(s.balances, owner, asset))
    && (forall asset :: SupplyOf(after.supplies, asset) == SupplyOf(s.supplies, asset))
  }

  lemma CreditCancels(b: map<Account, int>, owner: string, asset: string, amount: int, x: string, y: string)
    ensures BalanceOf(Credited(Credited(b, owner, asset, -amount), owner, asset, amount), x, y) == BalanceOf(b, x, y)
  {
  }

  lemma RestoreCancels(supplies: map<string, Supply>, asset: string, amount: int, x: string)
    ensures SupplyOf(Restored(Withdrawn(supplies, asset, amount), asset, amount), x) == SupplyOf(supplies, x)
  {
  }

  /** The reserve an ERC-20 unmap leaves, and the gas cost it remembers. */
  lemma UnmapERC20Gas(s: State, caller: string, amount: Option<int>, token: Option<Address>, dest: Option<Address>, tssKey: bool)
    requires H.UnmapERC20(s, caller, amount, token, dest, tssKey).Ok?
    ensures var after := H.UnmapERC20(s, caller, amount, token, dest, tssKey).value;
      && s.pending in after.spends && after.spends[s.pending].gasCost >= 0
      && after.gasReserve == Clamp(s.gasReserve - after.spends[s.pending].gasCost)
      && s.gasReserve > 0
  {
    hide HeaderStores.GetHeader, Gas.SafeGasFee, Transactions.BuildERC20WithdrawalTx, H.Encodable, Withdrawn, Credited;
  }

  lemma UnmapFromGas(s: State, caller: string, from: string, asset: string, amount: Option<int>, token: Option<Address>,
                     dest: Option<Address>, maxFee: H.MaxFee, deductFee: bool, tssKey: bool)
    requires H.UnmapFrom(s, caller, from, asset, amount, token, dest, maxFee, deductFee, tssKey).Ok? && asset != "eth"
    ensures var after := H.UnmapFrom(s, caller, from, asset, amount, token, dest, maxFee, deductFee, tssKey).value;
      && s.pending in after.spends && after.spends[s.pending].gasCost >= 0
      && after.gasReserve == Clamp(s.gasReserve - after.spends[s.pending].gasCost)
      && s.gasReserve > 0
  {
    hide HeaderStores.GetHeader, Gas.SafeGasFee, Transactions.BuildERC20WithdrawalTx, H.Encodable, H.CheckToken;
    hide H.CheckMaxFee, Withdrawn, Credited, CanDebit, CanWithdraw, Allowed, AllowanceOf;
  }

  /** The two ways of withdrawing a token. */
  predicate UnmapsToken(a: Action) {
    a.UnmapERC20? || (a.UnmapFrom? && a.asset != "eth")
  }

  /** A token unmap takes exactly the spend's amount and at most its gas cost. */
  ghost predicate Charged(s: State, queued: State) {
    && QueuesOne(s, queued) && s.pending in queued.spends
    && var ps := queued.spends[s.pending];
    && queued.balances == Credited(s.balances, ps.from, ps.asset, -ps.amount)
    && queued.supplies == Withdrawn(s.supplies, ps.asset, ps.amount)
    && ps.gasCost >= 0 && s.gasReserve > 0 && queued.gasReserve == Clamp(s.gasReserve - ps.gasCost)
  }

  lemma TokenUnmapCharges(keccak: Hasher, s: State, a: Action, queued: State)
    requires UnmapsToken(a) && Apply(keccak, s, a) == Ok(queued)
    ensures Charged(s, queued)
  {
    hide Apply, H.UnmapERC20, H.UnmapFrom, Credited, Withdrawn, CanWithdraw, QueuesOne, Clamp, Debit, BalanceOf;
    if a.UnmapERC20? {
      UnmapERC20Shape(keccak, s, a);
      IsUnmapERC20(keccak, s, a);
      UnmapERC20Gas(s, a.caller, a.amount, a.token, a.dest, a.tssKey);
    } else {
      UnmapFromShape(keccak, s, a);
      IsUnmapFrom(keccak, s, a);
      UnmapFromGas(s, a.caller, a.from, a.asset, a.amount, a.token, a.dest, a.maxFee, a.deductFee, a.tssKey);
    }
  }

  /**
   A token unmap, by its owner or under an allowance and possibly replaced, whose receipt turns out
   failed: all balances and supplies are what they were, and so is the gas reserve unless the gas cost
   exceeded it.
   */
  lemma FailedReceiptRestores(keccak: Hasher, s: State, a: Action, queued: State, replaced: State,
                              intent: H.Intent, height: uint64, proof: H.SpendProof, after: State)
    requires QueueInv(s) && s.confirmed < TWO_64 - 1
    requires UnmapsToken(a) && Apply(keccak, s, a) == Ok(queued)
    requires replaced == queued || H.ReplaceWithdrawal(queued) == Ok(replaced)
    requires proof.Proven? && proof.status != 1 && H.ConfirmSpend(replaced, intent, height, proof) == Ok(after)
    ensures SameMoney(s, after)
    ensures s.pending in queued.spends
    ensures var cost := queued.spends[s.pending].gasCost;
      after.gasReserve == if s.gasReserve >= cost then s.gasReserve else cost
    ensures after.spends == map[] && after.confirmed == after.pending == s.pending + 1
  {
    hide Apply, H.ReplaceWithdrawal, H.ConfirmSpend, Credited, Withdrawn, Restored, QueueInv, QueuesOne, SameMoney, UnmapsToken;
    TokenUnmapCharges(keccak, s, a, queued);
    StepKeepsQueue(keccak, s, a);
    RepricedHead(s, queued, replaced);
    ConfirmShape(replaced, intent, height, proof);
    FailedSettlement(replaced, replaced.spends[replaced.confirmed], proof.status, after);
    MoneyBack(s, queued.spends[s.pending], after);
    EmptyAfter(s, queued, replaced, after);
  }

  lemma MoneyBack(s: State, ps: PendingSpend, after: State)
    requires after.balances == Credited(Credited(s.balances, ps.from, ps.asset, -ps.amount), ps.from, ps.asset, ps.amount)
    requires after.supplies == Restored(Withdrawn(s.supplies, ps.asset, ps.amount), ps.asset, ps.amount)
    ensures SameMoney(s, after)
  {
    hide Credited, Restored, Withdrawn;
    forall owner, asset
      ensures BalanceOf(after.balances, owner, asset) == BalanceOf(s.balances, owner, asset)
    {
      CreditCancels(s.balances, ps.from, ps.asset, ps.amount, owner, asset);
    }
    forall asset
      ensures SupplyOf(after.supplies, asset) == SupplyOf(s.supplies, asset)
    {
      RestoreCancels(s.supplies, ps.asset, ps.amount, asset);
    }
  }

  /** Queued or replaced, the head is the spend just queued in all but the unsigned transaction. */
  lemma RepricedHead(s: State, queued: State, replaced: State)
    requires QueueInv(s) && QueueInv(queued) && QueuesOne(s, queued) && s.confirmed < TWO_64 - 1
    requires s.pending in queued.spends
    requires replaced == queued || H.ReplaceWithdrawal(queued) == Ok(replaced)
    ensures QueueInv(replaced)
    ensures replaced.confirmed == s.pending && s.pending in replaced.spends
    ensures SameIntent(queued.spends[s.pending], replaced.spends[s.pending])
    ensures replaced == queued.(spends := replaced.spends)
  {
    hide H.ReplaceWithdrawal;
    if replaced != queued {
      ReplaceReprices(queued);
    }
  }

  lemma FailedSettlement(s: State, ps: PendingSpend, status: uint64, after: State)
    requires status != 1 && after == H.Settled(s, ps, status) && ps.gasCost >= 0
    ensures after.balances == Credited(s.balances, ps.from, ps.asset, ps.amount)
    ensures after.supplies == Restored(s.supplies, ps.asset, ps.amount)
    ensures after.gasReserve == s.gasReserve + ps.gasCost
    ensures after.spends == s.spends - {s.confirmed} && after.confirmed == Wrap64(s.confirmed + 1)
    ensures after.pending == s.pending
  {
    hide Credited, Restored, Wrap64;
    var refunded := Refunded(s, ps);
    var paid := if ps.gasCost > 0 then refunded.(gasReserve := refunded.gasReserve + ps.gasCost) else refunded;
    assert after == Deleted(paid, s.confirmed).(confirmed := Wrap64(s.confirmed + 1));
    hide H.Settled;
  }

  lemma EmptyAfter(s: State, queued: State, replaced: State, after: State)
    requires QueueInv(s) && QueueInv(replaced) && s.confirmed < TWO_64 - 1 && QueuesOne(s, queued)
    requires replaced.confirmed == s.pending && replaced.pending == queued.pending
    requires after.spends == replaced.spends - {replaced.confirmed} && after.confirmed == Wrap64(replaced.confirmed + 1)
    requires after.pending == replaced.pending
    ensures after.spends == map[] && after.confirmed == after.pending == s.pending + 1
  {
    assert forall n: uint64 :: n !in after.spends;
  }

  // ----- Recognising the signed withdrawal -----

  /** The transaction of a queued withdrawal, at some price. */
  function WithdrawalTx(ps: PendingSpend, chainId: uint64, tip: uint64, cap: uint64): Bytes
    requires ps.amount >= 0 && (ps.asset == "eth" || (ps.token.Some? && H.Encodable(ps.amount)))
  {
    if ps.asset == "eth" then Transactions.BuildETHWithdrawalTx(chainId, ps.nonce, tip, cap, ps.to, ps.amount)
    else Transactions.BuildERC20WithdrawalTx(chainId, ps.nonce, tip, cap, ps.token.value, ps.to, ps.amount)
  }

  /** The signed withdrawal parses to a match, its signing bytes are the stored ones, and the signature comes back. */
  predicate Recognised(ps: PendingSpend, chainId: uint64, v: byte, r: Hash, sig: Hash) {
    var signed := Transactions.AttachSignature(ps.unsignedTx, v, r, sig);
    && signed.Ok?
    && var parsed := Transactions.ParseTransaction(signed.value);
    && parsed.Ok?
    && Transactions.SighashPreimage(signed.value, parsed.value) == ps.unsignedTx
    && parsed.value.v == v && Transactions.PadTo32(parsed.value.r) == r && Transactions.PadTo32(parsed.value.s) == sig
    && Delivers(ps, parsed.value, chainId)
  }

  lemma ETHRecognised(ps: PendingSpend, chainId: uint64, tip: uint64, cap: uint64, v: byte, r: Hash, sig: Hash)
    requires 0 <= ps.amount < TWO_256 && ps.asset == "eth"
    requires ps.unsignedTx == Transactions.BuildETHWithdrawalTx(chainId, ps.nonce, tip, cap, ps.to, ps.amount)
    ensures Recognised(ps, chainId, v, r, sig)
  {
    WithdrawalRoundTrip(chainId, ps.nonce, tip, cap, Transactions.ETH_TRANSFER_GAS, ps.to, ps.amount, [], v, r, sig);
    FromToBigEndian(ps.amount);
    hide Transactions.BuildEIP1559Tx, Transactions.AttachSignature, Transactions.ParseTransaction;
    hide Transactions.SighashPreimage, Transactions.PadTo32;
  }

  /** A token withdrawal is recognised exactly when the token does not call itself eth. */
  lemma TokenRecognised(ps: PendingSpend, chainId: uint64, tip: uint64, cap: uint64, v: byte, r: Hash, sig: Hash)
    requires 0 < ps.amount < TWO_256 && ps.token.Some? && |ToBigEndian(ps.amount)| <= Erc20.CALLDATA_SIZE
    requires ps.unsignedTx
      == Transactions.BuildERC20WithdrawalTx(chainId, ps.nonce, tip, cap, ps.token.value, ps.to, ps.amount)
    ensures Recognised(ps, chainId, v, r, sig) <==> ps.asset != "eth"
  {
    var data := Erc20.TransferCalldata(ps.to, ps.amount);
    hide Transactions.BuildEIP1559Tx, Transactions.AttachSignature, Transactions.ParseTransaction;
    hide Transactions.SighashPreimage, Transactions.PadTo32, Erc20.TransferCalldata, TransferCall, FromBigEndian, ToBigEndian;
    WithdrawalRoundTrip(chainId, ps.nonce, tip, cap, Transactions.ERC20_TRANSFER_GAS, ps.token.value, 0, data, v, r, sig);
    CalldataIsTransferCall(ps.to, ps.amount);
    FromToBigEndian(0);
  }

  /** The queued withdrawal carries its own transaction on the contract's chain. */
  ghost predicate Built(ps: PendingSpend, chainId: uint64) {
    && ps.amount > 0 && (ps.asset == "eth" || (ps.token.Some? && H.Encodable(ps.amount)))
    && exists tip: uint64, cap: uint64 :: ps.unsignedTx == WithdrawalTx(ps, chainId, tip, cap)
  }

  lemma BuiltRecognised(ps: PendingSpend, chainId: uint64, v: byte, r: Hash, sig: Hash)
    requires Built(ps, chainId) && ps.amount < TWO_256
    ensures Recognised(ps, chainId, v, r, sig)
  {
    hide Recognised, Transactions.BuildETHWithdrawalTx, Transactions.BuildERC20WithdrawalTx;
    var tip: uint64, cap: uint64 :| ps.unsignedTx == WithdrawalTx(ps, chainId, tip, cap);
    if ps.asset == "eth" {
      ETHRecognised(ps, chainId, tip, cap, v, r, sig);
    } else {
      TokenRecognised(ps, chainId, tip, cap, v, r, sig);
    }
  }
}
