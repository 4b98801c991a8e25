/** Settlement: which transaction settles a queued withdrawal, and exactly what each outcome does to the ledger. */
module SpendTheorems {
  import opened ByteStrings
  import opened Blocklist
  import opened Ledger
  import opened Accounts
  import opened Actions
  import opened WithdrawalQueue
  import Erc20
  import Gas
  import H = Handlers
  import HeaderStores
  import Transactions

  // ----- The transaction of a spend -----

  /** transfer(address,uint256) in the ABI's layout: selector, then two slots of 32 bytes. */
  function TransferCall(to: Address, amount: nat): Bytes
    requires amount < TWO_256
  {
    Fits256(amount);
    [0xa9, 0x05, 0x9c, 0xbb] + Zeros(12) + to + Zeros(32 - |ToBigEndian(amount)|) + ToBigEndian(amount)
  }

  lemma CalldataIsTransferCall(to: Address, amount: nat)
    requires amount < TWO_256
    ensures |ToBigEndian(amount)| <= 32 && Erc20.TransferCalldata(to, amount) == TransferCall(to, amount)
  {
    Fits256(amount);
  }

  /**
   The transaction delivers the withdrawal: under its nonce, on the chain, it sends its amount to its recipient,
   as ether or by a transfer of the token and nothing else.
   */
  predicate Delivers(ps: PendingSpend, tx: Transactions.ParsedTx, chainId: uint64) {
    && tx.nonce == ps.nonce && tx.chainId == chainId
    && if ps.asset == "eth" then tx.to == ps.to && FromBigEndian(tx.value) == ps.amount
       else
         && ps.token.Some? && tx.to == ps.token.value && FromBigEndian(tx.value) == 0
         && 0 <= ps.amount < TWO_256 && tx.data == TransferCall(ps.to, ps.amount)
  }

  /** A slot of 32 bytes is its number's shortest form behind zeros. */
  lemma {:induction false} SlotOf(slot: Bytes)
    ensures |ToBigEndian(FromBigEndian(slot))| <= |slot|
    ensures slot == Zeros(|slot| - |ToBigEndian(FromBigEndian(slot))|) + ToBigEndian(FromBigEndian(slot))
  {
    if slot == [] {
    } else if slot[0] != 0 {
      ToFromBigEndian(slot);
      assert Zeros(0) + slot == slot;
    } else {
      var rest := slot[1..];
      SlotOf(rest);
      LeadingZeros(1, rest);
      assert slot == Zeros(1) + rest;
      var n := |rest| - |ToBigEndian(FromBigEndian(rest))|;
      assert Zeros(1) + Zeros(n) == Zeros(n + 1);
    }
  }

  lemma SlotsAreCall(to: Address, amount: int, data: Bytes)
    requires |data| == 68
    ensures data[..4] == [0xa9, 0x05, 0x9c, 0xbb] && data[4..16] == Zeros(12) && data[16..36] == to
            && FromBigEndian(data[36..68]) == amount
      <==> 0 <= amount < TWO_256 && data == TransferCall(to, amount)
  {
    hide ToBigEndian, FromBigEndian;
    var slot := data[36..68];
    Below256(slot);
    SlotOf(slot);
    assert data == data[..4] + data[4..16] + data[16..36] + slot;
    if 0 <= amount < TWO_256 {
      Fits256(amount);
      FromToBigEndian(amount);
      LeadingZeros(32 - |ToBigEndian(amount)|, ToBigEndian(amount));
      var call := TransferCall(to, amount);
      assert call[..4] == [0xa9, 0x05, 0x9c, 0xbb] && call[4..16] == Zeros(12) && call[16..36] == to;
      assert call[36..68] == Zeros(32 - |ToBigEndian(amount)|) + ToBigEndian(amount);
    }
  }

  /** confirmSpend matches exactly the transactions that deliver the withdrawal. */
  lemma MatchesExactly(ps: PendingSpend, tx: Transactions.ParsedTx, chainId: uint64)
    ensures H.SpendMatches(ps, tx, chainId) <==> Delivers(ps, tx, chainId)
  {
    hide ToBigEndian, FromBigEndian;
    if |tx.data| == 68 {
      hide TransferCall;
      SlotsAreCall(ps.to, ps.amount, tx.data);
    } else if 0 <= ps.amount < TWO_256 {
      Fits256(ps.amount);
    }
  }

  // ----- Settling the head -----

  /** The head is gone, its amount with it: nothing else changed. */
  predicate PaysHead(s: State, after: State) {
    s.confirmed < TWO_64 - 1 && after == s.(spends := s.spends - {s.confirmed}, confirmed := s.confirmed + 1)
  }

  /** The head is gone, its amount back with its owner and in both totals, and the reserve has that much gas back. */
  ghost predicate ReturnsHead(s: State, after: State, gas: int) {
    && s.confirmed < TWO_64 - 1 && s.confirmed in s.spends
    && var ps, supply := s.spends[s.confirmed], Tracked(s, s.spends[s.confirmed].asset);
    && after == s.(balances := after.balances, supplies := after.supplies, gasReserve := s.gasReserve + gas,
                   spends := s.spends - {s.confirmed}, confirmed := s.confirmed + 1)
    && HeldChanges(s, after, ps.from, ps.asset, ps.amount)
    && TrackedBecomes(s, after, ps.asset, supply.active + ps.amount, supply.user + ps.amount, supply.fee)
  }

  /** What confirmSpend asks of the call, its proof and the stored head. */
  predicate MayConfirm(s: State, intent: H.Intent, height: uint64, proof: H.SpendProof) {
    && !s.paused && s.confirmed in s.spends
    && var ps := s.spends[s.confirmed];
    && intent.nonce == s.confirmed && intent.to == ps.to && intent.amount == Some(ps.amount) && intent.asset == ps.asset
    && height > ps.blockHeight && HeaderStores.GetHeader(s.chain.headers, height).Some?
    && proof.Proven? && proof.signer == ps.vaultAtQueue && ps.vaultAtQueue != Zeros(20)
    && Delivers(ps, proof.tx, s.chainId)
  }

  /**
   A settlement is accepted if and only if its proven transaction, signed by the vault of the queueing, delivers the
   withdrawal; a receipt of status 1 settles it as paid, any other returns it with the gas it cost.
   */
  lemma ConfirmExactly(keccak: Hasher, s: State, intent: H.Intent, height: uint64, proof: H.SpendProof)
    requires QueueInv(s)
    ensures var r := Apply(keccak, s, ConfirmSpend(intent, height, proof));
      && (r.Ok? <==> MayConfirm(s, intent, height, proof))
      && (r.Ok? ==> if proof.status == 1 then PaysHead(s, r.value) else ReturnsHead(s, r.value, s.spends[s.confirmed].gasCost))
  {
    hide HeaderStores.GetHeader, H.SpendMatches, Delivers, H.Settled;
    if s.confirmed in s.spends && proof.Proven? {
      MatchesExactly(s.spends[s.confirmed], proof.tx, s.chainId);
      SettledExactly(s, proof.status);
    }
  }

  /** A refund is the spend's amount to its owner and to both totals. */
  lemma RefundExactly(s: State, ps: PendingSpend)
    ensures var after, supply := Refunded(s, ps), Tracked(s, ps.asset);
      && after == s.(balances := after.balances, supplies := after.supplies)
      && HeldChanges(s, after, ps.from, ps.asset, ps.amount)
      && TrackedBecomes(s, after, ps.asset, supply.active + ps.amount, supply.user + ps.amount, supply.fee)
  {
  }

  lemma SettledExactly(s: State, status: uint64)
    requires QueueInv(s) && s.confirmed in s.spends
    ensures var after := H.Settled(s, s.spends[s.confirmed], status);
      if status == 1 then PaysHead(s, after) else ReturnsHead(s, after, s.spends[s.confirmed].gasCost)
  {
    var ps := s.spends[s.confirmed];
    if status != 1 {
      ReturnedHead(s, Refunded(s, ps), H.Settled(s, ps, status), ps.gasCost);
    }
    hide Refunded, ReturnsHead;
  }

  /** From a refunded state to the settled one only gas and queue remain to be changed. */
  lemma ReturnedHead(s: State, refunded: State, after: State, gas: int)
    requires QueueInv(s) && s.confirmed in s.spends
    requires refunded == Refunded(s, s.spends[s.confirmed])
    requires s.confirmed == TWO_64 - 1
      || after == refunded.(gasReserve := s.gasReserve + gas, spends := s.spends - {s.confirmed}, confirmed := s.confirmed + 1)
    ensures ReturnsHead(s, after, gas)
  {
    hide Refunded;
    RefundExactly(s, s.spends[s.confirmed]);
    SameReadings(refunded, after);
    hide Held, Tracked;
  }

  lemma SameReadings(s: State, after: State)
    ensures after.balances == s.balances ==> forall o, x :: Held(after, o, x) == Held(s, o, x)
    ensures after.supplies == s.supplies ==> forall x :: Tracked(after, x) == Tracked(s, x)
  {
  }

  // ----- Dropping it -----

  /** Who may drop the head: the admin; its owner; and, 5000 blocks after its queueing, anybody. */
  predicate MayDrop(s: State, a: Action) {
    && !s.paused && s.confirmed in s.spends
    && var ps := s.spends[s.confirmed];
    match a
    case ClearNonce(_) => true
    case CancelMyWithdrawal(caller, nonce, _) => nonce == s.confirmed && caller == ps.from
    case ExpireWithdrawal(caller, nonce, _, l2Height) =>
      && nonce == s.confirmed && ps.vaultAtQueue != Zeros(20)
      && (caller == ps.from || l2Height >= Wrap64(ps.blockHeight + 5000))
    case _ => false
  }

  /** Each of the three drop calls needs an accepted proof and returns the head, without its gas. */
  lemma DropExactly(keccak: Hasher, s: State, a: Action)
    requires QueueInv(s) && (a.ClearNonce? || a.ExpireWithdrawal? || a.CancelMyWithdrawal?)
    ensures var r := Apply(keccak, s, a);
      && (r.Ok? <==> MayDrop(s, a) && a.drop == H.Dropped)
      && (r.Ok? ==> ReturnsHead(s, r.value, 0))
  {
    hide H.DropSpend, Wrap64;
    if s.confirmed in s.spends {
      DroppedExactly(s);
    }
  }

  lemma DroppedExactly(s: State)
    requires QueueInv(s) && s.confirmed in s.spends
    ensures ReturnsHead(s, H.DropSpend(s, s.spends[s.confirmed], s.confirmed), 0)
  {
    var ps := s.spends[s.confirmed];
    ReturnedHead(s, Refunded(s, ps), H.DropSpend(s, ps, s.confirmed), 0);
    hide Refunded, ReturnsHead;
  }

  // ----- Repricing it -----

  /** The header stored at the last height. */
  function TipHeader(s: State): Option<Header> {
    HeaderStores.GetHeader(s.chain.headers, s.chain.lastHeight)
  }

  function TipBase(s: State): nat
    requires TipHeader(s).Some?
  {
    TipHeader(s).value.baseFeePerGas
  }

  /** The head's transaction at a tip of 4 gwei and a cap of three times the base fee more than that. */
  function Repriced(s: State, ps: PendingSpend): Bytes
    requires TipHeader(s).Some? && 3 * TipBase(s) + 4_000_000_000 < TWO_64
    requires ps.amount >= 0 && (ps.asset == "eth" || (ps.token.Some? && |ToBigEndian(ps.amount)| <= 68))
  {
    var cap: uint64 := 3 * TipBase(s) + 4_000_000_000;
    if ps.asset == "eth" then
      Transactions.BuildEIP1559Tx(s.chainId, ps.nonce, 4_000_000_000, cap, 21_000, ps.to, ps.amount, [])
    else
      Transactions.BuildEIP1559Tx(s.chainId, ps.nonce, 4_000_000_000, cap, 65_000, ps.token.value, 0,
                                  Erc20.TransferCalldata(ps.to, ps.amount))
  }

  predicate MayReplace(s: State) {
    && !s.paused && s.confirmed in s.spends && TipHeader(s).Some? && 3 * TipBase(s) + 4_000_000_000 < TWO_64
    && var ps := s.spends[s.confirmed];
    ps.amount >= 0 && (ps.asset == "eth" || (ps.token.Some? && |ToBigEndian(ps.amount)| <= 68))
  }

  lemma ReplaceExactly(keccak: Hasher, s: State)
    requires QueueInv(s)
    ensures var r := Apply(keccak, s, ReplaceWithdrawal);
      && (r.Ok? <==> MayReplace(s))
      && (r.Ok? ==>
            r.value == s.(spends := map[s.confirmed := s.spends[s.confirmed].(unsignedTx := Repriced(s, s.spends[s.confirmed]))]))
  {
    hide Apply, H.ReplaceWithdrawal, Repriced, MayReplace, TipBase;
    IsReplace(keccak, s, ReplaceWithdrawal);
    ReplaceIs(s);
    if s.confirmed in s.spends {
      assert s.spends == map[s.confirmed := s.spends[s.confirmed]] by {
        assert forall n :: n in s.spends ==> n == s.confirmed;
      }
    }
  }

  lemma ReplaceIs(s: State)
    requires QueueInv(s)
    ensures H.ReplaceWithdrawal(s).Ok? <==> MayReplace(s)
    ensures MayReplace(s) ==>
      var ps := s.spends[s.confirmed];
      H.ReplaceWithdrawal(s).value == s.(spends := s.spends[s.confirmed := ps.(unsignedTx := Repriced(s, ps))])
  {
    hide HeaderStores.GetHeader, Transactions.BuildEIP1559Tx, Gas.SafeGasFee;
    if TipHeader(s).Some? {
      Gas.SafeGasFeeExact(0, TipBase(s), 3, H.REPLACEMENT_TIP_CAP);
      assert TipBase(s) * 3 == 3 * TipBase(s);
    }
  }

  // ----- Clearing a testnet contract -----

  /** The queue is emptied and both nonces are 0; the deposits observed at the last 203 heights are forgotten. */
  lemma ClearExactly(keccak: Hasher, s: State)
    requires QueueInv(s)
    ensures var r := Apply(keccak, s, ClearTestnetState);
      && (r.Ok? <==> !s.paused && s.testnet)
      && (r.Ok? ==>
            && r.value == s.(spends := map[], confirmed := 0, pending := 0, chain := s.chain.(observed := r.value.chain.observed))
            && forall h :: (h in r.value.chain.observed
                            <==> h in s.chain.observed && !(s.chain.lastHeight - 202 <= h <= s.chain.lastHeight))
                           && (h in r.value.chain.observed ==> r.value.chain.observed[h] == s.chain.observed[h]))
  {
    IsClear(keccak, s, ClearTestnetState);
    hide Apply;
    assert forall n: uint64 :: n in s.spends ==> s.confirmed <= n <= s.pending;
  }
}
