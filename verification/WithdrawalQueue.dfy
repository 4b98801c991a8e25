/** The withdrawal queue holds at most one spend, stored exactly between the two nonces. */
module WithdrawalQueue {
  import opened ByteStrings
  import opened Ledger
  import opened Actions
  import HeaderStores
  import H = Handlers
  import Gas
  import Transactions

  ghost predicate QueueInv(s: State) {
    && (s.pending == s.confirmed || s.pending == s.confirmed + 1)
    && (forall n: uint64 :: n in s.spends <==> s.confirmed <= n < s.pending)
    && (s.confirmed in s.spends ==> Sound(s.spends[s.confirmed], s.confirmed))
  }

  predicate Sound(ps: PendingSpend, n: uint64) {
    ps.nonce == n && ps.amount > 0 && ps.gasCost >= 0
  }

  /** The fields the queue lives in. */
  predicate SameQueue(s: State, after: State) {
    after.spends == s.spends && after.confirmed == s.confirmed && after.pending == s.pending
  }

  lemma DepositKeepsQueue(keccak: Hasher, s: State, a: Action)
    requires a.MapETH? || a.MapERC20?
    ensures SameQueue(s, Next(keccak, s, a))
  {
    hide Apply, H.AcceptDeposit, H.ReadInstructions, H.GetTokenInfo, H.AddMark;
    if Apply(keccak, s, a).Ok? {
      var m := H.DepositMark(a.hash, a.index);
      if a.MapETH? {
        MapETHShape(keccak, s, a);
        H.AcceptChanges(s, a.height, m, "eth", a.deposit.amount, H.Tax(a.deposit.amount),
                        H.ReadInstructions(a.deposit.depositor, a.instructions), a.call);
      } else {
        MapERC20Shape(keccak, s, a);
        H.AcceptChanges(s, a.height, m, H.GetTokenInfo(s, a.token.value).value.symbol, a.deposit.amount, 0,
                        H.ReadInstructions(a.deposit.depositor, a.instructions), a.call);
      }
    }
  }

  predicate IsUnmap(a: Action) {
    a.UnmapETH? || a.UnmapERC20? || a.UnmapFrom?
  }

  /** A successful unmap queues one spend under the pending nonce, on an empty queue. */
  ghost predicate QueuesOne(s: State, after: State) {
    && s.pending <= s.confirmed
    && after.confirmed == s.confirmed && after.pending == Wrap64(s.pending + 1)
    && s.pending in after.spends
    && after.spends == s.spends[s.pending := after.spends[s.pending]]
    && Sound(after.spends[s.pending], s.pending)
  }

  lemma UnmapQueues(keccak: Hasher, s: State, a: Action)
    requires IsUnmap(a) && Apply(keccak, s, a).Ok?
    ensures QueuesOne(s, Apply(keccak, s, a).value)
  {
    hide HeaderStores.GetHeader, Gas.SafeGasFee, Transactions.BuildETHWithdrawalTx, Transactions.BuildERC20WithdrawalTx;
    hide H.Encodable, H.CheckMaxFee, H.CheckToken, Credited, Withdrawn, WithdrawnETH;
  }

  /** A successful settlement removes the head, and both nonces stand just past it. */
  ghost predicate SettlesHead(s: State, after: State) {
    && s.confirmed in s.spends
    && after.spends == s.spends - {s.confirmed}
    && after.confirmed == Wrap64(s.confirmed + 1)
    && after.pending == (if s.pending > s.confirmed then s.pending else Wrap64(s.confirmed + 1))
  }

  predicate Settles(a: Action) {
    a.ConfirmSpend? || a.ClearNonce? || a.ExpireWithdrawal? || a.CancelMyWithdrawal?
  }

  lemma DropChanges(s: State, ps: PendingSpend, nonce: uint64)
    ensures var after := H.DropSpend(s, ps, nonce);
      after == s.(balances := after.balances, supplies := after.supplies, spends := after.spends,
                  confirmed := after.confirmed, pending := after.pending)
  {
    hide Credited, Restored;
  }

  lemma PayChanges(s: State, ps: PendingSpend, status: uint64)
    ensures var after := H.Settled(s, ps, status);
      after == s.(balances := after.balances, supplies := after.supplies, gasReserve := after.gasReserve,
                  spends := after.spends, confirmed := after.confirmed)
  {
    hide Credited, Restored;
  }

  /** A settlement touches money and the queue, and nothing else. */
  lemma SettlementChanges(keccak: Hasher, s: State, a: Action, after: State)
    requires Settles(a) && Apply(keccak, s, a) == Ok(after)
    ensures after.chain == s.chain && after.chainId == s.chainId && after.vault == s.vault && after.tokens == s.tokens
  {
    hide HeaderStores.GetHeader, H.SpendMatches, H.Settled, H.DropSpend;
    if a.ConfirmSpend? {
      PayChanges(s, GetPendingSpend(s, s.confirmed).value, a.spend.status);
    } else {
      var nonce := if a.ClearNonce? then s.confirmed else a.nonce;
      DropChanges(s, GetPendingSpend(s, nonce).value, nonce);
    }
  }

  /**
   Whatever nonce the caller named, a stored spend is the head: so the compare-and-advance goes through
   at each of its three call sites, although cancelMyWithdrawal never compares the nonce with the head.
   */
  lemma AdvanceAlwaysSucceeds(s: State, nonce: uint64)
    requires QueueInv(s) && GetPendingSpend(s, nonce).Some?
    ensures var ps := GetPendingSpend(s, nonce).value;
      && nonce == s.confirmed && ps == s.spends[nonce]
      && Advances(Refunded(s, ps), ps)
      && SettlesHead(s, H.DropSpend(s, ps, nonce))
  {
    hide Credited, Restored;
    assert nonce in s.spends;
  }

  lemma ConfirmShape(s: State, intent: H.Intent, height: uint64, proof: H.SpendProof)
    requires QueueInv(s) && H.ConfirmSpend(s, intent, height, proof).Ok?
    ensures s.confirmed in s.spends && proof.Proven?
    ensures H.ConfirmSpend(s, intent, height, proof).value == H.Settled(s, s.spends[s.confirmed], proof.status)
  {
    hide HeaderStores.GetHeader, H.SpendMatches, H.Settled;
  }

  lemma DropShape(keccak: Hasher, s: State, a: Action)
    requires QueueInv(s) && (a.ClearNonce? || a.ExpireWithdrawal? || a.CancelMyWithdrawal?) && Apply(keccak, s, a).Ok?
    ensures s.confirmed in s.spends
    ensures a.ExpireWithdrawal? || a.CancelMyWithdrawal? ==> a.nonce == s.confirmed
    ensures Apply(keccak, s, a).value == H.DropSpend(s, s.spends[s.confirmed], s.confirmed)
  {
    hide H.DropSpend;
    if a.ExpireWithdrawal? || a.CancelMyWithdrawal? {
      AdvanceAlwaysSucceeds(s, a.nonce);
    }
  }

  lemma SettlementAdvances(keccak: Hasher, s: State, a: Action)
    requires QueueInv(s) && Settles(a) && Apply(keccak, s, a).Ok?
    ensures SettlesHead(s, Apply(keccak, s, a).value)
  {
    hide Credited, Restored;
    if a.ConfirmSpend? {
      ConfirmShape(s, a.intent, a.height, a.spend);
      hide H.ConfirmSpend;
    } else {
      DropShape(keccak, s, a);
      AdvanceAlwaysSucceeds(s, s.confirmed);
      hide Apply, H.DropSpend;
    }
  }

  /** Nothing the figures are read from changed. */
  predicate SameBooks(s: State, after: State) {
    after.balances == s.balances && after.supplies == s.supplies && SameQueue(s, after)
  }

  predicate SetsAllowance(a: Action) {
    a.Approve? || a.IncreaseAllowance? || a.DecreaseAllowance?
  }

  predicate Administers(a: Action) {
    a.Configure? || a.Pause? || a.Unpause?
  }

  predicate MovesHeaders(a: Action) {
    a.SeedBlock? || a.AddBlocks? || a.ReplaceBlock?
  }

  predicate Bookless(a: Action) {
    SetsAllowance(a) || Administers(a) || MovesHeaders(a)
  }

  lemma AllowanceKeeps(keccak: Hasher, s: State, a: Action)
    requires SetsAllowance(a)
    ensures SameBooks(s, Next(keccak, s, a))
  {
    hide H.MapETH, H.MapERC20, H.UnmapETH, H.UnmapERC20, H.UnmapFrom, H.ConfirmSpend, H.ClearNonce, H.ExpireWithdrawal;
    hide H.CancelMyWithdrawal, H.ReplaceWithdrawal, H.ClearTestnetState;
    hide Allowed, AllowanceOf;
  }

  lemma ConfigureKeeps(s: State, c: H.Setting)
    requires H.Configure(s, c).Ok?
    ensures SameBooks(s, H.Configure(s, c).value)
  {
  }

  lemma AdminKeeps(keccak: Hasher, s: State, a: Action)
    requires Administers(a)
    ensures SameBooks(s, Next(keccak, s, a))
  {
    hide H.MapETH, H.MapERC20, H.UnmapETH, H.UnmapERC20, H.UnmapFrom, H.ConfirmSpend, H.ClearNonce, H.ExpireWithdrawal;
    hide H.CancelMyWithdrawal, H.ReplaceWithdrawal, H.ClearTestnetState;
    hide H.Transfer, H.TransferFrom, H.Approve, H.IncreaseAllowance, H.DecreaseAllowance, H.OnChain;
    if a.Configure? && H.Configure(s, a.setting).Ok? {
      ConfigureKeeps(s, a.setting);
    }
    hide H.Configure;
  }

  lemma HeadersKeep(keccak: Hasher, s: State, a: Action)
    requires MovesHeaders(a)
    ensures SameBooks(s, Next(keccak, s, a))
  {
    hide H.MapETH, H.MapERC20, H.UnmapETH, H.UnmapERC20, H.UnmapFrom, H.ConfirmSpend, H.ClearNonce, H.ExpireWithdrawal;
    hide H.CancelMyWithdrawal, H.ReplaceWithdrawal, H.ClearTestnetState;
    hide HeaderStores.SeedBlock, HeaderStores.AddBlocks, HeaderStores.ReplaceBlock;
  }

  lemma BooklessKeeps(keccak: Hasher, s: State, a: Action)
    requires Bookless(a)
    ensures SameBooks(s, Next(keccak, s, a))
  {
    hide Next, SameBooks;
    if SetsAllowance(a) {
      AllowanceKeeps(keccak, s, a);
    } else if MovesHeaders(a) {
      HeadersKeep(keccak, s, a);
    } else {
      AdminKeeps(keccak, s, a);
    }
  }

  lemma TransferKeepsQueue(keccak: Hasher, s: State, a: Action)
    requires a.Transfer? || a.TransferFrom?
    ensures SameQueue(s, Next(keccak, s, a))
  {
    hide Credited, Allowed;
  }

  lemma OtherKeepsQueue(keccak: Hasher, s: State, a: Action)
    requires !IsUnmap(a) && !Settles(a) && !a.ReplaceWithdrawal? && !a.ClearTestnetState?
    ensures SameQueue(s, Next(keccak, s, a))
  {
    hide Next;
    if a.MapETH? || a.MapERC20? {
      DepositKeepsQueue(keccak, s, a);
    } else if a.Transfer? || a.TransferFrom? {
      TransferKeepsQueue(keccak, s, a);
    } else {
      BooklessKeeps(keccak, s, a);
    }
  }

  /** Replacing a withdrawal rewrites the head's unsigned transaction and nothing else. */
  ghost predicate Reprices(s: State, after: State) {
    && s.confirmed in s.spends && s.confirmed in after.spends
    && after == s.(spends := s.spends[s.confirmed := after.spends[s.confirmed]])
    && SameIntent(s.spends[s.confirmed], after.spends[s.confirmed])
  }

  /** Equal in everything but the unsigned transaction. */
  predicate SameIntent(a: PendingSpend, b: PendingSpend) {
    b == a.(unsignedTx := b.unsignedTx)
  }

  lemma ReplaceReprices(s: State)
    requires QueueInv(s) && H.ReplaceWithdrawal(s).Ok?
    ensures Reprices(s, H.ReplaceWithdrawal(s).value)
  {
    hide HeaderStores.GetHeader, Gas.SafeGasFee, Transactions.BuildETHWithdrawalTx, Transactions.BuildERC20WithdrawalTx;
    hide H.Encodable;
  }

  lemma StepKeepsQueue(keccak: Hasher, s: State, a: Action)
    requires QueueInv(s) && s.confirmed < TWO_64 - 1
    ensures QueueInv(Next(keccak, s, a))
    ensures Next(keccak, s, a).confirmed <= s.confirmed + 1
  {
    hide Apply, QueueInv, QueuesOne, SettlesHead, Reprices;
    if !IsUnmap(a) && !Settles(a) && !a.ReplaceWithdrawal? && !a.ClearTestnetState? {
      OtherKeepsQueue(keccak, s, a);
      SameKeepsInv(s, Next(keccak, s, a));
    } else if Apply(keccak, s, a).Ok? {
      var after := Apply(keccak, s, a).value;
      if IsUnmap(a) {
        UnmapQueues(keccak, s, a);
        QueuedKeepsInv(s, after);
      } else if Settles(a) {
        SettlementAdvances(keccak, s, a);
        SettledKeepsInv(s, after);
      } else if a.ReplaceWithdrawal? {
        IsReplace(keccak, s, a);
        ReplaceReprices(s);
        RepricedKeepsInv(s, after);
      } else {
        IsClear(keccak, s, a);
        ClearedKeepsInv(s, after);
      }
    }
  }

  lemma SameKeepsInv(s: State, after: State)
    requires QueueInv(s) && SameQueue(s, after)
    ensures QueueInv(after)
  {
  }

  lemma QueuedKeepsInv(s: State, after: State)
    requires QueueInv(s) && QueuesOne(s, after) && s.confirmed < TWO_64 - 1
    ensures QueueInv(after) && after.confirmed == s.confirmed
  {
  }

  lemma SettledKeepsInv(s: State, after: State)
    requires QueueInv(s) && SettlesHead(s, after) && s.confirmed < TWO_64 - 1
    ensures QueueInv(after) && after.confirmed == s.confirmed + 1
  {
  }

  lemma RepricedKeepsInv(s: State, after: State)
    requires QueueInv(s) && Reprices(s, after)
    ensures QueueInv(after) && after.confirmed == s.confirmed
  {
  }

  lemma ClearedKeepsInv(s: State, after: State)
    requires QueueInv(s) && H.ClearTestnetState(s) == Ok(after)
    ensures QueueInv(after) && after.confirmed == 0
  {
    ClearEmpties(s);
  }

  lemma ClearEmpties(s: State)
    requires QueueInv(s) && H.ClearTestnetState(s).Ok?
    ensures H.ClearTestnetState(s).value.spends == map[]
  {
    assert H.ClearedSpends(s) == map[];
  }

  /** The queue invariant holds throughout every run of fewer than 2^64 calls. */
  lemma {:induction false} QueueInvariant(keccak: Hasher, testnet: bool, chainId: uint64, self: string, actions: seq<Action>)
    requires |actions| < TWO_64
    ensures var s := RunFrom(keccak, Deployed(testnet, chainId, self), actions);
      QueueInv(s) && s.confirmed <= |actions|
  {
    hide Next;
    if actions != [] {
      var front := actions[..|actions| - 1];
      QueueInvariant(keccak, testnet, chainId, self, front);
      StepKeepsQueue(keccak, RunFrom(keccak, Deployed(testnet, chainId, self), front), actions[|actions| - 1]);
    }
  }
}
