/** What each call does to an asset's figures. */
module Effects {
  import opened ByteStrings
  import opened Ledger
  import opened Actions
  import opened History
  import opened Observed
  import opened Totals
  import opened WithdrawalQueue
  import HeaderStores
  import H = Handlers
  import Gas
  import Transactions

  ghost predicate SameFigures(s: State, after: State) {
    && (NonNegative(s.balances) ==> NonNegative(after.balances))
    && forall asset :: FiguresOf(after, asset) == FiguresOf(s, asset)
  }

  // ----- Transfers -----

  lemma TransferKeeps(s: State, caller: string, from: string, to: string, asset: string, amount: Option<int>)
    requires H.TransferFrom(s, caller, from, to, asset, amount).Ok?
    ensures SameFigures(s, H.TransferFrom(s, caller, from, to, asset, amount).value)
  {
    MoveKeeps(s.balances, from, to, asset, amount.value);
    hide Total, Credited;
  }

  /** Moving an affordable amount keeps every total and no balance falls below zero. */
  lemma MoveKeeps(b: map<Account, int>, from: string, to: string, asset: string, amount: int)
    requires CanDebit(b, from, asset, amount)
    ensures var after := Credited(Credited(b, from, asset, -amount), to, asset, amount);
      && (NonNegative(b) ==> NonNegative(after))
      && forall x :: Total(after, x) == Total(b, x)
  {
    hide Total;
    var paid := Credited(b, from, asset, -amount);
    forall x
      ensures Total(Credited(paid, to, asset, amount), x) == Total(b, x)
    {
      TotalCredited(b, from, asset, -amount, x);
      TotalCredited(paid, to, asset, amount, x);
    }
  }

  lemma {:induction false} MovesKeep(s: State, moves: seq<H.Move>)
    ensures SameFigures(s, H.ApplyMoves(s, moves))
  {
    if moves != [] {
      var before, m := H.ApplyMoves(s, moves[..|moves| - 1]), moves[|moves| - 1];
      MovesKeep(s, moves[..|moves| - 1]);
      if H.TransferFrom(before, m.caller, m.from, m.to, m.asset, m.amount).Ok? {
        TransferKeeps(before, m.caller, m.from, m.to, m.asset, m.amount);
      }
    }
    hide Total, FiguresOf, Credited;
  }

  // ----- Deposits -----

  /** The swap went out: the router was called and returned. */
  predicate SwappedOut(s: State, r: H.Routing, call: H.RouterCall) {
    H.Swaps(s, r) && call.CallReturns?
  }

  lemma CreditFigures(s: State, owner: string, a: string, amount: int, asset: string)
    ensures var p := FiguresOf(s, asset);
      FiguresOf(s.(balances := Credited(s.balances, owner, a, amount)), asset) == p.(held := p.held + Part(a, asset, amount))
  {
    hide Total, Credited;
    TotalCredited(s.balances, owner, a, amount, asset);
  }

  lemma AllowanceFigures(s: State, allowances: map<Grant, int>, asset: string)
    ensures FiguresOf(s.(allowances := allowances), asset) == FiguresOf(s, asset)
  {
    hide Total;
  }

  /** Only balances and allowances moved, and the asset's balances grew by the amount. */
  ghost predicate Grew(s: State, after: State, asset: string, amount: int) {
    && NonNegative(after.balances)
    && after == s.(balances := after.balances, allowances := after.allowances)
    && FiguresOf(after, asset) == FiguresOf(s, asset).(held := FiguresOf(s, asset).held + amount)
  }

  /** The self credit and the router's allowance. */
  function Funded(s: State, a: string, amount: int): State {
    s.(balances := Credited(s.balances, s.self, a, amount),
       allowances := Allowed(s.allowances, s.self, H.RouterAddress(s), a, amount))
  }

  function Closed(s: State, called: State, a: string): State {
    called.(allowances := Allowed(called.allowances, s.self, H.RouterAddress(s), a, 0))
  }

  lemma FundedFigures(s: State, a: string, amount: int, asset: string)
    requires NonNegative(s.balances) && amount > 0
    ensures Grew(s, Funded(s, a, amount), asset, Part(a, asset, amount))
    ensures BalanceOf(Funded(s, a, amount).balances, s.self, a) >= amount
  {
    var credited := s.(balances := Credited(s.balances, s.self, a, amount));
    CreditFigures(s, s.self, a, amount, asset);
    hide Total, FiguresOf, Allowed;
    AllowanceFigures(credited, Funded(s, a, amount).allowances, asset);
    assert Funded(s, a, amount) == credited.(allowances := Funded(s, a, amount).allowances);
  }

  lemma ClosedFigures(s: State, called: State, a: string, asset: string, amount: int)
    requires Grew(s, called, asset, amount)
    ensures Grew(s, Closed(s, called, a), asset, amount)
  {
    hide Total, FiguresOf, Allowed;
    AllowanceFigures(called, Closed(s, called, a).allowances, asset);
  }

  lemma SwapFigures(s: State, a: string, amount: int, moves: seq<H.Move>, asset: string)
    requires NonNegative(s.balances) && amount > 0
    ensures Grew(s, Closed(s, H.ApplyMoves(Funded(s, a, amount), moves), a), asset, Part(a, asset, amount))
  {
    var funded := Funded(s, a, amount);
    FundedFigures(s, a, amount, asset);
    MovesKeep(funded, moves);
    H.MovesChange(funded, moves);
    hide Total, FiguresOf, Allowed, Credited, Funded, Closed, H.ApplyMoves;
    ClosedFigures(s, H.ApplyMoves(funded, moves), a, asset, Part(a, asset, amount));
  }

  /** The reversal after a failed call always goes through and leaves the totals as they were. */
  lemma FailedSwapFigures(s: State, a: string, amount: int, asset: string)
    requires NonNegative(s.balances) && amount > 0
    ensures var closed := Closed(s, Funded(s, a, amount), a);
      && CanDebit(closed.balances, s.self, a, amount)
      && Grew(s, closed.(balances := Credited(closed.balances, s.self, a, -amount)), asset, 0)
  {
    FundedFigures(s, a, amount, asset);
    ClosedFigures(s, Funded(s, a, amount), a, asset, Part(a, asset, amount));
    var closed := Closed(s, Funded(s, a, amount), a);
    assert closed.balances == Funded(s, a, amount).balances;
    hide Total, FiguresOf, Funded, Closed, Allowed;
    Reverse(s, closed, a, amount, asset);
  }

  lemma Reverse(s: State, closed: State, a: string, amount: int, asset: string)
    requires Grew(s, closed, asset, Part(a, asset, amount)) && CanDebit(closed.balances, s.self, a, amount)
    ensures Grew(s, closed.(balances := Credited(closed.balances, s.self, a, -amount)), asset, 0)
  {
    CreditFigures(closed, s.self, a, -amount, asset);
    hide Total, FiguresOf;
  }

  /** Routing adds the whole amount to some balance exactly when the swap goes out; a failed call undoes its credit. */
  lemma RoutedFigures(s: State, r: H.Routing, a: string, amount: int, call: H.RouterCall, asset: string)
    requires NonNegative(s.balances) && amount > 0
    ensures var (routed, dest) := H.Routed(s, r, a, amount, call);
      && dest == (if SwappedOut(s, r, call) then "" else r.dest)
      && Grew(s, routed, asset, if SwappedOut(s, r, call) then Part(a, asset, amount) else 0)
  {
    if H.Swaps(s, r) {
      match call
      case CallReturns(moves) => SwapFigures(s, a, amount, moves, asset);
      case CallFails => FailedSwapFigures(s, a, amount, asset);
    }
    hide Total, FiguresOf, Allowed, Credited, CanDebit, H.ApplyMoves;
  }

  lemma BookedFigures(s: State, height: uint64, m: Mark, a: string, amount: nat, tax: nat, dest: string, asset: string)
    requires ValidMark(m) && NonNegative(s.balances) && tax <= amount
    ensures var after := H.Booked(s, height, m, a, amount, tax, dest);
      && NonNegative(after.balances)
      && FiguresOf(after, asset) == var p := FiguresOf(s, asset);
           p.(active := p.active + Part(a, asset, amount), user := p.user + Part(a, asset, amount - tax),
              fee := p.fee + Part(a, asset, tax), held := p.held + if dest == "" then 0 else Part(a, asset, amount - tax))
  {
    hide Total, H.AddMark;
    TotalCredited(s.balances, dest, a, amount - tax, asset);
  }

  // ----- Withdrawals -----

  /** A withdrawal was queued, and its owner was debited at least its amount, in full. */
  ghost predicate Withdrew(s: State, after: State, owner: string, a: string, debit: int) {
    && QueuesOne(s, after) && s.pending in after.spends
    && var ps := after.spends[s.pending];
    && ps.from == owner && ps.asset == a
    && 0 < ps.amount <= debit <= BalanceOf(s.balances, owner, a)
    && after.balances == Credited(s.balances, owner, a, -debit)
  }

  lemma DebitIs(s: State, after: State, owner: string, a: string, debit: int)
    requires after.balances == Credited(s.balances, owner, a, -debit)
    ensures Debit(s, after, owner, a) == debit
  {
  }

  /** A successful ETH unmap debits the amount, with the exact fee on top unless it is to be deducted. */
  lemma UnmapETHDebits(s: State, caller: string, amount: Option<int>, dest: Option<Address>, maxFee: H.MaxFee,
                       deductFee: bool, tssKey: bool) returns (debit: int)
    requires H.UnmapETH(s, caller, amount, dest, maxFee, deductFee, tssKey).Ok?
    ensures amount.Some? && 0 < amount.value <= debit <= BalanceOf(s.balances, caller, "eth")
    ensures var after := H.UnmapETH(s, caller, amount, dest, maxFee, deductFee, tssKey).value;
      && after.balances == Credited(s.balances, caller, "eth", -debit)
      && after.supplies == WithdrawnETH(s.supplies, amount.value, debit)
      && s.pending in after.spends
      && var ps := after.spends[s.pending];
      && ps.from == caller && ps.asset == "eth" && ps.amount == amount.value
  {
    hide HeaderStores.GetHeader, Gas.SafeGasFee, Transactions.BuildETHWithdrawalTx, H.CheckMaxFee, WithdrawnETH;
    hide Credited, BalanceOf;
    var price := Gas.SafeGasFee(Transactions.ETH_TRANSFER_GAS, H.Tip(s).value.baseFeePerGas, 2, H.GAS_TIP_CAP).value;
    debit := if deductFee then amount.value else amount.value + price.fee;
  }

  lemma UnmapETHShape(keccak: Hasher, s: State, a: Action)
    requires a.UnmapETH? && Apply(keccak, s, a).Ok?
    ensures var after := Apply(keccak, s, a).value;
      var debit := Debit(s, after, a.caller, "eth");
      && Withdrew(s, after, a.caller, "eth", debit)
      && after.supplies == WithdrawnETH(s.supplies, after.spends[s.pending].amount, debit)
  {
    hide Apply, H.UnmapETH, Credited, Debit, BalanceOf, WithdrawnETH, QueuesOne;
    UnmapQueues(keccak, s, a);
    IsUnmapETH(keccak, s, a);
    var debit := UnmapETHDebits(s, a.caller, a.amount, a.dest, a.maxFee, a.deductFee, a.tssKey);
    DebitIs(s, Apply(keccak, s, a).value, a.caller, "eth", debit);
  }

  lemma UnmapERC20Shape(keccak: Hasher, s: State, a: Action)
    requires a.UnmapERC20? && Apply(keccak, s, a).Ok?
    ensures var after := Apply(keccak, s, a).value;
      && s.pending in after.spends
      && var ps := after.spends[s.pending];
      && Withdrew(s, after, a.caller, ps.asset, ps.amount)
      && CanWithdraw(s.supplies, ps.asset, ps.amount)
      && after.supplies == Withdrawn(s.supplies, ps.asset, ps.amount)
  {
    UnmapQueues(keccak, s, a);
    hide HeaderStores.GetHeader, Gas.SafeGasFee, Transactions.BuildERC20WithdrawalTx, H.Encodable, Withdrawn, Credited;
  }

  lemma UnmapFromDebits(s: State, caller: string, from: string, asset: string, amount: Option<int>, token: Option<Address>,
                        dest: Option<Address>, maxFee: H.MaxFee, deductFee: bool, tssKey: bool) returns (debit: int)
    requires H.UnmapFrom(s, caller, from, asset, amount, token, dest, maxFee, deductFee, tssKey).Ok?
    ensures amount.Some? && 0 < amount.value <= debit <= BalanceOf(s.balances, from, asset)
    ensures debit > amount.value <==> asset == "eth" && !deductFee
    ensures CanWithdraw(s.supplies, asset, amount.value)
    ensures var after := H.UnmapFrom(s, caller, from, asset, amount, token, dest, maxFee, deductFee, tssKey).value;
      && after.balances == Credited(s.balances, from, asset, -debit)
      && after.supplies == Withdrawn(s.supplies, asset, amount.value)
      && s.pending in after.spends
      && var ps := after.spends[s.pending];
      && ps.from == from && ps.asset == asset && ps.amount == amount.value
  {
    hide HeaderStores.GetHeader, Gas.SafeGasFee, Transactions.BuildETHWithdrawalTx, Transactions.BuildERC20WithdrawalTx;
    hide H.CheckMaxFee, H.CheckToken, H.Encodable, Withdrawn, Credited, BalanceOf, AllowanceOf, Allowed, CanWithdraw;
    var gas := if asset == "eth" then Transactions.ETH_TRANSFER_GAS else Transactions.ERC20_TRANSFER_GAS;
    var price := Gas.SafeGasFee(gas, H.Tip(s).value.baseFeePerGas, 2, H.GAS_TIP_CAP).value;
    debit := H.DebitOf(asset, amount.value, price.fee, deductFee);
    Gas.SafeGasFeeExact(gas, H.Tip(s).value.baseFeePerGas, 2, H.GAS_TIP_CAP);
    PositiveFee(gas, H.Tip(s).value.baseFeePerGas);
  }

  lemma PositiveFee(gas: nat, base: nat)
    requires gas > 0
    ensures gas * (base * 2 + H.GAS_TIP_CAP) > 0
  {
  }

  lemma UnmapFromShape(keccak: Hasher, s: State, a: Action)
    requires a.UnmapFrom? && Apply(keccak, s, a).Ok?
    ensures a.amount.Some?
    ensures var after := Apply(keccak, s, a).value;
      var debit := Debit(s, after, a.from, a.asset);
      && Withdrew(s, after, a.from, a.asset, debit)
      && after.spends[s.pending].amount == a.amount.value
      && (debit > a.amount.value <==> a.asset == "eth" && !a.deductFee)
      && CanWithdraw(s.supplies, a.asset, a.amount.value)
      && after.supplies == Withdrawn(s.supplies, a.asset, a.amount.value)
  {
    hide Apply, H.UnmapFrom, Credited, Debit, BalanceOf, Withdrawn, CanWithdraw, QueuesOne;
    UnmapQueues(keccak, s, a);
    IsUnmapFrom(keccak, s, a);
    var debit := UnmapFromDebits(s, a.caller, a.from, a.asset, a.amount, a.token, a.dest, a.maxFee, a.deductFee, a.tssKey);
    DebitIs(s, Apply(keccak, s, a).value, a.from, a.asset, debit);
  }

  lemma WithdrewFigures(s: State, after: State, owner: string, a: string, debit: int, asset: string)
    requires QueueInv(s) && NonNegative(s.balances) && Withdrew(s, after, owner, a, debit)
    ensures NonNegative(after.balances)
    ensures Total(after.balances, asset) == Total(s.balances, asset) - Part(a, asset, debit)
    ensures Owed(s, asset) == 0 && Owed(after, asset) == Part(a, asset, after.spends[s.pending].amount)
    ensures a == asset ==> debit <= Total(s.balances, asset)
  {
    TotalCredited(s.balances, owner, a, -debit, asset);
    TotalCovers(s.balances, owner, asset);
    hide Total;
  }

  // ----- Settlement -----

  /** The head's amount went back to its owner and into supply, and the head is gone. */
  ghost predicate GaveBack(s: State, after: State) {
    && SettlesHead(s, after)
    && var ps := s.spends[s.confirmed];
    && after.balances == Credited(s.balances, ps.from, ps.asset, ps.amount)
    && after.supplies == Restored(s.supplies, ps.asset, ps.amount)
  }

  ghost predicate PaidOut(s: State, after: State) {
    SettlesHead(s, after) && after.balances == s.balances && after.supplies == s.supplies
  }

  predicate Pays(a: Action) {
    a.ConfirmSpend? && a.spend.Proven? && a.spend.status == 1
  }

  lemma SettlementShape(keccak: Hasher, s: State, a: Action)
    requires QueueInv(s) && Settles(a) && Apply(keccak, s, a).Ok?
    ensures if Pays(a) then PaidOut(s, Apply(keccak, s, a).value) else GaveBack(s, Apply(keccak, s, a).value)
    ensures a.ExpireWithdrawal? || a.CancelMyWithdrawal? ==> a.nonce == s.confirmed
  {
    SettlementAdvances(keccak, s, a);
    if a.ConfirmSpend? {
      ConfirmShape(s, a.intent, a.height, a.spend);
      hide H.ConfirmSpend, Credited, Restored, SettlesHead;
    } else {
      DropShape(keccak, s, a);
      hide Apply, Credited, Restored, SettlesHead;
    }
  }

  lemma SettledOwesNothing(s: State, after: State, asset: string)
    requires QueueInv(s) && SettlesHead(s, after)
    ensures Owed(after, asset) == 0
  {
  }

  lemma CreditNonNegative(b: map<Account, int>, owner: string, a: string, amount: int)
    requires NonNegative(b) && amount >= 0
    ensures NonNegative(Credited(b, owner, a, amount))
  {
  }

  lemma GaveBackFigures(s: State, after: State, asset: string)
    requires QueueInv(s) && NonNegative(s.balances) && GaveBack(s, after)
    ensures NonNegative(after.balances)
    ensures var p := FiguresOf(s, asset);
      FiguresOf(after, asset) == p.(active := p.active + p.owed, user := p.user + p.owed, held := p.held + p.owed, owed := 0)
  {
    var ps := s.spends[s.confirmed];
    TotalCredited(s.balances, ps.from, ps.asset, ps.amount, asset);
    SettledOwesNothing(s, after, asset);
    assert Sound(ps, s.confirmed) && Owed(s, asset) == OwedOf(ps, asset);
    CreditNonNegative(s.balances, ps.from, ps.asset, ps.amount);
    hide Total, QueueInv, SettlesHead, Owed, NonNegative, Credited;
  }

  // ----- Everything else -----

  lemma ReplaceFigures(s: State, after: State)
    requires QueueInv(s) && Reprices(s, after)
    ensures SameFigures(s, after)
  {
    hide Total;
  }

  lemma SameBooksFigures(s: State, after: State)
    requires SameBooks(s, after)
    ensures SameFigures(s, after)
  {
    hide Total;
  }

  lemma OtherFigures(keccak: Hasher, s: State, a: Action)
    requires Bookless(a) || a.Transfer? || a.TransferFrom?
    ensures SameFigures(s, Next(keccak, s, a))
  {
    hide SameFigures, Credited, Allowed;
    if Bookless(a) {
      BooklessKeeps(keccak, s, a);
      SameBooksFigures(s, Next(keccak, s, a));
    } else if a.Transfer? {
      SendKeeps(s, a.caller, a.to, a.asset, a.amount);
    } else if H.TransferFrom(s, a.caller, a.from, a.to, a.asset, a.amount).Ok? {
      TransferKeeps(s, a.caller, a.from, a.to, a.asset, a.amount);
    } else {
      SameBooksFigures(s, s);
    }
  }

  lemma SendKeeps(s: State, caller: string, to: string, asset: string, amount: Option<int>)
    ensures match H.Transfer(s, caller, to, asset, amount)
      case Ok(after) => SameFigures(s, after)
      case Err(_) => SameFigures(s, s)
  {
    if H.Transfer(s, caller, to, asset, amount).Ok? {
      MoveKeeps(s.balances, caller, to, asset, amount.value);
    }
    hide Total, Credited;
  }
}
