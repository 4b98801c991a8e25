/** Conservation and solvency over every run. */
module LedgerTheorems {
  import opened ByteStrings
  import opened Ledger
  import opened Observed
  import opened Actions
  import opened History
  import opened Totals
  import opened WithdrawalQueue
  import opened Books
  import opened Effects
  import H = Handlers

  // ----- One call -----

  /** The figures and the flow after a call, for one asset. */
  ghost predicate StaysBalanced(s: State, a: Action, after: State, log: seq<Event>, asset: string) {
    Balanced(Flows(log + Events(s, a, after), asset), FiguresOf(after, asset))
  }

  /** What a deposit does to one asset. */
  lemma DepositArithmetic(f: Flow, p: Figures, q: Figures, part: int, tax: int, swapped: bool, g: Flow)
    requires Balanced(f, p) && 0 <= tax <= part
    requires q == p.(active := p.active + part, user := p.user + part - tax, fee := p.fee + tax,
                     held := p.held + if swapped then part else part - tax)
    requires g == f.(deposited := f.deposited + part, swapTax := f.swapTax + if swapped then tax else 0)
    ensures Balanced(g, q)
  {
  }

  lemma AcceptFigures(s: State, height: uint64, m: Mark, a: string, amount: nat, tax: nat, r: H.Routing,
                      call: H.RouterCall, asset: string)
    requires ValidMark(m) && NonNegative(s.balances) && tax <= amount && amount > 0 && r.dest != ""
    ensures var after := H.AcceptDeposit(s, height, m, a, amount, tax, r, call);
      && NonNegative(after.balances)
      && FiguresOf(after, asset) == var p := FiguresOf(s, asset);
           p.(active := p.active + Part(a, asset, amount), user := p.user + Part(a, asset, amount) - Part(a, asset, tax),
              fee := p.fee + Part(a, asset, tax),
              held := p.held + if SwappedOut(s, r, call) then Part(a, asset, amount)
                               else Part(a, asset, amount) - Part(a, asset, tax))
  {
    RoutedFigures(s, r, a, amount, call, asset);
    var (routed, dest) := H.Routed(s, r, a, amount, call);
    BookedFigures(routed, height, m, a, amount, tax, dest, asset);
    hide H.Routed, H.Booked, FiguresOf, SwappedOut, NonNegative;
  }

  lemma {:induction false} DestNotEmpty(did: H.Did, instructions: seq<string>)
    ensures H.ReadInstructions(did, instructions).dest != ""
  {
    if instructions != [] {
      DestNotEmpty(did, instructions[..|instructions| - 1]);
    }
  }

  // What each kind of call logs, as a change of flow.

  lemma MapETHFlow(s: State, a: Action, after: State, log: seq<Event>, asset: string)
    requires a.MapETH? && a.deposit.Deposit?
    ensures var r := H.ReadInstructions(a.deposit.depositor, a.instructions);
      var f := Flows(log, asset);
      Flows(log + Events(s, a, after), asset)
        == f.(deposited := f.deposited + Part("eth", asset, a.deposit.amount),
              swapTax := f.swapTax + if SwappedOut(s, r, a.call) then Part("eth", asset, H.Tax(a.deposit.amount)) else 0)
  {
    hide Flows, H.ReadInstructions, H.DepositMark, H.Tax;
    FlowsAppend(log, Events(s, a, after), asset);
  }

  lemma MapERC20Flow(s: State, a: Action, after: State, log: seq<Event>, asset: string)
    requires a.MapERC20? && a.deposit.Deposit? && a.token.Some? && H.GetTokenInfo(s, a.token.value).Some?
    ensures var symbol, f := H.GetTokenInfo(s, a.token.value).value.symbol, Flows(log, asset);
      Flows(log + Events(s, a, after), asset) == f.(deposited := f.deposited + Part(symbol, asset, a.deposit.amount))
  {
    hide Flows, H.GetTokenInfo, H.DepositMark;
    FlowsAppend(log, Events(s, a, after), asset);
  }

  lemma UnmapETHFlow(s: State, a: Action, after: State, log: seq<Event>, asset: string)
    requires a.UnmapETH? && s.pending in after.spends
    ensures var f, excess := Flows(log, asset), Clamp(Debit(s, after, a.caller, "eth") - SupplyOf(s.supplies, "eth").user);
      Flows(log + Events(s, a, after), asset) == f.(excess := f.excess + Part("eth", asset, excess))
  {
    hide Flows, Debit, Clamp;
    FlowsAppend(log, Events(s, a, after), asset);
  }

  lemma UnmapERC20Flow(s: State, a: Action, after: State, log: seq<Event>, asset: string)
    requires a.UnmapERC20? && s.pending in after.spends
    ensures Flows(log + Events(s, a, after), asset) == Flows(log, asset)
  {
    hide Flows;
    FlowsAppend(log, Events(s, a, after), asset);
  }

  lemma UnmapFromFlow(s: State, a: Action, after: State, log: seq<Event>, asset: string)
    requires a.UnmapFrom? && a.amount.Some? && s.pending in after.spends
    ensures var f, fee := Flows(log, asset), Debit(s, after, a.from, a.asset) - a.amount.value;
      Flows(log + Events(s, a, after), asset) == f.(untracked := f.untracked + Part(a.asset, asset, fee))
  {
    hide Flows, Debit;
    FlowsAppend(log, Events(s, a, after), asset);
  }

  lemma SettlementFlow(s: State, a: Action, after: State, log: seq<Event>, asset: string)
    requires Settles(a) && s.confirmed in s.spends
    requires a.ExpireWithdrawal? || a.CancelMyWithdrawal? ==> a.nonce == s.confirmed
    ensures var f := Flows(log, asset);
      Flows(log + Events(s, a, after), asset) == if Pays(a) then f.(paid := f.paid + Owed(s, asset)) else f
  {
    hide Flows;
    FlowsAppend(log, Events(s, a, after), asset);
  }

  lemma ClearFlow(s: State, a: Action, after: State, log: seq<Event>, asset: string)
    requires a.ClearTestnetState?
    ensures var f := Flows(log, asset);
      Flows(log + Events(s, a, after), asset) == f.(dropped := f.dropped + Owed(s, asset))
  {
    hide Flows, H.ClearFrom;
    FlowsAppend(log, Events(s, a, after), asset);
  }

  predicate LogsNoFlow(a: Action) {
    Bookless(a) || a.Transfer? || a.TransferFrom? || a.ReplaceWithdrawal?
  }

  lemma OtherFlow(s: State, a: Action, after: State, log: seq<Event>, asset: string)
    requires LogsNoFlow(a)
    ensures Flows(log + Events(s, a, after), asset) == Flows(log, asset)
  {
    hide Flows;
    FlowsAppend(log, Events(s, a, after), asset);
  }

  // The balance of each asset after each kind of call.

  lemma MapETHBalanced(keccak: Hasher, s: State, a: Action, after: State, log: seq<Event>, asset: string)
    requires a.MapETH? && Apply(keccak, s, a) == Ok(after)
    requires NonNegative(s.balances) && Balanced(Flows(log, asset), FiguresOf(s, asset))
    ensures NonNegative(after.balances) && StaysBalanced(s, a, after, log, asset)
  {
    hide Apply, Events, H.AcceptDeposit, H.ReadInstructions, FiguresOf, NonNegative, Flows, Balanced, SwappedOut;
    MapETHShape(keccak, s, a);
    var r := H.ReadInstructions(a.deposit.depositor, a.instructions);
    DestNotEmpty(a.deposit.depositor, a.instructions);
    var amount, tax := a.deposit.amount, H.Tax(a.deposit.amount);
    AcceptFigures(s, a.height, H.DepositMark(a.hash, a.index), "eth", amount, tax, r, a.call, asset);
    MapETHFlow(s, a, after, log, asset);
    DepositArithmetic(Flows(log, asset), FiguresOf(s, asset), FiguresOf(after, asset), Part("eth", asset, amount),
                      Part("eth", asset, tax), SwappedOut(s, r, a.call), Flows(log + Events(s, a, after), asset));
  }

  lemma MapERC20Balanced(keccak: Hasher, s: State, a: Action, after: State, log: seq<Event>, asset: string)
    requires a.MapERC20? && Apply(keccak, s, a) == Ok(after)
    requires NonNegative(s.balances) && Balanced(Flows(log, asset), FiguresOf(s, asset))
    ensures NonNegative(after.balances) && StaysBalanced(s, a, after, log, asset)
  {
    hide Apply, Events, H.AcceptDeposit, H.ReadInstructions, H.GetTokenInfo, FiguresOf, NonNegative, Flows, Balanced;
    hide SwappedOut;
    MapERC20Shape(keccak, s, a);
    var r := H.ReadInstructions(a.deposit.depositor, a.instructions);
    DestNotEmpty(a.deposit.depositor, a.instructions);
    var amount, symbol := a.deposit.amount, H.GetTokenInfo(s, a.token.value).value.symbol;
    AcceptFigures(s, a.height, H.DepositMark(a.hash, a.index), symbol, amount, 0, r, a.call, asset);
    MapERC20Flow(s, a, after, log, asset);
    DepositArithmetic(Flows(log, asset), FiguresOf(s, asset), FiguresOf(after, asset), Part(symbol, asset, amount),
                      0, SwappedOut(s, r, a.call), Flows(log + Events(s, a, after), asset));
  }

  /** A balanced asset always covers the withdrawal: its active total is not clamped. */
  lemma UnmapETHArithmetic(f: Flow, p: Figures, amount: int, debit: int)
    requires Balanced(f, p) && p.owed == 0 && 0 < amount <= debit <= p.held
    ensures Clamp(p.active - amount) == p.active - amount
    ensures Balanced(f.(excess := f.excess + Clamp(debit - p.user)),
                     Figures(Clamp(p.active - amount), Clamp(p.user - debit), p.fee + (debit - amount), p.held - debit, amount))
  {
  }

  lemma UnmapETHBalanced(keccak: Hasher, s: State, a: Action, after: State, log: seq<Event>, asset: string)
    requires a.UnmapETH? && Apply(keccak, s, a) == Ok(after)
    requires QueueInv(s) && NonNegative(s.balances) && Balanced(Flows(log, asset), FiguresOf(s, asset))
    ensures NonNegative(after.balances) && StaysBalanced(s, a, after, log, asset)
  {
    hide Apply, Events, Debit, QueuesOne, QueueInv, NonNegative, Flows, Balanced, Total, Owed, Clamp, Credited, BalanceOf;
    UnmapETHShape(keccak, s, a);
    var debit := Debit(s, after, a.caller, "eth");
    WithdrewFigures(s, after, a.caller, "eth", debit, asset);
    UnmapETHFlow(s, a, after, log, asset);
    if asset == "eth" {
      UnmapETHArithmetic(Flows(log, asset), FiguresOf(s, asset), after.spends[s.pending].amount, debit);
    } else {
      assert FiguresOf(after, asset) == FiguresOf(s, asset);
    }
  }

  lemma UnmapBalanced(s: State, after: State, owner: string, a: string, debit: int, f: Flow, asset: string)
    requires QueueInv(s) && NonNegative(s.balances) && Balanced(f, FiguresOf(s, asset))
    requires Withdrew(s, after, owner, a, debit)
    requires var amount := after.spends[s.pending].amount;
      CanWithdraw(s.supplies, a, amount) && after.supplies == Withdrawn(s.supplies, a, amount)
    ensures NonNegative(after.balances)
    ensures Balanced(f.(untracked := f.untracked + Part(a, asset, debit - after.spends[s.pending].amount)), FiguresOf(after, asset))
  {
    WithdrewFigures(s, after, owner, a, debit, asset);
    hide Total, Owed, QueueInv, QueuesOne, NonNegative, Credited;
  }

  lemma UnmapERC20Balanced(keccak: Hasher, s: State, a: Action, after: State, log: seq<Event>, asset: string)
    requires a.UnmapERC20? && Apply(keccak, s, a) == Ok(after)
    requires QueueInv(s) && NonNegative(s.balances) && Balanced(Flows(log, asset), FiguresOf(s, asset))
    ensures NonNegative(after.balances) && StaysBalanced(s, a, after, log, asset)
  {
    hide Apply, Events, QueueInv, NonNegative, Flows, Balanced, FiguresOf, Withdrew, Withdrawn, CanWithdraw;
    UnmapERC20Shape(keccak, s, a);
    var ps, f := after.spends[s.pending], Flows(log, asset);
    UnmapBalanced(s, after, a.caller, ps.asset, ps.amount, f, asset);
    UnmapERC20Flow(s, a, after, log, asset);
    assert f.(untracked := f.untracked + Part(ps.asset, asset, 0)) == f;
  }

  lemma UnmapFromBalanced(keccak: Hasher, s: State, a: Action, after: State, log: seq<Event>, asset: string)
    requires a.UnmapFrom? && Apply(keccak, s, a) == Ok(after)
    requires QueueInv(s) && NonNegative(s.balances) && Balanced(Flows(log, asset), FiguresOf(s, asset))
    ensures NonNegative(after.balances) && StaysBalanced(s, a, after, log, asset)
  {
    hide Apply, Events, QueueInv, NonNegative, Flows, Balanced, FiguresOf, Debit, Withdrawn, CanWithdraw, QueuesOne;
    hide Credited, BalanceOf;
    UnmapFromShape(keccak, s, a);
    UnmapBalanced(s, after, a.from, a.asset, Debit(s, after, a.from, a.asset), Flows(log, asset), asset);
    UnmapFromFlow(s, a, after, log, asset);
  }

  lemma PaidFigures(s: State, after: State, asset: string)
    requires QueueInv(s) && PaidOut(s, after)
    ensures FiguresOf(after, asset) == FiguresOf(s, asset).(owed := 0)
  {
    hide Total;
    SettledOwesNothing(s, after, asset);
  }

  lemma SettlementBalanced(keccak: Hasher, s: State, a: Action, after: State, log: seq<Event>, asset: string)
    requires Settles(a) && Apply(keccak, s, a) == Ok(after)
    requires QueueInv(s) && NonNegative(s.balances) && Balanced(Flows(log, asset), FiguresOf(s, asset))
    ensures NonNegative(after.balances) && StaysBalanced(s, a, after, log, asset)
  {
    hide Apply, Events, NonNegative, Flows, Total, Owed, QueueInv, Credited, Restored, Settles, Pays;
    SettlementShape(keccak, s, a);
    SettlementFlow(s, a, after, log, asset);
    OwedNonNegative(s, asset);
    if Pays(a) {
      PaidFigures(s, after, asset);
    } else {
      GaveBackFigures(s, after, asset);
    }
  }

  lemma OwedNonNegative(s: State, asset: string)
    requires QueueInv(s)
    ensures Owed(s, asset) >= 0
  {
  }

  lemma ClearFigures(keccak: Hasher, s: State, a: Action, after: State, asset: string)
    requires a.ClearTestnetState? && QueueInv(s) && Apply(keccak, s, a) == Ok(after)
    ensures after.balances == s.balances && FiguresOf(after, asset) == FiguresOf(s, asset).(owed := 0)
  {
    hide Total, H.ClearedObserved;
    ClearEmpties(s);
  }

  lemma ClearBalanced(keccak: Hasher, s: State, a: Action, after: State, log: seq<Event>, asset: string)
    requires a.ClearTestnetState? && Apply(keccak, s, a) == Ok(after)
    requires QueueInv(s) && NonNegative(s.balances) && Balanced(Flows(log, asset), FiguresOf(s, asset))
    ensures NonNegative(after.balances) && StaysBalanced(s, a, after, log, asset)
  {
    hide Apply, Events, NonNegative, Flows, Total, QueueInv;
    ClearFigures(keccak, s, a, after, asset);
    ClearFlow(s, a, after, log, asset);
  }

  lemma OtherBalanced(keccak: Hasher, s: State, a: Action, after: State, log: seq<Event>, asset: string)
    requires LogsNoFlow(a) && Apply(keccak, s, a) == Ok(after)
    requires QueueInv(s) && NonNegative(s.balances) && Balanced(Flows(log, asset), FiguresOf(s, asset))
    ensures NonNegative(after.balances) && StaysBalanced(s, a, after, log, asset)
  {
    hide Apply, Events, NonNegative, Flows, FiguresOf, Balanced, QueueInv, Bookless;
    OtherFlow(s, a, after, log, asset);
    if a.ReplaceWithdrawal? {
      RepriceFigures(keccak, s, a, after);
    } else {
      OtherFigures(keccak, s, a);
    }
  }

  lemma RepriceFigures(keccak: Hasher, s: State, a: Action, after: State)
    requires a.ReplaceWithdrawal? && QueueInv(s) && Apply(keccak, s, a) == Ok(after)
    ensures SameFigures(s, after)
  {
    hide H.ReplaceWithdrawal, QueueInv, SameFigures;
    ReplaceReprices(s);
    ReplaceFigures(s, after);
  }

  // ----- Every run -----

  lemma CallBalanced(keccak: Hasher, s: State, a: Action, after: State, log: seq<Event>, asset: string)
    requires Apply(keccak, s, a) == Ok(after)
    requires QueueInv(s) && NonNegative(s.balances) && Balanced(Flows(log, asset), FiguresOf(s, asset))
    ensures NonNegative(after.balances) && StaysBalanced(s, a, after, log, asset)
  {
    hide Apply, NonNegative, Flows, FiguresOf, Balanced, QueueInv, StaysBalanced;
    if a.MapETH? {
      MapETHBalanced(keccak, s, a, after, log, asset);
    } else if a.MapERC20? {
      MapERC20Balanced(keccak, s, a, after, log, asset);
    } else if a.UnmapETH? {
      UnmapETHBalanced(keccak, s, a, after, log, asset);
    } else if a.UnmapERC20? {
      UnmapERC20Balanced(keccak, s, a, after, log, asset);
    } else if a.UnmapFrom? {
      UnmapFromBalanced(keccak, s, a, after, log, asset);
    } else if Settles(a) {
      SettlementBalanced(keccak, s, a, after, log, asset);
    } else if a.ClearTestnetState? {
      ClearBalanced(keccak, s, a, after, log, asset);
    } else {
      OtherBalanced(keccak, s, a, after, log, asset);
    }
  }

  lemma StepBalanced(keccak: Hasher, w: World, a: Action)
    requires QueueInv(w.state) && LedgerInv(w)
    ensures LedgerInv(Step(keccak, w, a))
  {
    hide Apply, Events, NonNegative, Flows, FiguresOf, Balanced, QueueInv;
    if Apply(keccak, w.state, a).Ok? {
      var after := Apply(keccak, w.state, a).value;
      CallBalanced(keccak, w.state, a, after, w.log, "");
      forall asset
        ensures Balanced(Flows(w.log + Events(w.state, a, after), asset), FiguresOf(after, asset))
      {
        CallBalanced(keccak, w.state, a, after, w.log, asset);
      }
    }
  }

  /**
   Over every run of fewer than 2^64 calls, swaps and refunds included, and for each asset: what was
   deposited is active, queued, paid out or dropped by a testnet clear; no balance is negative; and the
   active total covers all balances. The user total is the balances' sum up to the three logged drifts.
   */
  lemma {:induction false} Solvent(keccak: Hasher, testnet: bool, chainId: uint64, self: string, actions: seq<Action>)
    requires |actions| < TWO_64
    ensures var w := Run(keccak, Deployed(testnet, chainId, self), actions);
      QueueInv(w.state) && LedgerInv(w)
  {
    var init := Deployed(testnet, chainId, self);
    RunIsRunFrom(keccak, init, actions);
    QueueInvariant(keccak, testnet, chainId, self, actions);
    if actions != [] {
      var front := actions[..|actions| - 1];
      Solvent(keccak, testnet, chainId, self, front);
      hide Step, LedgerInv, QueueInv, RunFrom;
      StepBalanced(keccak, Run(keccak, init, front), actions[|actions| - 1]);
    }
  }

  /** So the clamp of the active total in unmapETH is never taken: it falls by exactly the amount. */
  lemma ActiveNeverClamped(keccak: Hasher, w: World, a: Action)
    requires QueueInv(w.state) && LedgerInv(w)
    requires a.UnmapETH? && Apply(keccak, w.state, a).Ok?
    ensures var s, after := w.state, Apply(keccak, w.state, a).value;
      && s.pending in after.spends
      && SupplyOf(after.supplies, "eth").active == SupplyOf(s.supplies, "eth").active - after.spends[s.pending].amount >= 0
  {
    var s, after := w.state, Apply(keccak, w.state, a).value;
    hide Apply, Debit, QueuesOne, NonNegative, Total, Credited, BalanceOf;
    UnmapETHShape(keccak, s, a);
    assert Balanced(Flows(w.log, "eth"), FiguresOf(s, "eth"));
    WithdrewFigures(s, after, a.caller, "eth", Debit(s, after, a.caller, "eth"), "eth");
  }
}
