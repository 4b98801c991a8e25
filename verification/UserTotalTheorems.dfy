/** When the user total is the sum of balances: which calls part the two, and which runs keep them together. */
module UserTotalTheorems {
  import opened ByteStrings
  import opened Ledger
  import opened Actions
  import opened History
  import opened Totals
  import opened WithdrawalQueue
  import opened Books
  import opened Effects
  import opened LedgerTheorems
  import H = Handlers

  /** An ETH deposit large enough to be taxed whose swap goes out: the router is handed the tax as well. */
  predicate SwapsTax(s: State, a: Action) {
    && a.MapETH? && a.deposit.Deposit? && H.Tax(a.deposit.amount) > 0
    && SwappedOut(s, H.ReadInstructions(a.deposit.depositor, a.instructions), a.call)
  }

  /** An ETH unmapFrom with the fee on top: a fee no total records. */
  predicate ChargesOnTop(s: State, a: Action) {
    a.UnmapFrom? && a.asset == "eth" && !a.deductFee
  }

  predicate Breaks(s: State, a: Action) {
    SwapsTax(s, a) || ChargesOnTop(s, a)
  }

  ghost predicate UserIsHeld(s: State, asset: string) {
    SupplyOf(s.supplies, asset).user == Total(s.balances, asset)
  }

  // ----- One call -----

  /** What a call adds to the drifts; the excess stays 0 as long as the user total covers the balances. */
  lemma CallDrift(keccak: Hasher, s: State, a: Action, after: State, log: seq<Event>, asset: string)
    requires Apply(keccak, s, a) == Ok(after)
    requires QueueInv(s) && NonNegative(s.balances) && Balanced(Flows(log, asset), FiguresOf(s, asset))
    ensures var f, g := Flows(log, asset), Flows(log + Events(s, a, after), asset);
      && g.swapTax >= f.swapTax && (g.swapTax > f.swapTax <==> asset == "eth" && SwapsTax(s, a))
      && g.untracked >= f.untracked && (g.untracked > f.untracked <==> asset == "eth" && ChargesOnTop(s, a))
      && (SupplyOf(s.supplies, asset).user >= Total(s.balances, asset) || asset != "eth" ==> g.excess == f.excess)
  {
    hide Apply, Events, Flows, H.ReadInstructions, FiguresOf, QueueInv, NonNegative, Balanced, Total, SupplyOf;
    if a.MapETH? {
      MapETHShape(keccak, s, a);
      MapETHFlow(s, a, after, log, asset);
      hide H.Tax, SwappedOut;
    } else if a.MapERC20? {
      MapERC20Shape(keccak, s, a);
      MapERC20Flow(s, a, after, log, asset);
    } else if a.UnmapETH? {
      UnmapETHDrift(keccak, s, a, after, log, asset);
    } else if a.UnmapERC20? {
      hide Withdrew, Withdrawn, CanWithdraw;
      UnmapERC20Shape(keccak, s, a);
      UnmapERC20Flow(s, a, after, log, asset);
    } else if a.UnmapFrom? {
      UnmapFromDrift(keccak, s, a, after, log, asset);
    } else if Settles(a) {
      hide PaidOut, GaveBack;
      SettlementShape(keccak, s, a);
      SettlementAdvances(keccak, s, a);
      SettlementFlow(s, a, after, log, asset);
    } else if a.ClearTestnetState? {
      ClearFlow(s, a, after, log, asset);
    } else {
      OtherFlow(s, a, after, log, asset);
    }
  }

  lemma UnmapETHDrift(keccak: Hasher, s: State, a: Action, after: State, log: seq<Event>, asset: string)
    requires a.UnmapETH? && Apply(keccak, s, a) == Ok(after)
    requires QueueInv(s) && NonNegative(s.balances)
    ensures var f, g := Flows(log, asset), Flows(log + Events(s, a, after), asset);
      && g.swapTax == f.swapTax && g.untracked == f.untracked
      && (SupplyOf(s.supplies, asset).user >= Total(s.balances, asset) || asset != "eth" ==> g.excess == f.excess)
  {
    hide Apply, Events, Flows, Total, QueueInv, NonNegative, QueuesOne, Debit, Credited, BalanceOf;
    UnmapETHShape(keccak, s, a);
    var debit := Debit(s, after, a.caller, "eth");
    WithdrewFigures(s, after, a.caller, "eth", debit, asset);
    UnmapETHFlow(s, a, after, log, asset);
  }

  lemma UnmapFromDrift(keccak: Hasher, s: State, a: Action, after: State, log: seq<Event>, asset: string)
    requires a.UnmapFrom? && Apply(keccak, s, a) == Ok(after)
    ensures var f, g := Flows(log, asset), Flows(log + Events(s, a, after), asset);
      && g.swapTax == f.swapTax && g.excess == f.excess && g.untracked >= f.untracked
      && (g.untracked > f.untracked <==> asset == "eth" && ChargesOnTop(s, a))
  {
    hide Apply, Events, Flows, QueuesOne, Debit, Credited, BalanceOf, Withdrawn, CanWithdraw;
    UnmapFromShape(keccak, s, a);
    UnmapFromFlow(s, a, after, log, asset);
  }

  /** From a state in which the two agree, an accepted call keeps them equal exactly when it does not break them. */
  lemma CallKeepsUserTotal(keccak: Hasher, s: State, a: Action, after: State, log: seq<Event>, asset: string)
    requires Apply(keccak, s, a) == Ok(after)
    requires QueueInv(s) && NonNegative(s.balances) && Balanced(Flows(log, asset), FiguresOf(s, asset))
    requires UserIsHeld(s, asset)
    ensures UserIsHeld(after, asset) <==> !(asset == "eth" && Breaks(s, a))
  {
    assert !(SwapsTax(s, a) && ChargesOnTop(s, a));
    hide Apply, Events, Flows, QueueInv, NonNegative, SwapsTax, ChargesOnTop, Total;
    CallDrift(keccak, s, a, after, log, asset);
    CallBalanced(keccak, s, a, after, log, asset);
  }

  // ----- Every run -----

  /** The i-th call of a run went through and has the property. */
  ghost predicate AcceptedAt(keccak: Hasher, init: State, actions: seq<Action>, i: nat, P: (State, Action) -> bool)
    requires i < |actions|
  {
    var s := RunFrom(keccak, init, actions[..i]);
    P(s, actions[i]) && Apply(keccak, s, actions[i]).Ok?
  }

  ghost predicate SomeAccepted(keccak: Hasher, init: State, actions: seq<Action>, P: (State, Action) -> bool) {
    exists i :: 0 <= i < |actions| && AcceptedAt(keccak, init, actions, i, P)
  }

  lemma AcceptedExtends(keccak: Hasher, init: State, actions: seq<Action>, P: (State, Action) -> bool)
    requires actions != []
    ensures var n := |actions| - 1;
      SomeAccepted(keccak, init, actions, P) <==>
      SomeAccepted(keccak, init, actions[..n], P) || AcceptedAt(keccak, init, actions, n, P)
  {
    hide Apply, RunFrom;
    var n := |actions| - 1;
    forall i | 0 <= i < n
      ensures AcceptedAt(keccak, init, actions, i, P) <==> AcceptedAt(keccak, init, actions[..n], i, P)
    {
      assert actions[..n][..i] == actions[..i];
    }
    if SomeAccepted(keccak, init, actions, P) {
      var i :| 0 <= i < |actions| && AcceptedAt(keccak, init, actions, i, P);
      if i < n {
        assert AcceptedAt(keccak, init, actions[..n], i, P);
      }
    }
    if SomeAccepted(keccak, init, actions[..n], P) {
      var i :| 0 <= i < n && AcceptedAt(keccak, init, actions[..n], i, P);
      assert AcceptedAt(keccak, init, actions, i, P);
    }
  }

  /** The two agree after every prefix of the run. */
  ghost predicate AlwaysHeld(keccak: Hasher, init: State, actions: seq<Action>, asset: string) {
    forall n :: 0 <= n <= |actions| ==> UserIsHeld(RunFrom(keccak, init, actions[..n]), asset)
  }

  lemma AlwaysExtends(keccak: Hasher, init: State, actions: seq<Action>, asset: string)
    requires actions != []
    ensures AlwaysHeld(keccak, init, actions, asset) <==>
      AlwaysHeld(keccak, init, actions[..|actions| - 1], asset) && UserIsHeld(RunFrom(keccak, init, actions), asset)
  {
    hide RunFrom, UserIsHeld;
    var front := actions[..|actions| - 1];
    assert actions[..|actions|] == actions;
    forall n | 0 <= n <= |front|
      ensures front[..n] == actions[..n]
    {
    }
    if AlwaysHeld(keccak, init, actions, asset) {
      forall n | 0 <= n <= |front|
        ensures UserIsHeld(RunFrom(keccak, init, front[..n]), asset)
      {
        assert UserIsHeld(RunFrom(keccak, init, actions[..n]), asset);
      }
      assert UserIsHeld(RunFrom(keccak, init, actions[..|actions|]), asset);
    }
  }

  /**
   Over every run of fewer than 2^64 calls, swaps included, and for every asset: the user total is the sum
   of balances throughout if and only if no accepted call of the run breaks it. For every asset but eth it
   always is.
   */
  lemma {:induction false} UserTotalExactly(keccak: Hasher, testnet: bool, chainId: uint64, self: string,
                                            actions: seq<Action>, asset: string)
    requires |actions| < TWO_64
    ensures var init := Deployed(testnet, chainId, self);
      AlwaysHeld(keccak, init, actions, asset) <==> !(asset == "eth" && SomeAccepted(keccak, init, actions, Breaks))
  {
    var init := Deployed(testnet, chainId, self);
    if actions == [] {
      NothingHeld(keccak, testnet, chainId, self, actions, asset);
    } else {
      hide RunFrom, Deployed, Apply, AlwaysHeld, SomeAccepted, UserIsHeld, Breaks;
      var n := |actions| - 1;
      var front := actions[..n];
      UserTotalExactly(keccak, testnet, chainId, self, front, asset);
      AcceptedExtends(keccak, init, actions, Breaks);
      AlwaysExtends(keccak, init, actions, asset);
      if AlwaysHeld(keccak, init, front, asset) {
        LastCallExactly(keccak, testnet, chainId, self, actions, asset);
      }
    }
  }

  lemma NothingHeld(keccak: Hasher, testnet: bool, chainId: uint64, self: string, actions: seq<Action>, asset: string)
    requires actions == []
    ensures AlwaysHeld(keccak, Deployed(testnet, chainId, self), actions, asset)
  {
    forall n | 0 <= n <= |actions|
      ensures UserIsHeld(RunFrom(keccak, Deployed(testnet, chainId, self), actions[..n]), asset)
    {
      assert actions[..n] == [];
    }
  }

  lemma LastCallExactly(keccak: Hasher, testnet: bool, chainId: uint64, self: string, actions: seq<Action>, asset: string)
    requires 0 < |actions| < TWO_64
    requires AlwaysHeld(keccak, Deployed(testnet, chainId, self), actions[..|actions| - 1], asset)
    ensures var init, n := Deployed(testnet, chainId, self), |actions| - 1;
      UserIsHeld(RunFrom(keccak, init, actions), asset) <==> !(asset == "eth" && AcceptedAt(keccak, init, actions, n, Breaks))
  {
    hide Apply, Deployed, UserIsHeld, Breaks, Flows, FiguresOf, QueueInv, NonNegative, Balanced, Run;
    var init, n := Deployed(testnet, chainId, self), |actions| - 1;
    var front, a := actions[..n], actions[n];
    assert front[..|front|] == front;
    assert UserIsHeld(RunFrom(keccak, init, front), asset);
    Solvent(keccak, testnet, chainId, self, front);
    RunIsRunFrom(keccak, init, front);
    var s, log := RunFrom(keccak, init, front), Run(keccak, init, front).log;
    if Apply(keccak, s, a).Ok? {
      CallKeepsUserTotal(keccak, s, a, Apply(keccak, s, a).value, log, asset);
    }
  }

  /** The drifts of a run in which no taxed swap of the asset goes out. */
  lemma {:induction false} RunDrift(keccak: Hasher, testnet: bool, chainId: uint64, self: string, actions: seq<Action>, asset: string)
    requires |actions| < TWO_64
    requires asset == "eth" ==> !SomeAccepted(keccak, Deployed(testnet, chainId, self), actions, SwapsTax)
    ensures var init := Deployed(testnet, chainId, self);
      var f := Flows(Run(keccak, init, actions).log, asset);
      && f.swapTax == 0 && f.excess == 0
      && f.untracked >= 0
      && (f.untracked > 0 <==> asset == "eth" && SomeAccepted(keccak, init, actions, ChargesOnTop))
  {
    var init := Deployed(testnet, chainId, self);
    if actions != [] {
      hide Deployed, SomeAccepted, Run, RunFrom, ChargesOnTop, SwapsTax, Apply, Flows;
      AcceptedExtends(keccak, init, actions, SwapsTax);
      AcceptedExtends(keccak, init, actions, ChargesOnTop);
      RunDrift(keccak, testnet, chainId, self, actions[..|actions| - 1], asset);
      LastDrift(keccak, testnet, chainId, self, actions, asset);
    }
  }

  lemma LastDrift(keccak: Hasher, testnet: bool, chainId: uint64, self: string, actions: seq<Action>, asset: string)
    requires 0 < |actions| < TWO_64
    requires var f := Flows(Run(keccak, Deployed(testnet, chainId, self), actions[..|actions| - 1]).log, asset);
      f.swapTax == 0 && f.excess == 0
    ensures var init, n := Deployed(testnet, chainId, self), |actions| - 1;
      var f, g := Flows(Run(keccak, init, actions[..n]).log, asset), Flows(Run(keccak, init, actions).log, asset);
      && g.excess == 0 && g.swapTax >= 0 && (g.swapTax > 0 <==> asset == "eth" && AcceptedAt(keccak, init, actions, n, SwapsTax))
      && g.untracked >= f.untracked
      && (g.untracked > f.untracked <==> asset == "eth" && AcceptedAt(keccak, init, actions, n, ChargesOnTop))
  {
    hide Apply, Events, Flows, Deployed, ChargesOnTop, SwapsTax, QueueInv, NonNegative, Total, RunFrom;
    var init, n := Deployed(testnet, chainId, self), |actions| - 1;
    var front, a := actions[..n], actions[n];
    Solvent(keccak, testnet, chainId, self, front);
    RunIsRunFrom(keccak, init, front);
    var w := Run(keccak, init, front);
    if Apply(keccak, w.state, a).Ok? {
      assert Balanced(Flows(w.log, asset), FiguresOf(w.state, asset));
      CallDrift(keccak, w.state, a, Apply(keccak, w.state, a).value, w.log, asset);
    }
  }

  /** A deposit whose instructions do not ask for a swap, whose router call fails, or that is too small to be taxed, is none. */
  lemma NoTaxedSwap(s: State, a: Action)
    requires a.MapETH? && a.deposit.Deposit?
    ensures var r := H.ReadInstructions(a.deposit.depositor, a.instructions);
      SwapsTax(s, a) <==>
        a.deposit.amount >= 100 && r.swapTo != "" && r.assetOut != "" && s.router != "" && a.call.CallReturns?
  {
    hide H.ReadInstructions;
  }

  /**
   For every asset but eth on every run, and for eth on the runs in which no taxed swap goes out: the active
   total is the user and fee totals together, and the user total covers the balances, exactly unless an ETH
   unmapFrom charged its fee on top.
   */
  lemma UserTotal(keccak: Hasher, testnet: bool, chainId: uint64, self: string, actions: seq<Action>, asset: string)
    requires |actions| < TWO_64
    requires asset == "eth" ==> !SomeAccepted(keccak, Deployed(testnet, chainId, self), actions, SwapsTax)
    ensures var init := Deployed(testnet, chainId, self);
      var s := RunFrom(keccak, init, actions);
      var supply, held := SupplyOf(s.supplies, asset), Total(s.balances, asset);
      && supply.active == supply.user + supply.fee
      && held <= supply.user && supply.fee >= 0
      && (held == supply.user <==> !(asset == "eth" && SomeAccepted(keccak, init, actions, ChargesOnTop)))
  {
    hide Run, RunFrom, Flows, Total, Deployed, QueueInv, NonNegative, SomeAccepted;
    var init := Deployed(testnet, chainId, self);
    RunDrift(keccak, testnet, chainId, self, actions, asset);
    Solvent(keccak, testnet, chainId, self, actions);
    RunIsRunFrom(keccak, init, actions);
    var w := Run(keccak, init, actions);
    assert Balanced(Flows(w.log, asset), FiguresOf(w.state, asset));
  }

  /** Every debit the balances allow can be followed by the withdrawal: no abort, and no clamp of the user total. */
  ghost predicate Withdrawable(s: State, asset: string) {
    forall owner, amount, debit :: amount <= debit && CanDebit(s.balances, owner, asset, debit) ==>
      Covered(s, asset, amount, debit)
  }

  predicate Covered(s: State, asset: string, amount: int, debit: int) {
    && CanWithdraw(s.supplies, asset, amount)
    && Clamp(SupplyOf(s.supplies, asset).user - debit) == SupplyOf(s.supplies, asset).user - debit
  }

  /** There, whoever can be debited can withdraw: neither the user clamp nor the abort of TrackWithdrawal is reachable. */
  lemma WithdrawalNeverAborts(keccak: Hasher, testnet: bool, chainId: uint64, self: string, actions: seq<Action>, asset: string)
    requires |actions| < TWO_64
    requires asset == "eth" ==> !SomeAccepted(keccak, Deployed(testnet, chainId, self), actions, SwapsTax)
    ensures Withdrawable(RunFrom(keccak, Deployed(testnet, chainId, self), actions), asset)
  {
    hide RunFrom, Deployed, SomeAccepted, CanDebit, Covered, UserCovers, NonNegative;
    RunCovers(keccak, testnet, chainId, self, actions, asset);
    var s := RunFrom(keccak, Deployed(testnet, chainId, self), actions);
    forall owner, amount, debit | amount <= debit && CanDebit(s.balances, owner, asset, debit)
      ensures Covered(s, asset, amount, debit)
    {
      CoveredWithdrawal(s, owner, asset, amount, debit);
    }
  }

  /** No balance of the asset exceeds its user total. */
  ghost predicate NoneExceeds(s: State, asset: string) {
    forall owner :: BalanceOf(s.balances, owner, asset) <= SupplyOf(s.supplies, asset).user
  }

  lemma NoneExceedsIsWithdrawable(s: State, asset: string)
    requires NonNegative(s.balances)
    requires Total(s.balances, asset) <= SupplyOf(s.supplies, asset).active && SupplyOf(s.supplies, asset).user >= 0
    ensures Withdrawable(s, asset) <==> NoneExceeds(s, asset)
  {
    hide Total, NonNegative;
    if Withdrawable(s, asset) {
      forall owner
        ensures BalanceOf(s.balances, owner, asset) <= SupplyOf(s.supplies, asset).user
      {
        var balance := BalanceOf(s.balances, owner, asset);
        assert balance > 0 ==> CanDebit(s.balances, owner, asset, balance) && Covered(s, asset, balance, balance);
      }
    }
    if NoneExceeds(s, asset) {
      forall owner, amount, debit | amount <= debit && CanDebit(s.balances, owner, asset, debit)
        ensures Covered(s, asset, amount, debit)
      {
        TotalCovers(s.balances, owner, asset);
      }
    }
  }

  /** After every run, swaps included: abort and clamp are out of reach if and only if no balance exceeds the user total. */
  lemma WithdrawableExactly(keccak: Hasher, testnet: bool, chainId: uint64, self: string, actions: seq<Action>, asset: string)
    requires |actions| < TWO_64
    ensures var s := RunFrom(keccak, Deployed(testnet, chainId, self), actions);
      Withdrawable(s, asset) <==> NoneExceeds(s, asset)
  {
    hide Run, RunFrom, Deployed, Total, QueueInv, Flows, NonNegative, SupplyOf, Withdrawable, NoneExceeds;
    var init := Deployed(testnet, chainId, self);
    Solvent(keccak, testnet, chainId, self, actions);
    RunIsRunFrom(keccak, init, actions);
    var w := Run(keccak, init, actions);
    assert Balanced(Flows(w.log, asset), FiguresOf(w.state, asset));
    NoneExceedsIsWithdrawable(w.state, asset);
  }

  ghost predicate UserCovers(s: State, asset: string) {
    var supply := SupplyOf(s.supplies, asset);
    supply.active == supply.user + supply.fee && Total(s.balances, asset) <= supply.user && supply.fee >= 0
  }

  lemma RunCovers(keccak: Hasher, testnet: bool, chainId: uint64, self: string, actions: seq<Action>, asset: string)
    requires |actions| < TWO_64
    requires asset == "eth" ==> !SomeAccepted(keccak, Deployed(testnet, chainId, self), actions, SwapsTax)
    ensures var s := RunFrom(keccak, Deployed(testnet, chainId, self), actions);
      UserCovers(s, asset) && NonNegative(s.balances)
  {
    hide Run, RunFrom, Deployed, Total, QueueInv, SomeAccepted, Flows, Balanced, SupplyOf, FiguresOf, NonNegative;
    var init := Deployed(testnet, chainId, self);
    UserTotal(keccak, testnet, chainId, self, actions, asset);
    Solvent(keccak, testnet, chainId, self, actions);
    RunIsRunFrom(keccak, init, actions);
  }

  lemma CoveredWithdrawal(s: State, owner: string, asset: string, amount: int, debit: int)
    requires NonNegative(s.balances) && amount <= debit && CanDebit(s.balances, owner, asset, debit)
    requires UserCovers(s, asset)
    ensures Covered(s, asset, amount, debit)
  {
    hide Total;
    TotalCovers(s.balances, owner, asset);
  }

  // ----- A run with a taxed swap -----

  const VAULT: Address := Zeros(19) + [1]

  const DEPOSITOR: H.Did := "did:pkh:eip155:1:0x01"

  /** A deposit of 100 wei that asks the router for a swap. */
  function SwapRun(hash: Hash): seq<Action> {
    [Configure(H.SetVault(VAULT)), Configure(H.RegisterRouter("dex")), Configure(H.RegisterRelayer("relay")),
     MapETH("relay", 7, hash, 0, H.Deposit(DEPOSITOR, 100), ["swap_to=bob", "asset_out=hive"], H.CallReturns([]))]
  }

  lemma SwapRouting()
    ensures H.ReadInstructions(DEPOSITOR, ["swap_to=bob", "asset_out=hive"]) == H.Routing(DEPOSITOR, "bob", "hive", "")
  {
    var a, b := "swap_to=bob", "asset_out=hive";
    assert a[..8] == "swap_to=" && a[8..] == "bob" && a[..10][0] != "asset_out="[0];
    assert b[..10] == "asset_out=" && b[10..] == "hive";
    assert "destination_chain="[1] == 'e' && |a| < 18 && |b| < 18;
    assert b[..11][0] != "deposit_to="[0] && b[..8][0] != "swap_to="[0];
    var start := H.Routing(DEPOSITOR, "", "", "");
    assert H.ReadInstruction(start, a) == H.Routing(DEPOSITOR, "bob", "", "");
    assert H.ReadInstruction(H.Routing(DEPOSITOR, "bob", "", ""), b) == H.Routing(DEPOSITOR, "bob", "hive", "");
    hide H.ReadInstruction;
    var none: seq<string> := [];
    assert [a][..0] == none && [a, b][..1] == [a];
    assert H.ReadInstructions(DEPOSITOR, none) == start;
    assert H.ReadInstructions(DEPOSITOR, [a]) == H.ReadInstruction(start, a);
  }

  /**
   A run that breaks it: the router is handed the whole deposit, but the user total is credited net of tax.
   */
  lemma SwapBreaksUserTotal(keccak: Hasher, hash: Hash)
    ensures var s := RunFrom(keccak, Deployed(false, 1, "contract:bridge"), SwapRun(hash));
      SupplyOf(s.supplies, "eth").user == 99 && Total(s.balances, "eth") == 100
  {
    hide RunFrom, Next, FiguresOf, Total, SupplyOf;
    var s := SwapReady();
    SwapSetup(keccak, hash);
    SwapAccepted(keccak, hash);
    NothingYet(s);
    var actions := SwapRun(hash);
    assert actions[..4] == actions;
    RunPrefix(keccak, Deployed(false, 1, "contract:bridge"), actions, 3);
    var r := H.Routing(DEPOSITOR, "bob", "hive", "");
    AcceptFigures(s, 7, H.DepositMark(hash, 0), "eth", 100, 1, r, H.CallReturns([]), "eth");
    FiguresAre(Next(keccak, s, SwapRun(hash)[3]));
  }

  /** And the contract's own balance of 100 is one that cannot be withdrawn whole. */
  lemma SwapBlocksWithdrawal(keccak: Hasher, hash: Hash)
    ensures var s := RunFrom(keccak, Deployed(false, 1, "contract:bridge"), SwapRun(hash));
      BalanceOf(s.balances, "contract:bridge", "eth") == 100 && !NoneExceeds(s, "eth") && !Withdrawable(s, "eth")
  {
    hide Next, RunFrom, Total, SupplyOf, SwapRun, NoneExceeds;
    SwapSetup(keccak, hash);
    SwapAccepted(keccak, hash);
    SwapBreaksUserTotal(keccak, hash);
    assert |SwapRun(hash)| == 4 && SwapRun(hash)[..4] == SwapRun(hash) by {
      SwapLength(hash);
    }
    RunPrefix(keccak, Deployed(false, 1, "contract:bridge"), SwapRun(hash), 3);
    SwapBalance(hash);
    var s := RunFrom(keccak, Deployed(false, 1, "contract:bridge"), SwapRun(hash));
    assert BalanceOf(s.balances, "contract:bridge", "eth") > SupplyOf(s.supplies, "eth").user;
    WithdrawableExactly(keccak, false, 1, "contract:bridge", SwapRun(hash), "eth");
    Exceeds(s, "contract:bridge", "eth");
  }

  lemma SwapLength(hash: Hash)
    ensures |SwapRun(hash)| == 4
  {
  }

  lemma Exceeds(s: State, owner: string, asset: string)
    requires BalanceOf(s.balances, owner, asset) > SupplyOf(s.supplies, asset).user
    ensures !NoneExceeds(s, asset)
  {
  }

  lemma SwapBalance(hash: Hash)
    ensures var after := H.AcceptDeposit(SwapReady(), 7, H.DepositMark(hash, 0), "eth", 100, 1,
                                         H.Routing(DEPOSITOR, "bob", "hive", ""), H.CallReturns([]));
      BalanceOf(after.balances, "contract:bridge", "eth") == 100
  {
    var none: seq<H.Move> := [];
    assert forall s :: H.ApplyMoves(s, none) == s;
    hide H.AddMark, Deposited, Allowed;
  }

  function SwapReady(): State {
    Deployed(false, 1, "contract:bridge").(vault := VAULT, router := "dex", relayers := {"relay"})
  }

  lemma SwapAccepted(keccak: Hasher, hash: Hash)
    ensures Next(keccak, SwapReady(), SwapRun(hash)[3])
      == H.AcceptDeposit(SwapReady(), 7, H.DepositMark(hash, 0), "eth", 100, 1, H.Routing(DEPOSITOR, "bob", "hive", ""),
                         H.CallReturns([]))
  {
    hide H.AcceptDeposit, H.ReadInstructions;
    SwapRouting();
    assert VAULT[19] != ZERO_ADDRESS[19];
  }

  lemma SwapSetup(keccak: Hasher, hash: Hash)
    ensures RunFrom(keccak, Deployed(false, 1, "contract:bridge"), SwapRun(hash)[..3])
      == SwapReady()
  {
    var init, actions := Deployed(false, 1, "contract:bridge"), SwapRun(hash);
    var s1, s2 := init.(vault := VAULT), init.(vault := VAULT, router := "dex");
    assert Next(keccak, init, actions[0]) == s1;
    assert Next(keccak, s1, actions[1]) == s2;
    assert {} + {"relay"} == {"relay"};
    assert Next(keccak, s2, actions[2]) == s2.(relayers := {"relay"});
    hide Next;
    RunPrefix(keccak, init, actions, 0);
    RunPrefix(keccak, init, actions, 1);
    RunPrefix(keccak, init, actions, 2);
  }

  lemma NothingYet(s: State)
    requires s.balances == map[] && s.supplies == map[] && s.spends == map[]
    ensures FiguresOf(s, "eth") == Figures(0, 0, 0, 0, 0) && NonNegative(s.balances)
  {
  }

  lemma FiguresAre(s: State)
    ensures FiguresOf(s, "eth").user == SupplyOf(s.supplies, "eth").user
    ensures FiguresOf(s, "eth").held == Total(s.balances, "eth")
  {
    hide Total;
  }
}
