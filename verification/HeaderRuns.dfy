/** The header window inside the whole contract: deposits, withdrawals and the rest never disturb it. */
module HeaderRuns {
  import opened ByteStrings
  import opened Blocklist
  import opened Ledger
  import opened Actions
  import opened ConfirmationTheorems
  import opened WithdrawalQueue
  import DepositTheorems
  import H = Handlers
  import HeaderStores
  import T = HeaderTheorems

  function HeaderCall(a: Action): T.Action
    requires MovesHeaders(a)
  {
    match a
    case SeedBlock(e) => T.Seed(e)
    case AddBlocks(es) => T.Add(es)
    case ReplaceBlock(e) => T.Replace(e)
  }

  /** The header calls of a run that pausing does not stop. */
  function HeaderCalls(keccak: Hasher, init: State, actions: seq<Action>): seq<T.Action> {
    if actions == [] then []
    else
      var front, a := actions[..|actions| - 1], actions[|actions| - 1];
      var calls := HeaderCalls(keccak, init, front);
      if MovesHeaders(a) && (a.AddBlocks? || !RunFrom(keccak, init, front).paused) then calls + [HeaderCall(a)] else calls
  }

  predicate SameWindow(c: Chain, d: Chain) {
    c.headers == d.headers && c.lastHeight == d.lastHeight
  }

  /** Header calls do not look at the observed deposits. */
  lemma ApplySame(keccak: Hasher, c: Chain, d: Chain, a: T.Action, chainId: uint64)
    requires SameWindow(c, d)
    ensures T.Apply(keccak, c, a, chainId).Ok? <==> T.Apply(keccak, d, a, chainId).Ok?
    ensures T.Apply(keccak, c, a, chainId).Ok? ==>
      SameWindow(T.Apply(keccak, c, a, chainId).value, T.Apply(keccak, d, a, chainId).value)
  {
    hide HeaderStores.AddFrom, HeaderStores.GetHeader, Serialize;
  }

  lemma HeaderStep(keccak: Hasher, s: State, a: Action, w: T.World)
    requires MovesHeaders(a) && SameWindow(s.chain, w.chain)
    ensures SameWindow(Next(keccak, s, a).chain,
                       if a.AddBlocks? || !s.paused then T.Step(keccak, w, HeaderCall(a), s.chainId).chain else w.chain)
  {
    hide HeaderStores.SeedBlock, HeaderStores.AddBlocks, HeaderStores.ReplaceBlock, T.Parents, T.Heights;
    ApplySame(keccak, s.chain, w.chain, HeaderCall(a), s.chainId);
  }

  // ----- Every other call keeps the window -----

  lemma DepositKeepsWindow(keccak: Hasher, s: State, a: Action, after: State)
    requires (a.MapETH? || a.MapERC20?) && Apply(keccak, s, a) == Ok(after)
    ensures SameWindow(s.chain, after.chain)
  {
    hide H.AcceptDeposit, H.ReadInstructions, H.GetTokenInfo, Apply;
    var m := H.DepositMark(a.hash, a.index);
    if a.MapETH? {
      MapETHShape(keccak, s, a);
      H.AcceptChanges(s, a.height, m, "eth", a.deposit.amount, H.Tax(a.deposit.amount),
                      H.ReadInstructions(a.deposit.depositor, a.instructions), a.call);
    } else {
      MapERC20Shape(keccak, s, a);
      H.AcceptChanges(s, a.height, m, H.GetTokenInfo(s, a.token.value).value.symbol, a.deposit.amount, 0,
                      H.ReadInstructions(a.deposit.depositor, a.instructions), a.call);
    }
  }

  lemma ClearKeepsWindow(s: State)
    requires H.ClearTestnetState(s).Ok?
    ensures SameWindow(s.chain, H.ClearTestnetState(s).value.chain)
  {
    hide H.ClearedSpends, H.ClearedObserved;
  }

  lemma TransferKeepsWindow(keccak: Hasher, s: State, a: Action)
    requires a.Transfer? || a.TransferFrom? || SetsAllowance(a) || a.Pause? || a.Unpause?
    ensures Next(keccak, s, a).chain == s.chain
  {
    hide Credited, Allowed, AllowanceOf, BalanceOf;
  }

  lemma OtherKeepsWindow(keccak: Hasher, s: State, a: Action)
    requires !MovesHeaders(a)
    ensures SameWindow(s.chain, Next(keccak, s, a).chain)
  {
    hide Apply, H.ReplaceWithdrawal, H.ClearTestnetState, H.Configure;
    if IsUnmap(a) {
      DepositTheorems.UnmapKeepsMarks(keccak, s, a);
    } else if a.Transfer? || a.TransferFrom? || SetsAllowance(a) || a.Pause? || a.Unpause? {
      TransferKeepsWindow(keccak, s, a);
    } else if Apply(keccak, s, a).Ok? {
      var after := Apply(keccak, s, a).value;
      if a.MapETH? || a.MapERC20? {
        DepositKeepsWindow(keccak, s, a, after);
      } else if Settles(a) {
        SettlementChanges(keccak, s, a, after);
      } else if a.ReplaceWithdrawal? {
        IsReplace(keccak, s, a);
        DepositTheorems.ReplaceKeepsMarks(s);
      } else if a.ClearTestnetState? {
        IsClear(keccak, s, a);
        ClearKeepsWindow(s);
      } else {
        IsConfigure(keccak, s, a);
        DepositTheorems.ConfigureKeepsMarks(s, a.setting);
      }
    }
  }

  // ----- Every run -----

  lemma {:induction false} RunAppend(keccak: Hasher, w: T.World, calls: seq<T.Action>, x: T.Action, chainId: uint64)
    ensures T.Run(keccak, w, calls + [x], chainId) == T.Step(keccak, T.Run(keccak, w, calls, chainId), x, chainId)
    decreases calls
  {
    hide T.Step;
    if calls == [] {
      var one := [x];
      assert [] + [x] == one && one[1..] == [];
      assert T.Run(keccak, T.Step(keccak, w, x, chainId), one[1..], chainId) == T.Step(keccak, w, x, chainId);
    } else {
      assert (calls + [x])[1..] == calls[1..] + [x];
      RunAppend(keccak, T.Step(keccak, w, calls[0], chainId), calls[1..], x, chainId);
    }
  }

  /** The contract's headers are those its header calls alone would have left. */
  lemma {:induction false} WindowIsOfHeaderCalls(keccak: Hasher, testnet: bool, chainId: uint64, self: string, actions: seq<Action>)
    requires |actions| < TWO_64
    ensures var init := Deployed(testnet, chainId, self);
      SameWindow(RunFrom(keccak, init, actions).chain, T.Run(keccak, T.Init, HeaderCalls(keccak, init, actions), chainId).chain)
  {
    var init := Deployed(testnet, chainId, self);
    if actions != [] {
      hide Next, T.Step, Misnamed, HeadBuilt, T.Run;
      var front, a := actions[..|actions| - 1], actions[|actions| - 1];
      WindowIsOfHeaderCalls(keccak, testnet, chainId, self, front);
      RunBuilt(keccak, testnet, chainId, self, front);
      var s, calls := RunFrom(keccak, init, front), HeaderCalls(keccak, init, front);
      var w := T.Run(keccak, T.Init, calls, chainId);
      if MovesHeaders(a) {
        HeaderStep(keccak, s, a, w);
        if a.AddBlocks? || !s.paused {
          RunAppend(keccak, T.Init, calls, HeaderCall(a), chainId);
        }
      } else {
        OtherKeepsWindow(keccak, s, a);
      }
    } else {
      assert HeaderCalls(keccak, init, actions) == [];
    }
  }

  /**
   Over every run of the whole contract whose heights stay below 2^64: the stored heights are exactly
   max(seed, last - 100) to last, each loads as a header of its height and of the contract's chain id,
   linked to its predecessor unless that one was replaced, and the tip is present once seeded.
   */
  lemma ContractWindow(keccak: Hasher, testnet: bool, chainId: uint64, self: string, actions: seq<Action>)
    requires |actions| < TWO_64
    requires T.Room(T.Init, HeaderCalls(keccak, Deployed(testnet, chainId, self), actions))
    ensures var init := Deployed(testnet, chainId, self);
      var s := RunFrom(keccak, init, actions);
      var w := T.Run(keccak, T.Init, HeaderCalls(keccak, init, actions), chainId);
      && (s.chain.lastHeight == 0 ==> s.chain.headers == map[])
      && (s.chain.lastHeight > 0 ==>
            && T.Kept(keccak, s.chain.headers, w.seed, s.chain.lastHeight, w.parents, w.relinked, chainId)
            && H.Tip(s).Some?)
  {
    hide RunFrom, HeaderCalls, T.Run, T.Kept, T.Room, HeaderStores.GetHeader, Deployed;
    var init := Deployed(testnet, chainId, self);
    WindowIsOfHeaderCalls(keccak, testnet, chainId, self, actions);
    T.HeaderWindow(keccak, HeaderCalls(keccak, init, actions), chainId);
  }
}
