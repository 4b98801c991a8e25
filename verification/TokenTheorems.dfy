/** Conservation per token: when the asset a token is booked under records exactly what came and went of that token. */
module TokenTheorems {
  import opened ByteStrings
  import opened Ledger
  import opened Actions
  import opened History
  import opened Totals
  import opened WithdrawalQueue
  import opened Books
  import opened ConfirmationTheorems
  import opened LedgerTheorems
  import opened UserTotalTheorems
  import Gas
  import H = Handlers
  import HeaderStores
  import Transactions

  /** What the log says of one token: its verified deposits, and the withdrawals of it that were paid or dropped. */
  datatype TokenFlow = TokenFlow(deposited: int, paid: int, dropped: int)

  function TokenPart(token: Option<Address>, t: Address, amount: int): int {
    if token == Some(t) then amount else 0
  }

  function BookToken(f: TokenFlow, e: Event, t: Address): TokenFlow {
    match e
    case Credit(_, amount, _, _, token) => f.(deposited := f.deposited + TokenPart(token, t, amount))
    case Pay(ps) => f.(paid := f.paid + TokenPart(ps.token, t, ps.amount))
    case Drop(ps) => f.(dropped := f.dropped + TokenPart(ps.token, t, ps.amount))
    case _ => f
  }

  function TokenFlows(log: seq<Event>, t: Address): TokenFlow {
    if log == [] then TokenFlow(0, 0, 0)
    else BookToken(TokenFlows(log[..|log| - 1], t), log[|log| - 1], t)
  }

  function OwedToken(s: State, t: Address): int {
    if s.confirmed in s.spends then TokenPart(s.spends[s.confirmed].token, t, s.spends[s.confirmed].amount) else 0
  }

  /** What was deposited of the token is active under the symbol, queued for withdrawal in the token, paid out or dropped. */
  predicate Backed(w: World, t: Address, symbol: string) {
    var f := TokenFlows(w.log, t);
    f.deposited == SupplyOf(w.state.supplies, symbol).active + OwedToken(w.state, t) + f.paid + f.dropped
  }

  /** The call moves the asset without the token, or the token without the asset. */
  predicate Crosses(s: State, a: Action, t: Address, symbol: string) {
    match a
    case MapETH(_, _, _, _, _, _, _) => symbol == "eth"
    case UnmapETH(_, _, _, _, _, _) => symbol == "eth"
    case MapERC20(token, _, _, _, _, _, _) => (token == Some(t)) != IsNamed(s, token, symbol)
    case UnmapERC20(_, _, token, _, _) => (token == Some(t)) != IsNamed(s, token, symbol)
    case UnmapFrom(_, _, asset, _, token, _, _, _, _) => (asset != "eth" && token == Some(t)) != (asset == symbol)
    case _ => false
  }

  predicate IsNamed(s: State, token: Option<Address>, symbol: string) {
    token.Some? && H.GetTokenInfo(s, token.value).Some? && H.GetTokenInfo(s, token.value).value.symbol == symbol
  }

  // ----- The two books side by side -----

  lemma TokenAppend(log: seq<Event>, events: seq<Event>, t: Address)
    requires |events| <= 2
    ensures TokenFlows(log + events, t)
      == if |events| == 0 then TokenFlows(log, t)
         else if |events| == 1 then BookToken(TokenFlows(log, t), events[0], t)
         else BookToken(BookToken(TokenFlows(log, t), events[0], t), events[1], t)
  {
    hide BookToken;
    if events == [] {
      assert log + events == log;
    } else {
      var longer := log + events;
      assert longer[..|longer| - 1] == log + events[..|events| - 1];
      if |events| == 1 {
        assert log + events[..0] == log;
      } else {
        var middle := log + events[..1];
        assert middle[..|middle| - 1] == log;
      }
    }
  }

  /** The log has moved as much of the token as of the asset. */
  predicate SameFlow(log: seq<Event>, t: Address, symbol: string) {
    var g := Flows(log, symbol);
    TokenFlows(log, t) == TokenFlow(g.deposited, g.paid, g.dropped)
  }

  predicate SameEvent(e: Event, t: Address, symbol: string) {
    match e
    case Credit(a, amount, _, _, token) => TokenPart(token, t, amount) == Part(a, symbol, amount)
    case Pay(ps) => TokenPart(ps.token, t, ps.amount) == OwedOf(ps, symbol)
    case Drop(ps) => TokenPart(ps.token, t, ps.amount) == OwedOf(ps, symbol)
    case _ => true
  }

  predicate Aligned(w: World, t: Address, symbol: string) {
    SameFlow(w.log, t, symbol) && OwedToken(w.state, t) == Owed(w.state, symbol)
  }

  /** Only the first of a call's events can move one without the other. */
  lemma FlowAfter(log: seq<Event>, events: seq<Event>, t: Address, symbol: string)
    requires SameFlow(log, t, symbol) && |events| <= 2 && (|events| == 2 ==> SameEvent(events[1], t, symbol))
    ensures SameFlow(log + events, t, symbol) <==> events == [] || SameEvent(events[0], t, symbol)
    ensures events != [] && events[0].Credit? ==>
      SameFlow(log + events, t, symbol) || OffByDeposit(log + events, t, symbol)
  {
    hide Flows, TokenFlows;
    FlowsAppend(log, events, symbol);
    TokenAppend(log, events, t);
  }

  predicate OffByDeposit(log: seq<Event>, t: Address, symbol: string) {
    var f, g := TokenFlows(log, t), Flows(log, symbol);
    f.paid == g.paid && f.dropped == g.dropped && f.deposited != g.deposited
  }

  /** In a balanced state the token is backed when the books agree, and not when just one of the two differs. */
  lemma BackedExactly(w: World, t: Address, symbol: string)
    requires Balanced(Flows(w.log, symbol), FiguresOf(w.state, symbol))
    ensures Aligned(w, t, symbol) ==> Backed(w, t, symbol)
    ensures SameFlow(w.log, t, symbol) && OwedToken(w.state, t) != Owed(w.state, symbol) ==> !Backed(w, t, symbol)
    ensures OffByDeposit(w.log, t, symbol) && OwedToken(w.state, t) == Owed(w.state, symbol) ==> !Backed(w, t, symbol)
  {
    hide Flows, TokenFlows, Owed, OwedToken, Total;
  }

  // ----- One call -----

  /** From agreeing books: they still agree unless the call crosses, and then the token is no longer backed. */
  ghost predicate StaysAligned(s: State, a: Action, after: State, log: seq<Event>, t: Address, symbol: string) {
    var w := World(after, log + Events(s, a, after));
    if Crosses(s, a, t, symbol) then !Aligned(w, t, symbol) && !Backed(w, t, symbol) else Aligned(w, t, symbol)
  }

  lemma SameQueueOwes(s: State, after: State, t: Address, symbol: string)
    requires SameQueue(s, after)
    ensures OwedToken(after, t) == OwedToken(s, t) && Owed(after, symbol) == Owed(s, symbol)
  {
  }

  lemma DepositEvent(keccak: Hasher, s: State, a: Action, after: State, t: Address, symbol: string)
    requires (a.MapETH? || a.MapERC20?) && Apply(keccak, s, a) == Ok(after)
    ensures var events := Events(s, a, after);
      && 1 <= |events| <= 2 && events[0].Credit? && (|events| == 2 ==> SameEvent(events[1], t, symbol))
      && (SameEvent(events[0], t, symbol) <==> !Crosses(s, a, t, symbol))
  {
    hide Apply, H.AcceptDeposit, H.ReadInstructions, H.GetTokenInfo, H.DepositMark;
    if a.MapETH? {
      MapETHShape(keccak, s, a);
    } else {
      MapERC20Shape(keccak, s, a);
    }
  }

  lemma DepositAligns(keccak: Hasher, s: State, a: Action, after: State, log: seq<Event>, t: Address, symbol: string)
    requires (a.MapETH? || a.MapERC20?) && Apply(keccak, s, a) == Ok(after)
    requires Aligned(World(s, log), t, symbol)
    requires Balanced(Flows(log + Events(s, a, after), symbol), FiguresOf(after, symbol))
    ensures StaysAligned(s, a, after, log, t, symbol)
  {
    hide Apply, Events, Crosses, Balanced, FiguresOf, SameFlow, SameEvent, OffByDeposit, Backed, Owed, OwedToken;
    DepositEvent(keccak, s, a, after, t, symbol);
    FlowAfter(log, Events(s, a, after), t, symbol);
    DepositKeepsQueue(keccak, s, a);
    SameQueueOwes(s, after, t, symbol);
    BackedExactly(World(after, log + Events(s, a, after)), t, symbol);
    OffIsNotSame(log + Events(s, a, after), t, symbol);
  }

  lemma OffIsNotSame(log: seq<Event>, t: Address, symbol: string)
    ensures !(SameFlow(log, t, symbol) && OffByDeposit(log, t, symbol))
  {
    hide Flows, TokenFlows;
  }

  // What each unmap queues.

  lemma UnmapETHToken(s: State, caller: string, amount: Option<int>, dest: Option<Address>, maxFee: H.MaxFee,
                      deductFee: bool, tssKey: bool)
    requires H.UnmapETH(s, caller, amount, dest, maxFee, deductFee, tssKey).Ok?
    ensures var after := H.UnmapETH(s, caller, amount, dest, maxFee, deductFee, tssKey).value;
      s.pending in after.spends && after.spends[s.pending].asset == "eth" && after.spends[s.pending].token == None
  {
    hide HeaderStores.GetHeader, Gas.SafeGasFee, Transactions.BuildETHWithdrawalTx, H.CheckMaxFee, WithdrawnETH, Credited;
  }

  lemma UnmapERC20Token(s: State, caller: string, amount: Option<int>, token: Option<Address>, dest: Option<Address>, tssKey: bool)
    requires H.UnmapERC20(s, caller, amount, token, dest, tssKey).Ok?
    ensures var after := H.UnmapERC20(s, caller, amount, token, dest, tssKey).value;
      && s.pending in after.spends && token.Some? && H.GetTokenInfo(s, token.value).Some?
      && after.spends[s.pending].asset == H.GetTokenInfo(s, token.value).value.symbol && after.spends[s.pending].token == token
  {
    hide HeaderStores.GetHeader, Gas.SafeGasFee, Transactions.BuildERC20WithdrawalTx, H.GetTokenInfo, Credited, Withdrawn;
  }

  lemma UnmapFromToken(s: State, caller: string, from: string, asset: string, amount: Option<int>, token: Option<Address>,
                       dest: Option<Address>, maxFee: H.MaxFee, deductFee: bool, tssKey: bool)
    requires H.UnmapFrom(s, caller, from, asset, amount, token, dest, maxFee, deductFee, tssKey).Ok?
    ensures var after := H.UnmapFrom(s, caller, from, asset, amount, token, dest, maxFee, deductFee, tssKey).value;
      && s.pending in after.spends && after.spends[s.pending].asset == asset
      && after.spends[s.pending].token == if asset == "eth" then None else token
  {
    hide HeaderStores.GetHeader, Gas.SafeGasFee, Transactions.BuildETHWithdrawalTx, Transactions.BuildERC20WithdrawalTx;
    hide H.CheckMaxFee, H.CheckToken, H.Encodable, Withdrawn, Credited, BalanceOf, AllowanceOf, Allowed, CanWithdraw;
  }

  /** A withdrawal owes as much of the token as of the asset exactly if the call does not cross. */
  lemma UnmapOwes(keccak: Hasher, s: State, a: Action, after: State, t: Address, symbol: string)
    requires QueueInv(s) && IsUnmap(a) && Apply(keccak, s, a) == Ok(after)
    ensures OwedToken(s, t) == Owed(s, symbol) == 0
    ensures OwedToken(after, t) == Owed(after, symbol) <==> !Crosses(s, a, t, symbol)
  {
    hide Apply, H.UnmapETH, H.UnmapERC20, H.UnmapFrom, H.GetTokenInfo;
    UnmapQueues(keccak, s, a);
    if a.UnmapETH? {
      IsUnmapETH(keccak, s, a);
      UnmapETHToken(s, a.caller, a.amount, a.dest, a.maxFee, a.deductFee, a.tssKey);
    } else if a.UnmapERC20? {
      IsUnmapERC20(keccak, s, a);
      UnmapERC20Token(s, a.caller, a.amount, a.token, a.dest, a.tssKey);
    } else {
      IsUnmapFrom(keccak, s, a);
      UnmapFromToken(s, a.caller, a.from, a.asset, a.amount, a.token, a.dest, a.maxFee, a.deductFee, a.tssKey);
    }
  }

  lemma UnmapEvents(s: State, a: Action, after: State, t: Address, symbol: string)
    requires IsUnmap(a)
    ensures var events := Events(s, a, after);
      |events| <= 2 && forall e :: e in events ==> SameEvent(e, t, symbol)
  {
    hide Debit, Clamp;
  }

  lemma UnmapAligns(keccak: Hasher, s: State, a: Action, after: State, log: seq<Event>, t: Address, symbol: string)
    requires QueueInv(s) && IsUnmap(a) && Apply(keccak, s, a) == Ok(after)
    requires Aligned(World(s, log), t, symbol)
    requires Balanced(Flows(log + Events(s, a, after), symbol), FiguresOf(after, symbol))
    ensures StaysAligned(s, a, after, log, t, symbol)
  {
    hide Apply, Events, Crosses, Balanced, FiguresOf, SameFlow, SameEvent, OffByDeposit, Backed, Owed, OwedToken, QueueInv;
    UnmapEvents(s, a, after, t, symbol);
    FlowAfter(log, Events(s, a, after), t, symbol);
    UnmapOwes(keccak, s, a, after, t, symbol);
    BackedExactly(World(after, log + Events(s, a, after)), t, symbol);
  }

  /** Nothing in the queue, or the same head up to its unsigned transaction; and events that move both alike. */
  ghost predicate MovesBoth(s: State, after: State, events: seq<Event>, t: Address, symbol: string) {
    && |events| <= 2 && (forall e :: e in events ==> SameEvent(e, t, symbol))
    && OwedToken(after, t) == Owed(after, symbol)
  }

  lemma SettlementMoves(keccak: Hasher, s: State, a: Action, after: State, t: Address, symbol: string)
    requires QueueInv(s) && Settles(a) && Apply(keccak, s, a) == Ok(after)
    requires OwedToken(s, t) == Owed(s, symbol)
    ensures MovesBoth(s, after, Events(s, a, after), t, symbol)
  {
    SettlementAdvances(keccak, s, a);
    if !a.ConfirmSpend? {
      DropShape(keccak, s, a);
    }
    hide Apply;
  }

  lemma ClearMoves(keccak: Hasher, s: State, a: Action, after: State, t: Address, symbol: string)
    requires QueueInv(s) && a.ClearTestnetState? && Apply(keccak, s, a) == Ok(after)
    requires OwedToken(s, t) == Owed(s, symbol)
    ensures MovesBoth(s, after, Events(s, a, after), t, symbol)
  {
    IsClear(keccak, s, a);
    ClearEmpties(s);
    hide Apply, H.ClearFrom;
  }

  lemma ReplaceMoves(keccak: Hasher, s: State, a: Action, after: State, t: Address, symbol: string)
    requires QueueInv(s) && a.ReplaceWithdrawal? && Apply(keccak, s, a) == Ok(after)
    requires OwedToken(s, t) == Owed(s, symbol)
    ensures MovesBoth(s, after, Events(s, a, after), t, symbol)
  {
    IsReplace(keccak, s, a);
    hide H.ReplaceWithdrawal, Apply;
    ReplaceReprices(s);
  }

  lemma OtherMoves(keccak: Hasher, s: State, a: Action, after: State, t: Address, symbol: string)
    requires (Bookless(a) || a.Transfer? || a.TransferFrom?) && Apply(keccak, s, a) == Ok(after)
    requires OwedToken(s, t) == Owed(s, symbol)
    ensures MovesBoth(s, after, Events(s, a, after), t, symbol)
  {
    hide Apply, Owed, OwedToken;
    OtherKeepsQueue(keccak, s, a);
    SameQueueOwes(s, after, t, symbol);
  }

  lemma BothAlign(s: State, a: Action, after: State, log: seq<Event>, t: Address, symbol: string)
    requires Aligned(World(s, log), t, symbol) && MovesBoth(s, after, Events(s, a, after), t, symbol)
    requires !a.MapETH? && !a.MapERC20? && !IsUnmap(a)
    ensures StaysAligned(s, a, after, log, t, symbol)
  {
    hide Events, SameFlow, SameEvent, Backed, Owed, OwedToken, OffByDeposit;
    FlowAfter(log, Events(s, a, after), t, symbol);
  }

  lemma CallAligns(keccak: Hasher, s: State, a: Action, after: State, log: seq<Event>, t: Address, symbol: string)
    requires QueueInv(s) && Apply(keccak, s, a) == Ok(after) && Aligned(World(s, log), t, symbol)
    requires Balanced(Flows(log + Events(s, a, after), symbol), FiguresOf(after, symbol))
    ensures StaysAligned(s, a, after, log, t, symbol)
  {
    assert OwedToken(s, t) == Owed(s, symbol);
    hide Apply, Events, Balanced, FiguresOf, Aligned, StaysAligned, QueueInv, MovesBoth, OwedToken, Owed;
    if a.MapETH? || a.MapERC20? {
      DepositAligns(keccak, s, a, after, log, t, symbol);
    } else if IsUnmap(a) {
      UnmapAligns(keccak, s, a, after, log, t, symbol);
    } else {
      if Settles(a) {
        SettlementMoves(keccak, s, a, after, t, symbol);
      } else if a.ClearTestnetState? {
        ClearMoves(keccak, s, a, after, t, symbol);
      } else if a.ReplaceWithdrawal? {
        ReplaceMoves(keccak, s, a, after, t, symbol);
      } else {
        OtherMoves(keccak, s, a, after, t, symbol);
      }
      BothAlign(s, a, after, log, t, symbol);
    }
  }

  // ----- Every run -----

  function Crossing(t: Address, symbol: string): (State, Action) -> bool {
    (s, a) => Crosses(s, a, t, symbol)
  }

  /** The token is backed after every prefix of the run. */
  ghost predicate AlwaysBacked(keccak: Hasher, init: State, actions: seq<Action>, t: Address, symbol: string) {
    forall n :: 0 <= n <= |actions| ==> Backed(Run(keccak, init, actions[..n]), t, symbol)
  }

  lemma BackedExtends(keccak: Hasher, init: State, actions: seq<Action>, t: Address, symbol: string)
    requires actions != []
    ensures AlwaysBacked(keccak, init, actions, t, symbol) <==>
      AlwaysBacked(keccak, init, actions[..|actions| - 1], t, symbol) && Backed(Run(keccak, init, actions), t, symbol)
  {
    hide Run, Backed;
    var front := actions[..|actions| - 1];
    assert actions[..|actions|] == actions;
    forall n | 0 <= n <= |front|
      ensures front[..n] == actions[..n]
    {
    }
    if AlwaysBacked(keccak, init, actions, t, symbol) {
      forall n | 0 <= n <= |front|
        ensures Backed(Run(keccak, init, front[..n]), t, symbol)
      {
        assert Backed(Run(keccak, init, actions[..n]), t, symbol);
      }
      assert Backed(Run(keccak, init, actions[..|actions|]), t, symbol);
    }
  }

  lemma NothingMoved(keccak: Hasher, testnet: bool, chainId: uint64, self: string, actions: seq<Action>, t: Address, symbol: string)
    requires actions == []
    ensures Aligned(Run(keccak, Deployed(testnet, chainId, self), actions), t, symbol)
    ensures AlwaysBacked(keccak, Deployed(testnet, chainId, self), actions, t, symbol)
  {
    forall n | 0 <= n <= |actions|
      ensures Backed(Run(keccak, Deployed(testnet, chainId, self), actions[..n]), t, symbol)
    {
      assert actions[..n] == [];
    }
  }

  lemma LastCallAligns(keccak: Hasher, testnet: bool, chainId: uint64, self: string, actions: seq<Action>, t: Address,
                       symbol: string)
    requires 0 < |actions| < TWO_64
    requires Aligned(Run(keccak, Deployed(testnet, chainId, self), actions[..|actions| - 1]), t, symbol)
    ensures var init, n := Deployed(testnet, chainId, self), |actions| - 1;
      var w := Run(keccak, init, actions);
      if AcceptedAt(keccak, init, actions, n, Crossing(t, symbol)) then !Aligned(w, t, symbol) && !Backed(w, t, symbol)
      else Aligned(w, t, symbol) && Backed(w, t, symbol)
  {
    hide Apply, Deployed, Events, Crosses, Flows, FiguresOf, QueueInv, NonNegative, Balanced, Aligned, Backed, RunFrom;
    var init, n := Deployed(testnet, chainId, self), |actions| - 1;
    var front, a := actions[..n], actions[n];
    Solvent(keccak, testnet, chainId, self, front);
    Solvent(keccak, testnet, chainId, self, actions);
    RunIsRunFrom(keccak, init, front);
    var w, after := Run(keccak, init, front), Run(keccak, init, actions);
    assert Balanced(Flows(after.log, symbol), FiguresOf(after.state, symbol));
    if Apply(keccak, w.state, a).Ok? {
      CallAligns(keccak, w.state, a, Apply(keccak, w.state, a).value, w.log, t, symbol);
    }
    BackedExactly(after, t, symbol);
  }

  /**
   Over every run of fewer than 2^64 calls, for every token and every asset: what was deposited of the token is
   active under the asset, queued in the token, paid out or dropped, throughout the run, if and only if no accepted
   call of the run moves one of the two without the other.
   */
  lemma {:induction false} TokenConserved(keccak: Hasher, testnet: bool, chainId: uint64, self: string, actions: seq<Action>,
                                          t: Address, symbol: string)
    requires |actions| < TWO_64
    ensures var init := Deployed(testnet, chainId, self);
      AlwaysBacked(keccak, init, actions, t, symbol) <==> !SomeAccepted(keccak, init, actions, Crossing(t, symbol))
    ensures var init := Deployed(testnet, chainId, self);
      AlwaysBacked(keccak, init, actions, t, symbol) ==> Aligned(Run(keccak, init, actions), t, symbol)
  {
    var init := Deployed(testnet, chainId, self);
    if actions == [] {
      NothingMoved(keccak, testnet, chainId, self, actions, t, symbol);
    } else {
      hide Run, Deployed, Apply, AlwaysBacked, SomeAccepted, Backed, Aligned, AcceptedAt, Crossing;
      var front := actions[..|actions| - 1];
      TokenConserved(keccak, testnet, chainId, self, front, t, symbol);
      AcceptedExtends(keccak, init, actions, Crossing(t, symbol));
      BackedExtends(keccak, init, actions, t, symbol);
      if AlwaysBacked(keccak, init, front, t, symbol) {
        LastCallAligns(keccak, testnet, chainId, self, actions, t, symbol);
      }
    }
  }

  // ----- Symbols of one token -----

  /** The symbol, which is not that of ETH, is registered for this token and for no other, and the token for no other. */
  predicate NamesAlone(actions: seq<Action>, t: Address, symbol: string) {
    symbol != "eth" && forall a :: a in actions && a.Configure? && a.setting.RegisterToken? ==>
      (a.setting.token == t <==> a.setting.info.symbol == symbol)
  }

  predicate NamedAlone(s: State, t: Address, symbol: string) {
    forall other :: other in s.tokens ==> (other == t <==> s.tokens[other].symbol == symbol)
  }

  lemma {:induction false} RunNamesAlone(keccak: Hasher, testnet: bool, chainId: uint64, self: string, actions: seq<Action>,
                                         t: Address, symbol: string)
    requires NamesAlone(actions, t, symbol)
    ensures NamedAlone(RunFrom(keccak, Deployed(testnet, chainId, self), actions), t, symbol)
  {
    if actions != [] {
      var front, a := actions[..|actions| - 1], actions[|actions| - 1];
      assert a in actions && forall x :: x in front ==> x in actions;
      RunNamesAlone(keccak, testnet, chainId, self, front, t, symbol);
      var s := RunFrom(keccak, Deployed(testnet, chainId, self), front);
      hide Deployed;
      if a.Configure? && a.setting.RegisterToken? {
        IsConfigure(keccak, s, a);
        hide Apply;
      } else {
        hide Next;
        TokensKept(keccak, s, a);
      }
    }
  }

  /** An unmapFrom that debits the symbol but sends another token, or sends the token but debits another asset. */
  predicate Mispairs(s: State, a: Action, t: Address, symbol: string) {
    a.UnmapFrom? && a.asset != "eth" && (a.token == Some(t)) != (a.asset == symbol)
  }

  function Mispairing(t: Address, symbol: string): (State, Action) -> bool {
    (s, a) => Mispairs(s, a, t, symbol)
  }

  lemma OnlyMispairs(keccak: Hasher, s: State, a: Action, t: Address, symbol: string)
    requires NamedAlone(s, t, symbol) && symbol != "eth" && Apply(keccak, s, a).Ok?
    ensures Crosses(s, a, t, symbol) <==> Mispairs(s, a, t, symbol)
  {
    if a.MapERC20? {
      MapERC20Shape(keccak, s, a);
    } else if a.UnmapERC20? {
      IsUnmapERC20(keccak, s, a);
      hide Apply, H.UnmapERC20;
      UnmapERC20Token(s, a.caller, a.amount, a.token, a.dest, a.tssKey);
    }
    hide Apply;
  }

  /**
   In particular, under a symbol that names one token alone: the active supply of the symbol is what the deposits
   of that token leave, throughout, if and only if no accepted unmapFrom pairs the symbol with another token or
   the token with another symbol.
   */
  lemma NamedTokenConserved(keccak: Hasher, testnet: bool, chainId: uint64, self: string, actions: seq<Action>,
                            t: Address, symbol: string)
    requires |actions| < TWO_64 && NamesAlone(actions, t, symbol)
    ensures var init := Deployed(testnet, chainId, self);
      AlwaysBacked(keccak, init, actions, t, symbol) <==> !SomeAccepted(keccak, init, actions, Mispairing(t, symbol))
  {
    hide Deployed, Apply, AlwaysBacked, Crosses, Mispairs, RunFrom, NamedAlone;
    var init := Deployed(testnet, chainId, self);
    TokenConserved(keccak, testnet, chainId, self, actions, t, symbol);
    forall i | 0 <= i < |actions|
      ensures AcceptedAt(keccak, init, actions, i, Crossing(t, symbol))
        <==> AcceptedAt(keccak, init, actions, i, Mispairing(t, symbol))
    {
      var front := actions[..i];
      assert forall x :: x in front ==> x in actions;
      RunNamesAlone(keccak, testnet, chainId, self, front, t, symbol);
      if Apply(keccak, RunFrom(keccak, init, front), actions[i]).Ok? {
        OnlyMispairs(keccak, RunFrom(keccak, init, front), actions[i], t, symbol);
      }
    }
  }
}
