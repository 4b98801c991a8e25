/** Allowances over every run: what a spender takes is at most what was granted. */
module AllowanceTheorems {
  import opened ByteStrings
  import opened Ledger
  import opened Accounts
  import opened Actions
  import opened AdminTheorems
  import opened RoutingTheorems
  import opened SpendTheorems
  import opened TransferTheorems
  import opened UnmapTheorems
  import opened WithdrawalQueue
  import H = Handlers
  import Blocklist
  import E = Effects
  import HeaderStores
  import Observed

  // ----- What a call grants and takes -----

  /** What the call takes under the grant. */
  function Takes(a: Action, g: Grant): int {
    match a
    case TransferFrom(caller, from, _, asset, amount) => if g == Grant(from, caller, asset) && amount.Some? then amount.value else 0
    case UnmapFrom(caller, from, asset, amount, _, _, _, _, _) =>
      if g == Grant(from, caller, asset) && amount.Some? then amount.value else 0
    case _ => 0
  }

  /** What accepted calls among these take under the grant. */
  function AllTake(keccak: Hasher, s: State, calls: seq<Action>, g: Grant): int {
    if calls == [] then 0
    else
      var front, last := calls[..|calls| - 1], calls[|calls| - 1];
      AllTake(keccak, s, front, g) + if Apply(keccak, RunFrom(keccak, s, front), last).Ok? then Takes(last, g) else 0
  }

  /** The grant a deposit's swap gives the router. */
  predicate ToRouter(s: State, instructions: seq<string>, asset: string, g: Grant) {
    AsksSwap(s, instructions) && g == Grant(s.self, "contract:" + s.router, asset)
  }

  /** What the call grants at most: an approval its whole value, an increase its amount, a swap the deposit. */
  function Gives(s: State, a: Action, g: Grant): int {
    match a
    case Approve(caller, spender, asset, amount) => if g == Grant(caller, spender, asset) && amount.Some? then amount.value else 0
    case IncreaseAllowance(caller, spender, asset, amount) =>
      if g == Grant(caller, spender, asset) && amount.Some? then amount.value else 0
    case MapETH(_, _, _, _, deposit, instructions, _) =>
      if deposit.Deposit? && ToRouter(s, instructions, "eth", g) then deposit.amount else 0
    case MapERC20(token, _, _, _, deposit, instructions, _) =>
      if token.Some? && token.value in s.tokens && deposit.Deposit?
         && ToRouter(s, instructions, s.tokens[token.value].symbol, g) then deposit.amount
      else 0
    case _ => 0
  }

  /** What the transfers during a deposit's swap take. */
  function SwapTakes(keccak: Hasher, s: State, asset: string, d: H.DepositProof, instructions: seq<string>, call: H.RouterCall,
                     g: Grant): int
  {
    if d.Deposit? && GoesOut(s, instructions, call) then
      AllTake(keccak, E.Funded(s, asset, d.amount), MoveCalls(call.moves), g)
    else 0
  }

  /** What an accepted call takes under the grant, swaps included. */
  function CallTakes(keccak: Hasher, s: State, a: Action, g: Grant): int {
    match a
    case MapETH(_, _, _, _, deposit, instructions, call) => SwapTakes(keccak, s, "eth", deposit, instructions, call, g)
    case MapERC20(token, _, _, _, deposit, instructions, call) =>
      if token.Some? && token.value in s.tokens then
        SwapTakes(keccak, s, s.tokens[token.value].symbol, deposit, instructions, call, g)
      else 0
    case _ => Takes(a, g)
  }

  function RunTakes(keccak: Hasher, init: State, actions: seq<Action>, g: Grant): int {
    if actions == [] then 0
    else
      var front, a := actions[..|actions| - 1], actions[|actions| - 1];
      var s := RunFrom(keccak, init, front);
      RunTakes(keccak, init, front, g) + if Apply(keccak, s, a).Ok? then CallTakes(keccak, s, a, g) else 0
  }

  function RunGives(keccak: Hasher, init: State, actions: seq<Action>, g: Grant): int {
    if actions == [] then 0
    else
      var front, a := actions[..|actions| - 1], actions[|actions| - 1];
      var s := RunFrom(keccak, init, front);
      RunGives(keccak, init, front, g) + if Apply(keccak, s, a).Ok? then Gives(s, a, g) else 0
  }

  // ----- One call -----

  function GrantedBy(s: State, g: Grant): int {
    Granted(s, g.owner, g.spender, g.asset)
  }

  /** The call takes no more than what was there and what it gives, and no grant falls below zero. */
  ghost predicate Honours(s: State, after: State, g: Grant, takes: int, gives: int) {
    GrantedBy(after, g) >= 0 && takes >= 0 && GrantedBy(after, g) + takes <= GrantedBy(s, g) + gives
  }

  lemma TransferFromHonours(keccak: Hasher, s: State, a: Action, after: State, g: Grant)
    requires a.TransferFrom? && Apply(keccak, s, a) == Ok(after) && GrantedBy(s, g) >= 0
    ensures Honours(s, after, g, Takes(a, g), 0) && GrantedBy(after, g) + Takes(a, g) == GrantedBy(s, g)
  {
    TransferFromExactly(keccak, s, a.caller, a.from, a.to, a.asset, a.amount);
    hide Apply, Held;
  }

  lemma {:induction false} MovesHonour(keccak: Hasher, s: State, moves: seq<H.Move>, g: Grant)
    requires GrantedBy(s, g) >= 0
    ensures Honours(s, RunFrom(keccak, s, MoveCalls(moves)), g, AllTake(keccak, s, MoveCalls(moves), g), 0)
  {
    if moves != [] {
      var front, m := moves[..|moves| - 1], moves[|moves| - 1];
      MovesHonour(keccak, s, front, g);
      var calls := MoveCalls(moves);
      assert calls[..|calls| - 1] == MoveCalls(front);
      var before := RunFrom(keccak, s, MoveCalls(front));
      var call := TransferFrom(m.caller, m.from, m.to, m.asset, m.amount);
      assert calls[|calls| - 1] == call;
      hide Apply, GrantedBy, Takes;
      if Apply(keccak, before, call).Ok? {
        TransferFromHonours(keccak, before, call, Apply(keccak, before, call).value, g);
      }
    }
  }

  lemma FundedGives(s: State, asset: string, amount: nat, g: Grant)
    requires GrantedBy(s, g) >= 0
    ensures GrantedBy(E.Funded(s, asset, amount), g)
      <= GrantedBy(s, g) + if g == Grant(s.self, "contract:" + s.router, asset) then amount else 0
    ensures GrantedBy(E.Funded(s, asset, amount), g) >= 0
  {
  }

  lemma ClosedHonours(s: State, called: State, asset: string, g: Grant)
    requires GrantedBy(called, g) >= 0
    ensures 0 <= GrantedBy(E.Closed(s, called, asset), g) <= GrantedBy(called, g)
  {
  }

  /** The deposit's routing, seen from one grant. */
  lemma RoutedHonours(keccak: Hasher, s: State, asset: string, d: H.DepositProof, instructions: seq<string>, call: H.RouterCall,
                      g: Grant)
    requires d.Deposit? && d.amount > 0 && GrantedBy(s, g) >= 0
    ensures Honours(s, H.Routed(s, H.ReadInstructions(d.depositor, instructions), asset, d.amount, call).0, g,
                    SwapTakes(keccak, s, asset, d, instructions, call, g),
                    if ToRouter(s, instructions, asset, g) then d.amount else 0)
  {
    hide AsksSwap;
    if GoesOut(s, instructions, call) {
      hide H.ReadInstructions, RunFrom, AllTake, GrantedBy;
      SwapsAsAsked(s, d.depositor, instructions, call);
      var funded := E.Funded(s, asset, d.amount);
      FundedGives(s, asset, d.amount, g);
      MovesHonour(keccak, funded, call.moves, g);
      MovesAreCalls(keccak, funded, call.moves);
      var called := H.ApplyMoves(funded, call.moves);
      H.MovesChange(funded, call.moves);
      assert H.Routed(s, H.ReadInstructions(d.depositor, instructions), asset, d.amount, call).0 == E.Closed(s, called, asset);
      ClosedHonours(s, called, asset, g);
    } else {
      RoutedExactly(keccak, s, asset, d.amount, d.depositor, instructions, call);
      hide H.Routed, H.ReadInstructions, Recipient, Held;
    }
  }

  lemma BookedGrants(routed: State, height: uint64, m: Observed.Mark, asset: string, amount: nat, tax: nat, dest: string)
    requires Observed.ValidMark(m)
    ensures H.Booked(routed, height, m, asset, amount, tax, dest).allowances == routed.allowances
  {
    hide Credited, Deposited, H.AddMark;
  }

  lemma DepositHonours(keccak: Hasher, s: State, a: Action, after: State, g: Grant)
    requires (a.MapETH? || a.MapERC20?) && Apply(keccak, s, a) == Ok(after) && GrantedBy(s, g) >= 0
    ensures Honours(s, after, g, CallTakes(keccak, s, a, g), Gives(s, a, g))
  {
    hide Apply, H.Routed, H.Booked, H.ReadInstructions, H.DepositMark, ToRouter, SwapTakes;
    var m := H.DepositMark(a.hash, a.index);
    if a.MapETH? {
      MapETHShape(keccak, s, a);
      RoutedHonours(keccak, s, "eth", a.deposit, a.instructions, a.call, g);
      var (routed, dest) := H.Routed(s, H.ReadInstructions(a.deposit.depositor, a.instructions), "eth", a.deposit.amount, a.call);
      BookedGrants(routed, a.height, m, "eth", a.deposit.amount, H.Tax(a.deposit.amount), dest);
    } else {
      MapERC20Shape(keccak, s, a);
      var symbol := s.tokens[a.token.value].symbol;
      RoutedHonours(keccak, s, symbol, a.deposit, a.instructions, a.call, g);
      var (routed, dest) := H.Routed(s, H.ReadInstructions(a.deposit.depositor, a.instructions), symbol, a.deposit.amount, a.call);
      BookedGrants(routed, a.height, m, symbol, a.deposit.amount, 0, dest);
    }
  }

  lemma UnmapHonours(keccak: Hasher, s: State, a: Action, after: State, g: Grant)
    requires IsUnmap(a) && Apply(keccak, s, a) == Ok(after) && GrantedBy(s, g) >= 0
    ensures Honours(s, after, g, Takes(a, g), 0)
  {
    hide Apply, MayQueue, ETHSpend, TokenSpend, QueuesSpend, HeldChanges, TrackedBecomes, FeeAccepted, Held, Tracked, Reaches;
    if a.UnmapETH? {
      UnmapETHExactly(keccak, s, a.caller, a.amount, a.dest, a.maxFee, a.deductFee, a.tssKey);
    } else if a.UnmapERC20? {
      UnmapERC20Exactly(keccak, s, a.caller, a.amount, a.token, a.dest, a.tssKey);
    } else {
      UnmapFromExactly(keccak, s, a);
    }
  }

  lemma GrantHonours(keccak: Hasher, s: State, a: Action, after: State, g: Grant)
    requires SetsAllowance(a) && Apply(keccak, s, a) == Ok(after) && GrantedBy(s, g) >= 0
    ensures Honours(s, after, g, 0, Gives(s, a, g))
  {
    hide Apply, Held;
    if a.Approve? {
      ApproveExactly(keccak, s, a.caller, a.spender, a.asset, a.amount);
    } else if a.IncreaseAllowance? {
      IncreaseExactly(keccak, s, a.caller, a.spender, a.asset, a.amount);
    } else {
      DecreaseExactly(keccak, s, a.caller, a.spender, a.asset, a.amount);
    }
  }

  /** Calls that neither give nor take. */
  lemma OtherHonours(keccak: Hasher, s: State, a: Action, after: State)
    requires QueueInv(s) && Apply(keccak, s, a) == Ok(after)
    requires !a.MapETH? && !a.MapERC20? && !IsUnmap(a) && !SetsAllowance(a) && !a.TransferFrom?
    ensures after.allowances == s.allowances
  {
    hide Apply, MayConfirm, MayDrop, MayReplace, HeldChanges, HeldMoves, TrackedBecomes, QueueInv, Held, Repriced;
    match a
    case ConfirmSpend(intent, height, spend) => ConfirmExactly(keccak, s, intent, height, spend);
    case ReplaceWithdrawal => ReplaceExactly(keccak, s);
    case ClearTestnetState => ClearExactly(keccak, s);
    case Transfer(caller, to, asset, amount) => TransferExactly(keccak, s, caller, to, asset, amount);
    case Configure(c) => SettingExactly(keccak, s, c);
    case SeedBlock(e) => HeaderCallsExactly(keccak, s, e, []);
    case ReplaceBlock(e) => HeaderCallsExactly(keccak, s, e, []);
    case AddBlocks(es) => HeadersOnly(keccak, s, es);
    case _ =>
      if a.Pause? || a.Unpause? {
        PauseExactly(keccak, s);
      } else {
        DropExactly(keccak, s, a);
      }
  }

  lemma HeadersOnly(keccak: Hasher, s: State, es: seq<Blocklist.BlockEntry>)
    ensures Apply(keccak, s, AddBlocks(es)).Ok? ==>
      var after := Apply(keccak, s, AddBlocks(es)).value; after == s.(chain := after.chain)
  {
    hide HeaderStores.AddBlocks;
  }

  lemma CallHonours(keccak: Hasher, s: State, a: Action, after: State, g: Grant)
    requires QueueInv(s) && Apply(keccak, s, a) == Ok(after) && GrantedBy(s, g) >= 0
    ensures Honours(s, after, g, CallTakes(keccak, s, a, g), Gives(s, a, g))
  {
    hide Apply, SwapTakes, ToRouter, QueueInv;
    if a.MapETH? || a.MapERC20? {
      DepositHonours(keccak, s, a, after, g);
    } else if IsUnmap(a) {
      UnmapHonours(keccak, s, a, after, g);
    } else if SetsAllowance(a) {
      GrantHonours(keccak, s, a, after, g);
    } else if a.TransferFrom? {
      TransferFromHonours(keccak, s, a, after, g);
    } else {
      OtherHonours(keccak, s, a, after);
    }
  }

  // ----- Every run -----

  /**
   Over every run of fewer than 2^64 calls and for every owner, spender and asset: what transferFrom, unmapFrom and
   the transfers during swaps took under the grant, together with what is left of it, is at most what was granted.
   */
  lemma {:induction false} AllowanceHonoured(keccak: Hasher, testnet: bool, chainId: uint64, self: string, actions: seq<Action>,
                                             g: Grant)
    requires |actions| < TWO_64
    ensures var init := Deployed(testnet, chainId, self);
      var left := GrantedBy(RunFrom(keccak, init, actions), g);
      left >= 0 && RunTakes(keccak, init, actions, g) + left <= RunGives(keccak, init, actions, g)
  {
    var init := Deployed(testnet, chainId, self);
    if actions != [] {
      hide Apply, GrantedBy, CallTakes, Gives, QueueInv, Deployed;
      var front, a := actions[..|actions| - 1], actions[|actions| - 1];
      AllowanceHonoured(keccak, testnet, chainId, self, front, g);
      QueueInvariant(keccak, testnet, chainId, self, front);
      var s := RunFrom(keccak, init, front);
      if Apply(keccak, s, a).Ok? {
        CallHonours(keccak, s, a, Apply(keccak, s, a).value, g);
      }
    }
  }

  // ----- What the owner pays -----

  /**
   The amounts keep to the grant, the owner's balance need not: an unmapFrom takes exactly what it uses up of the
   grant if and only if it is not one of ether with the fee on top, which nobody granted.
   */
  lemma OwnerPaysTheGrant(keccak: Hasher, s: State, a: Action)
    requires a.UnmapFrom? && Apply(keccak, s, a).Ok?
    ensures var after := Apply(keccak, s, a).value;
      Held(s, a.from, a.asset) - Held(after, a.from, a.asset)
        == Granted(s, a.from, a.caller, a.asset) - Granted(after, a.from, a.caller, a.asset)
      <==> !(a.asset == "eth" && !a.deductFee)
  {
    hide Apply, ETHSpend, TokenSpend, QueuesSpend, TrackedBecomes, FeeAccepted, Tracked, Reaches, Held, Granted;
    UnmapFromExactly(keccak, s, a);
  }
}
