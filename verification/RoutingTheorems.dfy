/** Deposits: how instructions route them, when they are accepted, and exactly what an accepted one changes. */
module RoutingTheorems {
  import opened ByteStrings
  import opened Blocklist
  import opened Ledger
  import opened Accounts
  import opened Actions
  import opened Effects
  import opened LedgerTheorems
  import opened Observed
  import H = Handlers

  // ----- Instructions -----

  /** The instruction gives the key a value that is not empty. */
  predicate Gives(instruction: string, key: string) {
    |instruction| > |key| && instruction[..|key|] == key
  }

  /** The value of the last instruction that gives the key one. */
  function Named(instructions: seq<string>, key: string, otherwise: string): string {
    if instructions == [] then otherwise
    else
      var last := instructions[|instructions| - 1];
      if Gives(last, key) then last[|key|..] else Named(instructions[..|instructions| - 1], key, otherwise)
  }

  lemma {:induction false} NamedIsLast(instructions: seq<string>, key: string, otherwise: string, i: nat)
    requires i < |instructions| && Gives(instructions[i], key)
    requires forall j :: i < j < |instructions| ==> !Gives(instructions[j], key)
    ensures Named(instructions, key, otherwise) == instructions[i][|key|..]
  {
    if i < |instructions| - 1 {
      NamedIsLast(instructions[..|instructions| - 1], key, otherwise, i);
    }
  }

  /** Each of the four keys is read from the last instruction that begins with it and goes on. */
  lemma {:induction false} InstructionsRead(did: string, instructions: seq<string>)
    ensures H.ReadInstructions(did, instructions)
      == H.Routing(Named(instructions, "deposit_to=", did), Named(instructions, "swap_to=", ""),
                   Named(instructions, "asset_out=", ""), Named(instructions, "destination_chain=", ""))
  {
    if instructions != [] {
      InstructionsRead(did, instructions[..|instructions| - 1]);
    }
  }

  /** Who is credited: the account named by the instructions, or else the depositor. */
  function Recipient(depositor: string, instructions: seq<string>): string {
    Named(instructions, "deposit_to=", depositor)
  }

  /** The instructions name a target and an asset for a swap, and a router is registered. */
  predicate AsksSwap(s: State, instructions: seq<string>) {
    Named(instructions, "swap_to=", "") != "" && Named(instructions, "asset_out=", "") != "" && s.router != ""
  }

  predicate GoesOut(s: State, instructions: seq<string>, call: H.RouterCall) {
    AsksSwap(s, instructions) && call.CallReturns?
  }

  lemma SwapsAsAsked(s: State, did: string, instructions: seq<string>, call: H.RouterCall)
    ensures H.Swaps(s, H.ReadInstructions(did, instructions)) <==> AsksSwap(s, instructions)
    ensures SwappedOut(s, H.ReadInstructions(did, instructions), call) <==> GoesOut(s, instructions, call)
  {
    hide Named, H.ReadInstructions;
    InstructionsRead(did, instructions);
  }

  // ----- Routing -----

  /** The contract holds the deposit, and the router may take it. */
  ghost predicate IsFunded(s: State, funded: State, asset: string, amount: int) {
    && funded == s.(balances := funded.balances, allowances := funded.allowances)
    && HeldChanges(s, funded, s.self, asset, amount)
    && GrantBecomes(s, funded, s.self, "contract:" + s.router, asset, amount)
  }

  /** The transfers the router and others make during the call, as the ordinary calls they are. */
  function MoveCalls(moves: seq<H.Move>): (calls: seq<Action>)
    ensures |calls| == |moves|
  {
    if moves == [] then []
    else
      var m := moves[|moves| - 1];
      MoveCalls(moves[..|moves| - 1]) + [TransferFrom(m.caller, m.from, m.to, m.asset, m.amount)]
  }

  /** The funded contract went through those calls, and the router's grant is closed again. */
  ghost predicate Swapped(keccak: Hasher, s: State, after: State, asset: string, amount: int, moves: seq<H.Move>) {
    exists funded ::
      && IsFunded(s, funded, asset, amount)
      && var called := RunFrom(keccak, funded, MoveCalls(moves));
      && (forall o, x :: Held(after, o, x) == Held(called, o, x))
      && GrantBecomes(called, after, s.self, "contract:" + s.router, asset, 0)
  }

  lemma {:induction false} MovesAreCalls(keccak: Hasher, s: State, moves: seq<H.Move>)
    ensures H.ApplyMoves(s, moves) == RunFrom(keccak, s, MoveCalls(moves))
  {
    if moves != [] {
      var front, m := moves[..|moves| - 1], moves[|moves| - 1];
      MovesAreCalls(keccak, s, front);
      var calls, call := MoveCalls(moves), TransferFrom(m.caller, m.from, m.to, m.asset, m.amount);
      assert calls[..|calls| - 1] == MoveCalls(front) && calls[|calls| - 1] == call;
      IsTransferFrom(keccak, H.ApplyMoves(s, front), call);
      hide H.TransferFrom, Apply;
    }
  }

  lemma IsTransferFrom(keccak: Hasher, s: State, a: Action)
    requires a.TransferFrom?
    ensures Apply(keccak, s, a) == H.TransferFrom(s, a.caller, a.from, a.to, a.asset, a.amount)
  {
    hide H.TransferFrom;
  }

  lemma FundedIs(s: State, asset: string, amount: int)
    ensures IsFunded(s, Funded(s, asset, amount), asset, amount)
  {
  }

  /**
   A deposit whose swap goes out leaves the whole of it to the router's call. Any other credits the recipient with
   what the tax leaves, and no other balance changes, provided the contract's own is not negative.
   */
  ghost predicate Routes(keccak: Hasher, s: State, after: State, asset: string, amount: nat, tax: nat, depositor: string,
                         instructions: seq<string>, call: H.RouterCall)
  {
    if GoesOut(s, instructions, call) then Swapped(keccak, s, after, asset, amount, call.moves)
    else
      && (Held(s, s.self, asset) >= 0 ==> HeldChanges(s, after, Recipient(depositor, instructions), asset, amount - tax))
      && (if AsksSwap(s, instructions) then GrantBecomes(s, after, s.self, "contract:" + s.router, asset, 0)
          else after.allowances == s.allowances)
  }

  /** What an accepted deposit of an asset does. */
  ghost predicate Deposits(keccak: Hasher, s: State, after: State, height: uint64, hash: Hash, index: uint64, asset: string,
                           amount: nat, tax: nat, depositor: string, instructions: seq<string>, call: H.RouterCall)
  {
    && after == s.(balances := after.balances, allowances := after.allowances, supplies := after.supplies,
                   gasReserve := s.gasReserve + tax, chain := s.chain.(observed := Noted(s, height, hash, index)))
    && TrackedBecomes(s, after, asset, Tracked(s, asset).active + amount, Tracked(s, asset).user + (amount - tax),
                      Tracked(s, asset).fee + tax)
    && Routes(keccak, s, after, asset, amount, tax, depositor, instructions, call)
  }

  // ----- The observed deposits -----

  /** Hash and low 16 bits of the index, high byte first. */
  function EntryOf(hash: Hash, index: uint64): (e: Bytes)
    ensures |e| == 34
  {
    hash + [((index / 256) % 256) as byte, (index % 256) as byte]
  }

  /** The bytes stored for the height, with the deposit's entry behind them. */
  function Noted(s: State, height: uint64, hash: Hash, index: uint64): map<uint64, Bytes> {
    s.chain.observed[height := (if height in s.chain.observed then s.chain.observed[height] else []) + EntryOf(hash, index)]
  }

  /** No whole entry stored for the height is the deposit's. */
  predicate Unseen(s: State, height: uint64, hash: Hash, index: uint64) {
    height in s.chain.observed ==>
      var data := s.chain.observed[height];
      forall k :: 0 <= k < |data| && 34 * (k + 1) <= |data| ==> data[34 * k..34 * (k + 1)] != EntryOf(hash, index)
  }

  lemma EntryIs(hash: Hash, index: uint64)
    ensures MakeEntry(H.DepositMark(hash, index)) == EntryOf(hash, index)
  {
    LowBytes(index);
  }

  lemma LowBytes(n: nat)
    ensures n % 0x1_0000 / 256 == n / 256 % 256 && n % 0x1_0000 % 256 == n % 256
  {
    var high, low := n / 0x1_0000, n % 0x1_0000;
    assert n == 256 * (256 * high + low / 256) + low % 256;
    assert n / 256 == 256 * high + low / 256;
  }

  lemma UnseenIsUnmarked(s: State, height: uint64, hash: Hash, index: uint64)
    ensures H.Marked(s.chain, height, H.DepositMark(hash, index)) <==> !Unseen(s, height, hash, index)
  {
    EntryIs(hash, index);
    hide MakeEntry, EntryOf, H.DepositMark;
    if height in s.chain.observed {
      var data, entry := s.chain.observed[height], EntryOf(hash, index);
      if HasEntry(data, entry) {
        var k :| 0 <= k < |data| && EntryAt(data, k, entry);
        assert data[34 * k..34 * (k + 1)] == entry;
      }
      if !Unseen(s, height, hash, index) {
        var k :| 0 <= k < |data| && 34 * (k + 1) <= |data| && data[34 * k..34 * (k + 1)] == entry;
        assert EntryAt(data, k, entry);
      }
    }
  }

  // ----- Accepting -----

  /** After the routing: the contract's reserve, totals, observed deposits and the recipient's balance. */
  ghost predicate BookedAs(routed: State, after: State, height: uint64, hash: Hash, index: uint64, asset: string, amount: nat,
                           tax: nat, dest: string)
  {
    && after == routed.(balances := after.balances, supplies := after.supplies, gasReserve := routed.gasReserve + tax,
                        chain := routed.chain.(observed := Noted(routed, height, hash, index)))
    && TrackedBecomes(routed, after, asset, Tracked(routed, asset).active + amount, Tracked(routed, asset).user + (amount - tax),
                      Tracked(routed, asset).fee + tax)
    && (if dest == "" then after.balances == routed.balances else HeldChanges(routed, after, dest, asset, amount - tax))
  }

  lemma BookedExactly(routed: State, height: uint64, hash: Hash, index: uint64, asset: string, amount: nat, tax: nat, dest: string)
    ensures BookedAs(routed, H.Booked(routed, height, H.DepositMark(hash, index), asset, amount, tax, dest),
                     height, hash, index, asset, amount, tax, dest)
  {
    hide H.DepositMark, H.AddMark, Noted, Deposited, Credited, Held, Tracked;
    var after := H.Booked(routed, height, H.DepositMark(hash, index), asset, amount, tax, dest);
    NotedIs(routed, height, hash, index);
    DepositedIs(routed, after, asset, amount - tax, tax);
    CreditedIs(routed, after, dest, asset, amount - tax);
  }

  lemma NotedIs(s: State, height: uint64, hash: Hash, index: uint64)
    ensures H.AddMark(s.chain, height, H.DepositMark(hash, index)) == s.chain.(observed := Noted(s, height, hash, index))
  {
    EntryIs(hash, index);
    hide MakeEntry, EntryOf, H.DepositMark;
  }

  lemma DepositedIs(s: State, after: State, asset: string, userAmount: int, feeAmount: int)
    requires after.supplies == Deposited(s.supplies, asset, userAmount, feeAmount)
    ensures TrackedBecomes(s, after, asset, Tracked(s, asset).active + userAmount + feeAmount, Tracked(s, asset).user + userAmount,
                           Tracked(s, asset).fee + feeAmount)
  {
  }

  lemma CreditedIs(s: State, after: State, owner: string, asset: string, amount: int)
    ensures after.balances == Credited(s.balances, owner, asset, amount) ==> HeldChanges(s, after, owner, asset, amount)
  {
  }

  /** The routing itself: the recipient still to be credited is empty exactly when the swap went out. */
  ghost predicate RoutedAs(keccak: Hasher, s: State, routed: State, dest: string, asset: string, amount: nat, did: string,
                           instructions: seq<string>, call: H.RouterCall)
  {
    && routed == s.(balances := routed.balances, allowances := routed.allowances)
    && if GoesOut(s, instructions, call) then dest == "" && Swapped(keccak, s, routed, asset, amount, call.moves)
       else
         && dest == Recipient(did, instructions) != ""
         && (Held(s, s.self, asset) >= 0 ==> forall o, x :: Held(routed, o, x) == Held(s, o, x))
         && (if AsksSwap(s, instructions) then GrantBecomes(s, routed, s.self, "contract:" + s.router, asset, 0)
             else routed.allowances == s.allowances)
  }

  lemma RoutedExactly(keccak: Hasher, s: State, asset: string, amount: nat, did: H.Did, instructions: seq<string>,
                      call: H.RouterCall)
    requires amount > 0
    ensures var (routed, dest) := H.Routed(s, H.ReadInstructions(did, instructions), asset, amount, call);
      RoutedAs(keccak, s, routed, dest, asset, amount, did, instructions, call)
  {
    var r := H.ReadInstructions(did, instructions);
    InstructionsRead(did, instructions);
    SwapsAsAsked(s, did, instructions, call);
    DestNotEmpty(did, instructions);
    H.RoutedChanges(s, r, asset, amount, call);
    hide Named, H.ReadInstructions;
    if GoesOut(s, instructions, call) {
      SwapExactly(keccak, s, r, asset, amount, call);
    } else {
      hide H.ApplyMoves, Swapped;
      NoSwapExactly(s, r, asset, amount, call);
    }
  }

  lemma SwapExactly(keccak: Hasher, s: State, r: H.Routing, asset: string, amount: nat, call: H.RouterCall)
    requires SwappedOut(s, r, call)
    ensures H.Routed(s, r, asset, amount, call).1 == ""
    ensures Swapped(keccak, s, H.Routed(s, r, asset, amount, call).0, asset, amount, call.moves)
  {
    var funded := Funded(s, asset, amount);
    FundedIs(s, asset, amount);
    MovesAreCalls(keccak, funded, call.moves);
    H.MovesChange(funded, call.moves);
    var called := RunFrom(keccak, funded, MoveCalls(call.moves));
    var after := H.Routed(s, r, asset, amount, call).0;
    assert after == Closed(s, called, asset);
    hide H.Routed, RunFrom, Funded, IsFunded;
    ClosedIs(s, called, asset);
  }

  lemma ClosedIs(s: State, called: State, asset: string)
    ensures var after := Closed(s, called, asset);
      && (forall o, x :: Held(after, o, x) == Held(called, o, x))
      && GrantBecomes(called, after, s.self, "contract:" + s.router, asset, 0)
  {
  }

  lemma NoSwapExactly(s: State, r: H.Routing, asset: string, amount: nat, call: H.RouterCall)
    requires !SwappedOut(s, r, call) && amount > 0
    ensures var (routed, dest) := H.Routed(s, r, asset, amount, call);
      && dest == r.dest
      && (Held(s, s.self, asset) >= 0 ==> forall o, x :: Held(routed, o, x) == Held(s, o, x))
      && (if H.Swaps(s, r) then GrantBecomes(s, routed, s.self, "contract:" + s.router, asset, 0)
          else routed.allowances == s.allowances)
  {
    hide H.ApplyMoves;
  }

  lemma AcceptExactly(keccak: Hasher, s: State, height: uint64, hash: Hash, index: uint64, asset: string, amount: nat, tax: nat,
                      did: H.Did, instructions: seq<string>, call: H.RouterCall)
    requires amount > 0 && tax <= amount
    ensures Deposits(keccak, s, H.AcceptDeposit(s, height, H.DepositMark(hash, index), asset, amount, tax,
                                                H.ReadInstructions(did, instructions), call),
                     height, hash, index, asset, amount, tax, did, instructions, call)
  {
    hide H.Routed, H.Booked, H.ReadInstructions, H.DepositMark, RoutedAs, BookedAs, Deposits;
    RoutedExactly(keccak, s, asset, amount, did, instructions, call);
    var (routed, dest) := H.Routed(s, H.ReadInstructions(did, instructions), asset, amount, call);
    BookedExactly(routed, height, hash, index, asset, amount, tax, dest);
    var after := H.Booked(routed, height, H.DepositMark(hash, index), asset, amount, tax, dest);
    BothSteps(keccak, s, routed, after, dest, height, hash, index, asset, amount, tax, did, instructions, call);
  }

  lemma BothSteps(keccak: Hasher, s: State, routed: State, after: State, dest: string, height: uint64, hash: Hash, index: uint64,
                  asset: string, amount: nat, tax: nat, did: string, instructions: seq<string>, call: H.RouterCall)
    requires RoutedAs(keccak, s, routed, dest, asset, amount, did, instructions, call)
    requires BookedAs(routed, after, height, hash, index, asset, amount, tax, dest)
    ensures Deposits(keccak, s, after, height, hash, index, asset, amount, tax, did, instructions, call)
  {
    hide Named, EntryOf, AsksSwap, Swapped;
    SameGrants(routed, after);
    SameTotals(s, routed);
    if GoesOut(s, instructions, call) {
      SameReadings(keccak, s, routed, after, asset, amount, call.moves);
    }
    hide Held, Granted, Tracked;
  }

  lemma SameGrants(s: State, after: State)
    ensures after.allowances == s.allowances ==> forall o, p, x :: Granted(after, o, p, x) == Granted(s, o, p, x)
  {
  }

  lemma SameTotals(s: State, after: State)
    ensures after.supplies == s.supplies ==> forall x :: Tracked(after, x) == Tracked(s, x)
  {
  }

  lemma SameReadings(keccak: Hasher, s: State, routed: State, after: State, asset: string, amount: int, moves: seq<H.Move>)
    requires Swapped(keccak, s, routed, asset, amount, moves)
    requires after.balances == routed.balances && after.allowances == routed.allowances
    ensures Swapped(keccak, s, after, asset, amount, moves)
  {
    hide RunFrom, IsFunded;
    assert forall o, x :: Held(after, o, x) == Held(routed, o, x);
    assert forall o, p, x :: Granted(after, o, p, x) == Granted(routed, o, p, x);
  }

  // ----- The two deposit calls -----

  /**
   An ETH deposit is accepted from a registered relayer with a proof of a positive amount that was not observed
   before; it is taxed a hundredth, rounded down, and noted at its height.
   */
  lemma MapETHExactly(keccak: Hasher, s: State, a: Action)
    requires a.MapETH?
    ensures var r := Apply(keccak, s, a);
      && (r.Ok? <==> && !s.paused && s.vault != Zeros(20) && a.caller != "" && a.caller in s.relayers
                     && a.deposit.Deposit? && a.deposit.amount > 0 && Unseen(s, a.height, a.hash, a.index))
      && (r.Ok? ==>
            Deposits(keccak, s, r.value, a.height, a.hash, a.index, "eth", a.deposit.amount, a.deposit.amount / 100,
                     a.deposit.depositor, a.instructions, a.call))
  {
    hide H.AcceptDeposit, H.Marked, H.ReadInstructions, H.DepositMark, Deposits;
    UnseenIsUnmarked(s, a.height, a.hash, a.index);
    hide Unseen;
    if a.deposit.Deposit? && a.deposit.amount > 0 {
      AcceptExactly(keccak, s, a.height, a.hash, a.index, "eth", a.deposit.amount, a.deposit.amount / 100,
                    a.deposit.depositor, a.instructions, a.call);
    }
  }

  /** A token deposit needs no relayer, but a registered token; it is booked under the token's symbol, untaxed. */
  lemma MapERC20Exactly(keccak: Hasher, s: State, a: Action)
    requires a.MapERC20?
    ensures var r := Apply(keccak, s, a);
      && (r.Ok? <==> && !s.paused && s.vault != Zeros(20) && a.token.Some? && a.token.value in s.tokens
                     && a.deposit.Deposit? && a.deposit.amount > 0 && Unseen(s, a.height, a.hash, a.index))
      && (r.Ok? ==>
            Deposits(keccak, s, r.value, a.height, a.hash, a.index, s.tokens[a.token.value].symbol, a.deposit.amount, 0,
                     a.deposit.depositor, a.instructions, a.call))
  {
    hide H.AcceptDeposit, H.Marked, H.ReadInstructions, H.DepositMark, Deposits;
    UnseenIsUnmarked(s, a.height, a.hash, a.index);
    hide Unseen;
    if a.token.Some? && a.token.value in s.tokens && a.deposit.Deposit? && a.deposit.amount > 0 {
      AcceptExactly(keccak, s, a.height, a.hash, a.index, s.tokens[a.token.value].symbol, a.deposit.amount, 0,
                    a.deposit.depositor, a.instructions, a.call);
    }
  }
}
