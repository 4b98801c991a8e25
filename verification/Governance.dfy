/** The contract with its book of proposals: admin calls reach the stored state only through owner and timelock. */
module Governance {
  import opened ByteStrings
  import opened Blocklist
  import opened Ledger
  import opened Actions
  import opened ConfirmationTheorems
  import opened HeaderRuns
  import opened Proposals
  import opened WithdrawalQueue
  import P = ProposalTheorems

  /** The name under which an admin call is proposed. */
  function AdminName(a: Action): Option<string> {
    match a
    case Configure(SetVault(_)) => Some("setVault")
    case Configure(SetGasReserve(_)) => Some("setGasReserve")
    case Configure(RegisterToken(_, _)) => Some("registerToken")
    case Configure(RegisterRouter(_)) => Some("registerRouter")
    case Configure(RegisterRelayer(_)) => Some("registerRelayer")
    case Configure(DeregisterRelayer(_)) => Some("deregisterRelayer")
    case SeedBlock(_) => Some("seedBlocks")
    case ReplaceBlock(_) => Some("replaceBlock")
    case ReplaceWithdrawal => Some("replaceWithdrawal")
    case ClearNonce(_) => Some("clearNonce")
    case ClearTestnetState => Some("clearTestnetState")
    case Pause => Some("pause")
    case Unpause => Some("unpause")
    case _ => None
  }

  /** The calls open to everybody. */
  type UserAction = a: Action | AdminName(a).None? && !a.AddBlocks? witness Transfer("", "", "", None)

  /** What a payload asks for: nothing readable, something outside the modelled state, a new oracle account, or an admin call. */
  datatype Dispatched = Unreadable | Outside | NamesOracle(account: string) | Performs(action: Action)

  /** Reading a payload may depend on the state, as the verdict on a drop proof does. */
  type Decoder = (State, string, Bytes) -> Dispatched

  /** What does not change: the hash, how payloads are read, and the owner, if the host knows one. */
  datatype Env = Env(keccak: Hasher, decode: Decoder, owner: Option<string>)

  /** The oracle account is empty when none is set. */
  datatype World = World(admin: P.World, bridge: State, oracle: string)

  datatype Call =
    | User(action: UserAction)
    | Feed(caller: string, entries: seq<BlockEntry>)
    | Propose(caller: string, name: string, payload: Bytes, height: uint64)
    | Execute(caller: string, id: uint64, height: uint64)
    | Cancel(caller: string, id: uint64)
    | Expire(id: uint64, height: uint64)

  /** checkOwner and checkOracleAccount; users' calls and the expiry of proposals are open. */
  predicate Authorised(env: Env, w: World, c: Call) {
    match c
    case User(_) => true
    case Expire(_, _) => true
    case Feed(caller, _) => env.owner == Some(caller) || (w.oracle != "" && caller == w.oracle)
    case _ => env.owner == Some(c.caller)
  }

  /** What a dispatched proposal leaves, unless the dispatch aborts. */
  function Dispatch(env: Env, w: World, p: Proposal): Option<World> {
    match env.decode(w.bridge, p.action, p.payload)
    case Unreadable => None
    case Outside => if w.bridge.paused then None else Some(w)
    case NamesOracle(account) =>
      if p.action != "setOracleAccount" || w.bridge.paused || account == "" then None else Some(w.(oracle := account))
    case Performs(a) =>
      if AdminName(a) != Some(p.action) then None
      else
        match Apply(env.keccak, w.bridge, a)
        case Ok(after) => Some(w.(bridge := after))
        case Err(_) => None
  }

  /** The outcome of executing a proposal, or nothing when it is refused or aborts. */
  function Executed(env: Env, w: World, id: uint64, height: uint64): Option<World> {
    match ExecuteValidated(env.keccak, w.admin.book, id, height)
    case Err(_) => None
    case Ok((_, p)) => Dispatch(env, w, p)
  }

  /** What a call means to the book: an execution that leaves no state is undone. */
  function BookCall(env: Env, w: World, c: Call): Option<P.Action> {
    match c
    case User(_) => None
    case Feed(_, _) => None
    case Propose(caller, name, payload, height) => Some(P.Submit(name, payload, caller, height))
    case Execute(_, id, height) => Some(P.Execute(id, height, Executed(env, w, id, height).None?))
    case Cancel(_, id) => Some(P.Withdraw(id))
    case Expire(id, height) => Some(P.Expire(id, height))
  }

  function Step(env: Env, w: World, c: Call): World {
    if !Authorised(env, w, c) then w
    else
      match c
      case User(a) => w.(bridge := Next(env.keccak, w.bridge, a))
      case Feed(_, entries) => w.(bridge := Next(env.keccak, w.bridge, AddBlocks(entries)))
      case Execute(_, id, height) =>
        var done := if Executed(env, w, id, height).Some? then Executed(env, w, id, height).value else w;
        done.(admin := P.Step(env.keccak, w.admin, BookCall(env, w, c).value))
      case _ => w.(admin := P.Step(env.keccak, w.admin, BookCall(env, w, c).value))
  }

  function Run(env: Env, init: State, oracle: string, calls: seq<Call>): World {
    if calls == [] then World(P.Init, init, oracle)
    else Step(env, Run(env, init, oracle, calls[..|calls| - 1]), calls[|calls| - 1])
  }

  lemma RunNext(env: Env, init: State, oracle: string, calls: seq<Call>, n: nat)
    requires n < |calls|
    ensures Run(env, init, oracle, calls[..n + 1]) == Step(env, Run(env, init, oracle, calls[..n]), calls[n])
  {
    hide Step;
    assert calls[..n + 1][..n] == calls[..n];
  }

  // ----- The book of a run -----

  ghost predicate LowHeights(calls: seq<Call>) {
    forall c :: c in calls && c.Propose? ==> c.height + P.MAX_DELAY < TWO_64
  }

  /** Inside the whole contract the book keeps its invariant: fresh ids, windows, and each id accepted once. */
  lemma {:induction false} BookInvariant(env: Env, init: State, oracle: string, calls: seq<Call>)
    requires LowHeights(calls) && |calls| < TWO_64 - 2
    ensures var w := Run(env, init, oracle, calls);
      P.Inv(env.keccak, w.admin) && |w.admin.submitted| <= |calls|
  {
    if calls != [] {
      hide P.Inv, P.Step, Executed, Next, Authorised;
      var front, c := calls[..|calls| - 1], calls[|calls| - 1];
      assert c in calls && forall x :: x in front ==> x in calls;
      BookInvariant(env, init, oracle, front);
      var w := Run(env, init, oracle, front);
      if Authorised(env, w, c) && BookCall(env, w, c).Some? {
        if c.Execute? {
          ExecutedKeepsBook(env, w, c.id, c.height);
        }
        P.StepInv(env.keccak, w.admin, BookCall(env, w, c).value);
      }
    } else {
      EmptyBook(env.keccak);
    }
  }

  lemma EmptyBook(keccak: Hasher)
    ensures P.Inv(keccak, P.Init)
  {
  }

  lemma ExecutedKeepsBook(env: Env, w: World, id: uint64, height: uint64)
    ensures Executed(env, w, id, height).Some? ==> Executed(env, w, id, height).value.admin == w.admin
  {
    hide Apply, AdminName, ExecuteValidated;
  }

  // ----- Admin calls wait -----

  /** The owner executed, inside its window, a proposal submitted under that name. */
  ghost predicate ExecutedInWindow(env: Env, w: World, c: Call) {
    && c.Execute? && env.owner == Some(c.caller)
    && 1 <= c.id <= |w.admin.submitted| && P.InWindow(w.admin.submitted[c.id - 1], c.height)
  }

  /** The bridge made an admin step of that name, read from a proposal submitted a timelock before. */
  ghost predicate Waited(env: Env, w: World, c: Call, after: State) {
    && ExecutedInWindow(env, w, c)
    && var s := w.admin.submitted[c.id - 1];
    && var d := env.decode(w.bridge, s.action, s.payload);
    && d.Performs? && AdminName(d.action) == Some(s.action)
    && Apply(env.keccak, w.bridge, d.action) == Ok(after)
  }

  lemma ExecutedWaited(env: Env, w: World, c: Call)
    requires P.Inv(env.keccak, w.admin) && c.Execute? && Authorised(env, w, c) && Executed(env, w, c.id, c.height).Some?
    ensures ExecutedInWindow(env, w, c)
    ensures var done := Executed(env, w, c.id, c.height).value;
      && (done.bridge == w.bridge || Waited(env, w, c, done.bridge))
      && (done.oracle == w.oracle || (w.admin.submitted[c.id - 1].action == "setOracleAccount" && done.bridge == w.bridge))
  {
    hide Apply, AdminName, TimelockFor, P.AcceptedRight;
    assert P.Faithful(env.keccak, w.admin.book.proposals[c.id], c.id, w.admin.submitted[c.id - 1]);
  }

  /**
   Over every run, whatever the payloads are read as: apart from users' calls and the header feed, the bridge
   changes only by the owner's executing a proposal, inside its window, and the change is that of the admin call
   it was submitted as.
   */
  lemma AdminWaits(env: Env, init: State, oracle: string, calls: seq<Call>, n: nat)
    requires LowHeights(calls) && |calls| < TWO_64 - 2 && n < |calls| && !calls[n].User? && !calls[n].Feed?
    ensures var w, after := Run(env, init, oracle, calls[..n]), Run(env, init, oracle, calls[..n + 1]);
      after.bridge == w.bridge || Waited(env, w, calls[n], after.bridge)
  {
    hide P.Inv, P.Step, Executed, Waited, ExecutedInWindow, Run, Authorised;
    BookBefore(env, init, oracle, calls, n);
    RunNext(env, init, oracle, calls, n);
    var w, c := Run(env, init, oracle, calls[..n]), calls[n];
    if c.Execute? && Authorised(env, w, c) && Executed(env, w, c.id, c.height).Some? {
      ExecutedWaited(env, w, c);
    }
  }

  lemma BookBefore(env: Env, init: State, oracle: string, calls: seq<Call>, n: nat)
    requires LowHeights(calls) && |calls| < TWO_64 - 2 && n < |calls|
    ensures P.Inv(env.keccak, Run(env, init, oracle, calls[..n]).admin)
  {
    hide P.Inv, Run;
    var front := calls[..n];
    assert forall x :: x in front ==> x in calls;
    BookInvariant(env, init, oracle, front);
  }

  /** In particular the vault only moves 400000 blocks after it was proposed that it should. */
  lemma VaultWaits(env: Env, init: State, oracle: string, calls: seq<Call>, n: nat)
    requires LowHeights(calls) && |calls| < TWO_64 - 2 && n < |calls|
    requires Run(env, init, oracle, calls[..n + 1]).bridge.vault != Run(env, init, oracle, calls[..n]).bridge.vault
    ensures calls[n].Execute? && env.owner == Some(calls[n].caller)
    ensures var submitted := Run(env, init, oracle, calls[..n]).admin.submitted;
      && 1 <= calls[n].id <= |submitted|
      && var s := submitted[calls[n].id - 1];
      s.action == "setVault" && s.height + TIMELOCK_LONG <= calls[n].height
  {
    hide P.Step, Executed, Apply, Run, Authorised;
    var w, c := Run(env, init, oracle, calls[..n]), calls[n];
    RunNext(env, init, oracle, calls, n);
    if c.User? || c.Feed? {
      VaultKept(env.keccak, w.bridge, if c.User? then c.action else AddBlocks(c.entries));
      assert false;
    } else {
      AdminWaits(env, init, oracle, calls, n);
      var s := w.admin.submitted[c.id - 1];
      var a := env.decode(w.bridge, s.action, s.payload).action;
      if !(a.Configure? && a.setting.SetVault?) {
        VaultKept(env.keccak, w.bridge, a);
        assert false;
      }
    }
  }

  /** The oracle account changes only with a proposal to set it that the owner executes, 7200 blocks on or later. */
  lemma OracleWaits(env: Env, init: State, oracle: string, calls: seq<Call>, n: nat)
    requires LowHeights(calls) && |calls| < TWO_64 - 2 && n < |calls|
    requires Run(env, init, oracle, calls[..n + 1]).oracle != Run(env, init, oracle, calls[..n]).oracle
    ensures calls[n].Execute? && env.owner == Some(calls[n].caller)
    ensures var submitted := Run(env, init, oracle, calls[..n]).admin.submitted;
      && 1 <= calls[n].id <= |submitted|
      && var s := submitted[calls[n].id - 1];
      s.action == "setOracleAccount" && s.height + TIMELOCK_OPERATIONAL <= calls[n].height
  {
    hide P.Inv, P.Step, Executed, Run, Authorised;
    var w, c := Run(env, init, oracle, calls[..n]), calls[n];
    BookBefore(env, init, oracle, calls, n);
    RunNext(env, init, oracle, calls, n);
    ExecutedWaited(env, w, c);
  }

  /**
   Every header came in through one of two doors: a feed by the owner or by the oracle account of that moment, or
   a seed or replacement that waited for its proposal's window.
   */
  lemma HeadersGated(env: Env, init: State, oracle: string, calls: seq<Call>, n: nat)
    requires LowHeights(calls) && |calls| < TWO_64 - 2 && n < |calls|
    requires !SameWindow(Run(env, init, oracle, calls[..n]).bridge.chain, Run(env, init, oracle, calls[..n + 1]).bridge.chain)
    ensures var w, after, c := Run(env, init, oracle, calls[..n]), Run(env, init, oracle, calls[..n + 1]), calls[n];
      || (c.Feed? && (env.owner == Some(c.caller) || (w.oracle != "" && c.caller == w.oracle)))
      || (Waited(env, w, c, after.bridge) && w.admin.submitted[c.id - 1].action in {"seedBlocks", "replaceBlock"})
  {
    hide P.Step, Executed, Apply, Run;
    var w, c := Run(env, init, oracle, calls[..n]), calls[n];
    RunNext(env, init, oracle, calls, n);
    if c.User? {
      OtherKeepsWindow(env.keccak, w.bridge, c.action);
      assert false;
    } else if !c.Feed? {
      AdminWaits(env, init, oracle, calls, n);
      var s := w.admin.submitted[c.id - 1];
      var a := env.decode(w.bridge, s.action, s.payload).action;
      if !MovesHeaders(a) {
        OtherKeepsWindow(env.keccak, w.bridge, a);
        assert false;
      }
    }
  }

  /** The book of proposals changes by the owner's calls alone, but for expiry, which is open to all. */
  lemma BookGated(env: Env, init: State, oracle: string, calls: seq<Call>, n: nat)
    requires n < |calls|
    requires Run(env, init, oracle, calls[..n + 1]).admin != Run(env, init, oracle, calls[..n]).admin
    ensures calls[n].Expire?
      || ((calls[n].Propose? || calls[n].Execute? || calls[n].Cancel?) && env.owner == Some(calls[n].caller))
  {
    hide P.Step, Executed, Apply, Run;
    RunNext(env, init, oracle, calls, n);
  }

  // ----- The bridge of a run -----

  /** The bridge's own calls: those of users and of the feed, and those that executed proposals perform. */
  function BridgeCalls(env: Env, init: State, oracle: string, calls: seq<Call>): seq<Action> {
    if calls == [] then []
    else
      var front, c := calls[..|calls| - 1], calls[|calls| - 1];
      BridgeCalls(env, init, oracle, front) + BridgeCall(env, Run(env, init, oracle, front), c)
  }

  function BridgeCall(env: Env, w: World, c: Call): seq<Action> {
    if !Authorised(env, w, c) then []
    else
      match c
      case User(a) => [a]
      case Feed(_, entries) => [AddBlocks(entries)]
      case Execute(_, id, height) =>
        if Executed(env, w, id, height).None? then []
        else
          var p := ExecuteValidated(env.keccak, w.admin.book, id, height).value.1;
          (match env.decode(w.bridge, p.action, p.payload) case Performs(a) => [a] case _ => [])
      case _ => []
  }

  /** So every theorem about runs of the bridge holds under governance too. */
  lemma {:induction false} BridgeIsRun(env: Env, init: State, oracle: string, calls: seq<Call>)
    ensures Run(env, init, oracle, calls).bridge == RunFrom(env.keccak, init, BridgeCalls(env, init, oracle, calls))
    ensures |BridgeCalls(env, init, oracle, calls)| <= |calls|
  {
    if calls != [] {
      hide Step, BridgeCall, Next;
      var front, c := calls[..|calls| - 1], calls[|calls| - 1];
      BridgeIsRun(env, init, oracle, front);
      var w, before := Run(env, init, oracle, front), BridgeCalls(env, init, oracle, front);
      BridgeStep(env, w, c);
      var more := BridgeCall(env, w, c);
      if more == [] {
        assert before + more == before;
      } else {
        var longer := before + more;
        assert longer[..|longer| - 1] == before;
      }
    }
  }

  lemma BridgeStep(env: Env, w: World, c: Call)
    ensures var more := BridgeCall(env, w, c);
      && |more| <= 1
      && Step(env, w, c).bridge == if more == [] then w.bridge else Next(env.keccak, w.bridge, more[0])
  {
    hide P.Step, Apply, AdminName;
  }
}
