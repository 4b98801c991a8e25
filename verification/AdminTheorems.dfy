/** Administration: what each setting changes, what a pause stops, and the names and delays of the admin calls. */
module AdminTheorems {
  import opened ByteStrings
  import opened Blocklist
  import opened Ledger
  import opened Actions
  import opened Proposals
  import Governance
  import P = ProposalTheorems
  import H = Handlers
  import HeaderStores

  // ----- Settings -----

  /** A setting waits for unpausing and writes its own field; a relayer's name must not be empty. */
  lemma SettingExactly(keccak: Hasher, s: State, c: H.Setting)
    ensures var r := Apply(keccak, s, Configure(c));
      && (r.Ok? <==> !s.paused && (c.RegisterRelayer? || c.DeregisterRelayer? ==> c.account != ""))
      && (r.Ok? ==>
            match c
            case SetVault(vault) => r.value == s.(vault := vault)
            case SetGasReserve(amount) => r.value == s.(gasReserve := amount)
            case RegisterToken(token, info) => r.value == s.(tokens := s.tokens[token := info])
            case RegisterRouter(router) => r.value == s.(router := router)
            case RegisterRelayer(account) => r.value == s.(relayers := s.relayers + {account})
            case DeregisterRelayer(account) => r.value == s.(relayers := s.relayers - {account}))
  {
  }

  lemma PauseExactly(keccak: Hasher, s: State)
    ensures Apply(keccak, s, Pause) == Ok(s.(paused := true)) && Apply(keccak, s, Unpause) == Ok(s.(paused := false))
  {
  }

  /** While paused every call is refused, but pausing, unpausing and the header feed. */
  lemma PausedRefuses(keccak: Hasher, s: State, a: Action)
    requires s.paused && !a.Pause? && !a.Unpause? && !a.AddBlocks?
    ensures Apply(keccak, s, a) == Err(Paused)
  {
  }

  /** Header calls change the stored chain and nothing else. */
  lemma HeaderCallsExactly(keccak: Hasher, s: State, e: BlockEntry, es: seq<BlockEntry>)
    ensures Chained(s, HeaderStores.SeedBlock(s.chain, e, s.chainId), !s.paused, Apply(keccak, s, SeedBlock(e)))
    ensures Chained(s, HeaderStores.ReplaceBlock(s.chain, e, s.chainId), !s.paused, Apply(keccak, s, ReplaceBlock(e)))
    ensures Chained(s, HeaderStores.AddBlocks(keccak, s.chain, es, s.chainId), true, Apply(keccak, s, AddBlocks(es)))
  {
    hide HeaderStores.SeedBlock, HeaderStores.ReplaceBlock, HeaderStores.AddBlocks;
  }

  predicate Chained(s: State, c: Result<Chain, Blocklist.Error>, open: bool, r: H.Outcome) {
    (r.Ok? <==> open && c.Ok?) && (r.Ok? ==> r.value == s.(chain := c.value))
  }

  // ----- Names and delays -----

  /** How many blocks a proposal of that name waits. */
  function Delay(name: string): Option<nat> {
    if name == "setVault" || name == "setVerifierContract" || name == "createKey" || name == "renewKey" then Some(400_000)
    else if name == "registerPublicKey" || name == "replaceBlock" || name == "replaceWithdrawal" || name == "clearNonce" then
      Some(28_800)
    else if name == "registerToken" || name == "registerRouter" || name == "setGasReserve" || name == "seedBlocks"
            || name == "setOracleAccount" || name == "registerRelayer" || name == "deregisterRelayer"
            || name == "clearTestnetState" then Some(7_200)
    else if name == "pause" || name == "unpause" then Some(0)
    else None
  }

  /** The window of a submission: from its name's delay on, for 201600 blocks. */
  lemma WindowInBlocks(s: P.Submission, height: uint64)
    ensures P.InWindow(s, height) <==>
      Delay(s.action).Some? && s.height + Delay(s.action).value <= height < s.height + Delay(s.action).value + 201_600
  {
    DelayExactly(s.action);
  }

  lemma DelayExactly(name: string)
    ensures TimelockFor(name).Some? <==> Delay(name).Some?
    ensures TimelockFor(name).Some? ==> TimelockFor(name).value == Delay(name).value
  {
  }

  // ----- One call to the book -----

  /** A known name is filed under the next id, pending, with its window; the counter moves past the id. */
  lemma ProposeExactly(keccak: Hasher, b: Book, name: string, payload: Bytes, proposer: string, height: uint64)
    requires height + 601_600 < TWO_64
    ensures var r := Propose(keccak, b, name, payload, proposer, height);
      && (r.Ok? <==> Delay(name).Some?)
      && (r.Ok? ==>
            var (after, id) := r.value;
            var from := height + Delay(name).value;
            && id == (if b.counter.Some? && b.counter.value > 0 then b.counter.value else 1)
            && after.counter == Some(Wrap64(id + 1))
            && after.proposals == b.proposals[
                 id := Proposal(id, name, keccak(payload), proposer, height, from, from + 201_600, payload, Pending)])
  {
    DelayExactly(name);
    hide TimelockFor;
    assert Delay(name).Some? ==> Delay(name).value <= 400_000;
  }

  predicate IsPending(b: Book, id: uint64) {
    id in b.proposals && b.proposals[id].status == Pending
  }

  /** Only a pending proposal is executed, inside its window and with the payload it was filed with; then it is accepted. */
  lemma ExecuteExactly(keccak: Hasher, b: Book, id: uint64, height: uint64)
    ensures var r := ExecuteValidated(keccak, b, id, height);
      && (r.Ok? <==> && IsPending(b, id) && b.proposals[id].execHeight <= height < b.proposals[id].expireHeight
                     && keccak(b.proposals[id].payload) == b.proposals[id].payloadHash)
      && (r.Ok? ==>
            var p := b.proposals[id].(status := Accepted);
            r.value == (b.(proposals := b.proposals[p.id := p]), p))
  {
  }

  /** Only a pending proposal is cancelled. */
  lemma CancelExactly(b: Book, id: uint64)
    ensures Cancel(b, id).Ok? <==> IsPending(b, id)
    ensures IsPending(b, id) ==>
      var p := b.proposals[id].(status := Cancelled);
      Cancel(b, id) == Ok(b.(proposals := b.proposals[p.id := p]))
  {
  }

  /** Only a pending proposal past its window expires. */
  lemma ExpireExactly(b: Book, id: uint64, height: uint64)
    ensures ExpireProposal(b, id, height).Ok? <==> IsPending(b, id) && height >= b.proposals[id].expireHeight
    ensures ExpireProposal(b, id, height).Ok? ==>
      var p := b.proposals[id].(status := Expired);
      ExpireProposal(b, id, height) == Ok(b.(proposals := b.proposals[p.id := p]))
  {
  }

  /** The name under which each admin call is proposed; a call of any other kind has none. */
  lemma NamesExactly(a: Action, name: string)
    ensures Governance.AdminName(a) == Some(name) <==>
      || (a.Configure? && a.setting.SetVault? && name == "setVault")
      || (a.Configure? && a.setting.SetGasReserve? && name == "setGasReserve")
      || (a.Configure? && a.setting.RegisterToken? && name == "registerToken")
      || (a.Configure? && a.setting.RegisterRouter? && name == "registerRouter")
      || (a.Configure? && a.setting.RegisterRelayer? && name == "registerRelayer")
      || (a.Configure? && a.setting.DeregisterRelayer? && name == "deregisterRelayer")
      || (a.SeedBlock? && name == "seedBlocks") || (a.ReplaceBlock? && name == "replaceBlock")
      || (a.ReplaceWithdrawal? && name == "replaceWithdrawal") || (a.ClearNonce? && name == "clearNonce")
      || (a.ClearTestnetState? && name == "clearTestnetState")
      || (a.Pause? && name == "pause") || (a.Unpause? && name == "unpause")
  {
  }

  // ----- One call under governance -----

  /** The owner's proposal is filed as it was made, if its name is known; anybody else's is not. */
  lemma FiledExactly(env: Governance.Env, w: Governance.World, caller: string, name: string, payload: Bytes, height: uint64)
    ensures Governance.Step(env, w, Governance.Propose(caller, name, payload, height)).admin.submitted
      == w.admin.submitted
         + if env.owner == Some(caller) && Delay(name).Some? then [P.Submission(name, payload, caller, height)] else []
  {
    DelayExactly(name);
    hide TimelockFor;
  }

  /** Users' calls and expiry are open; the feed is the owner's and the oracle account's; everything else is the owner's. */
  lemma GatesExactly(env: Governance.Env, w: Governance.World, c: Governance.Call)
    ensures Governance.Authorised(env, w, c) <==>
      || c.User? || c.Expire?
      || (c.Feed? && (env.owner == Some(c.caller) || (w.oracle != "" && c.caller == w.oracle)))
      || ((c.Propose? || c.Execute? || c.Cancel?) && env.owner == Some(c.caller))
    ensures !Governance.Authorised(env, w, c) ==> Governance.Step(env, w, c) == w
    ensures c.Feed? && Governance.Authorised(env, w, c) ==>
      Governance.Step(env, w, c) == w.(bridge := Next(env.keccak, w.bridge, AddBlocks(c.entries)))
  {
    hide Next, P.Step, Governance.Executed;
  }

  /** What executing a proposal's payload asks of the state, once the timelock lets it through. */
  predicate MayPerform(env: Governance.Env, w: Governance.World, name: string, payload: Bytes) {
    match env.decode(w.bridge, name, payload)
    case Unreadable => false
    case Outside => !w.bridge.paused
    case NamesOracle(account) => name == "setOracleAccount" && !w.bridge.paused && account != ""
    case Performs(a) => Governance.AdminName(a) == Some(name) && Apply(env.keccak, w.bridge, a).Ok?
  }

  /** An execution goes through exactly for a pending proposal in its window whose payload may be performed. */
  lemma PerformedExactly(env: Governance.Env, w: Governance.World, id: uint64, height: uint64)
    ensures Governance.Executed(env, w, id, height).Some? <==>
      && ExecuteValidated(env.keccak, w.admin.book, id, height).Ok?
      && MayPerform(env, w, w.admin.book.proposals[id].action, w.admin.book.proposals[id].payload)
  {
    hide Apply, Governance.AdminName;
  }
}
