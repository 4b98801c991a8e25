/** A run in which a spender costs the owner more than was granted: the fee of an unmapFrom of ether comes on top. */
module OverdrawnRun {
  import opened ByteStrings
  import opened Blocklist
  import opened Ledger
  import opened Accounts
  import opened Actions
  import opened RoutingTheorems
  import opened SpendTheorems
  import opened TransferTheorems
  import opened UnmapTheorems
  import H = Handlers
  import HeaderStores
  import SampleRun

  const OWNER: H.Did := "did:pkh:eip155:1:0x01"

  const VAULT: Address := SampleRun.VAULT

  /** Make the contract ready, deposit 0.02 ether, grant half of that, and let the spender withdraw it. */
  function Calls(hash: Hash): (calls: seq<Action>)
    ensures |calls| == 7
  {
    [Configure(H.SetVault(VAULT)), Configure(H.SetGasReserve(50_000_000_000_000_000)), Configure(H.RegisterRelayer("relay")),
     SeedBlock(SampleRun.FirstBlock()),
     MapETH("relay", 7, hash, 0, H.Deposit(OWNER, 20_000_000_000_000_000), [], H.CallFails),
     Approve(OWNER, "spender", "eth", Some(10_000_000_000_000_000)),
     UnmapFrom("spender", OWNER, "eth", Some(10_000_000_000_000_000), None, Some(VAULT), H.NoCap, false, true)]
  }

  function Init(): State {
    Deployed(false, 1, "contract:bridge")
  }

  function Configured(): State {
    Init().(vault := VAULT, gasReserve := 50_000_000_000_000_000, relayers := {"relay"})
  }

  function Seeded(): State {
    Configured().(chain := Chain(map[7 := Serialize(HeaderStores.HeaderOf(SampleRun.FirstBlock()))], 7, map[]))
  }

  lemma Configures(keccak: Hasher, hash: Hash)
    ensures RunFrom(keccak, Init(), Calls(hash)[..3]) == Configured()
  {
    var init, actions := Init(), Calls(hash);
    var s1 := init.(vault := VAULT);
    var s2 := s1.(gasReserve := 50_000_000_000_000_000);
    assert Next(keccak, init, actions[0]) == s1;
    assert Next(keccak, s1, actions[1]) == s2;
    assert {} + {"relay"} == {"relay"};
    assert Next(keccak, s2, actions[2]) == Configured();
    hide Next;
    RunPrefix(keccak, init, actions, 0);
    RunPrefix(keccak, init, actions, 1);
    RunPrefix(keccak, init, actions, 2);
  }

  lemma Seeds(keccak: Hasher, hash: Hash)
    ensures Next(keccak, Configured(), Calls(hash)[3]) == Seeded()
    ensures TipHeader(Seeded()).Some? && TipBase(Seeded()) == 0
  {
    hide Serialize, DeserializeHeader;
    var e := SampleRun.FirstBlock();
    HeaderRoundTrip(HeaderStores.HeaderOf(e), []);
    assert Serialize(HeaderStores.HeaderOf(e)) + [] == Serialize(HeaderStores.HeaderOf(e));
    assert e.(stateRoot := Zeros(32)) == e;
    assert map[][7 := Serialize(HeaderStores.HeaderOf(e))] == map[7 := Serialize(HeaderStores.HeaderOf(e))];
  }

  /** Ready to withdraw from, with that much on the owner's account and in the totals. */
  predicate Ready(s: State, granted: int) {
    && !s.paused && s.pending == s.confirmed && s.gasReserve >= 50_000_000_000_000_000
    && TipHeader(s).Some? && TipBase(s) == 0
    && Held(s, OWNER, "eth") == 19_800_000_000_000_000 && Granted(s, OWNER, "spender", "eth") == granted
    && Tracked(s, "eth").active == 20_000_000_000_000_000 && Tracked(s, "eth").user == 19_800_000_000_000_000
  }

  lemma Funds(keccak: Hasher, hash: Hash)
    ensures Apply(keccak, Seeded(), Calls(hash)[4]).Ok?
    ensures Ready(Next(keccak, Seeded(), Calls(hash)[4]), 0)
  {
    Seeds(keccak, hash);
    var s, a := Seeded(), Calls(hash)[4];
    assert VAULT[19] != Zeros(20)[19];
    assert Unseen(s, 7, hash, 0);
    var none: seq<string> := [];
    assert !AsksSwap(s, none) && Recipient(OWNER, none) == OWNER;
    hide Apply, Serialize, HeaderStores.GetHeader, Noted, Unseen, AsksSwap, Recipient, Swapped;
    MapETHExactly(keccak, s, a);
  }

  lemma Grants(keccak: Hasher, s: State, hash: Hash)
    requires Ready(s, 0)
    ensures Apply(keccak, s, Calls(hash)[5]).Ok? && Ready(Next(keccak, s, Calls(hash)[5]), 10_000_000_000_000_000)
  {
    hide Apply, HeaderStores.GetHeader;
    ApproveExactly(keccak, s, OWNER, "spender", "eth", Some(10_000_000_000_000_000));
  }

  lemma Withdraws(keccak: Hasher, s: State, hash: Hash)
    requires Ready(s, 10_000_000_000_000_000)
    ensures var r := Apply(keccak, s, Calls(hash)[6]);
      && r.Ok? && Held(r.value, OWNER, "eth") == 9_758_000_000_000_000 && Granted(r.value, OWNER, "spender", "eth") == 0
  {
    hide Apply, HeaderStores.GetHeader, ETHSpend, TokenSpend, QueuesSpend, TrackedBecomes;
    assert VAULT[19] != Zeros(20)[19];
    UnmapFromExactly(keccak, s, Calls(hash)[6]);
  }

  /** The grant was 0.01 ether, and the owner is 0.010042 ether poorer. */
  lemma SpenderOverdraws(keccak: Hasher, hash: Hash)
    ensures var before, after := RunFrom(keccak, Init(), Calls(hash)[..6]), RunFrom(keccak, Init(), Calls(hash));
      && Granted(before, OWNER, "spender", "eth") == 10_000_000_000_000_000 && Granted(after, OWNER, "spender", "eth") == 0
      && Held(before, OWNER, "eth") - Held(after, OWNER, "eth") == 10_042_000_000_000_000
  {
    var actions := Calls(hash);
    hide Calls, RunFrom, Apply, Init, Configured, Seeded, HeaderStores.GetHeader, Held, Granted, Tracked;
    Configures(keccak, hash);
    Seeds(keccak, hash);
    RunPrefix(keccak, Init(), actions, 3);
    Funds(keccak, hash);
    RunPrefix(keccak, Init(), actions, 4);
    Grants(keccak, RunFrom(keccak, Init(), actions[..5]), hash);
    RunPrefix(keccak, Init(), actions, 5);
    Withdraws(keccak, RunFrom(keccak, Init(), actions[..6]), hash);
    RunPrefix(keccak, Init(), actions, 6);
    assert actions[..7] == actions;
  }
}
