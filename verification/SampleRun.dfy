/** A short run that queues the withdrawal of a token registered under a given symbol. */
module SampleRun {
  import opened ByteStrings
  import opened Blocklist
  import opened Ledger
  import opened Actions
  import Gas
  import H = Handlers
  import HeaderStores
  import Transactions

  const TOKEN: Address := Zeros(19) + [2]

  const VAULT: Address := Zeros(19) + [1]

  const HOLDER: H.Did := "did:pkh:eip155:1:0x01"

  function FirstBlock(): BlockEntry {
    BlockEntry(7, [], Zeros(32), Zeros(32), Zeros(32), 0, 0, 0, 1)
  }

  /** Register the token, make the contract ready, deposit 100 units and withdraw them. */
  function Calls(hash: Hash, symbol: string): (calls: seq<Action>)
    ensures |calls| == 6
  {
    [Configure(H.RegisterToken(TOKEN, TokenInfo(symbol, 1))), Configure(H.SetVault(VAULT)),
     Configure(H.SetGasReserve(H.MIN_GAS_RESERVE)), SeedBlock(FirstBlock()),
     MapERC20(Some(TOKEN), 7, hash, 0, H.Deposit(HOLDER, 100), [], H.CallFails),
     UnmapERC20(HOLDER, Some(100), Some(TOKEN), Some(VAULT), true)]
  }

  function Init(): State {
    Deployed(false, 1, "contract:bridge")
  }

  function Configured(symbol: string): State {
    Init().(tokens := map[TOKEN := TokenInfo(symbol, 1)], vault := VAULT, gasReserve := H.MIN_GAS_RESERVE)
  }

  function Seeded(symbol: string): State {
    var h := HeaderStores.HeaderOf(FirstBlock());
    Configured(symbol).(chain := Chain(map[7 := Serialize(h)], 7, map[]))
  }

  function Funded(hash: Hash, symbol: string): State {
    H.AcceptDeposit(Seeded(symbol), 7, H.DepositMark(hash, 0), symbol, 100, 0, H.Routing(HOLDER, "", "", ""), H.CallFails)
  }

  lemma Configures(keccak: Hasher, hash: Hash, symbol: string)
    ensures RunFrom(keccak, Init(), Calls(hash, symbol)[..3]) == Configured(symbol)
  {
    var init, actions := Init(), Calls(hash, symbol);
    var s1 := init.(tokens := map[TOKEN := TokenInfo(symbol, 1)]);
    assert map[][TOKEN := TokenInfo(symbol, 1)] == map[TOKEN := TokenInfo(symbol, 1)];
    assert Next(keccak, init, actions[0]) == s1;
    assert Next(keccak, s1, actions[1]) == s1.(vault := VAULT);
    assert Next(keccak, s1.(vault := VAULT), actions[2]) == Configured(symbol);
    hide Next;
    RunPrefix(keccak, init, actions, 0);
    RunPrefix(keccak, init, actions, 1);
    RunPrefix(keccak, init, actions, 2);
  }

  lemma Seeds(keccak: Hasher, hash: Hash, symbol: string)
    ensures Next(keccak, Configured(symbol), Calls(hash, symbol)[3]) == Seeded(symbol)
  {
    hide Serialize;
    var e := FirstBlock();
    assert e.(stateRoot := Zeros(32)) == e;
    assert map[][7 := Serialize(HeaderStores.HeaderOf(e))] == map[7 := Serialize(HeaderStores.HeaderOf(e))];
  }

  lemma Funds(keccak: Hasher, hash: Hash, symbol: string)
    ensures Next(keccak, Seeded(symbol), Calls(hash, symbol)[4]) == Funded(hash, symbol)
  {
    hide H.AcceptDeposit, Serialize;
    assert VAULT[19] != ZERO_ADDRESS[19];
    var none: seq<string> := [];
    assert H.ReadInstructions(HOLDER, none) == H.Routing(HOLDER, "", "", "");
  }

  /** The deposit went to the holder, and the header of the seed loads. */
  lemma FundedState(hash: Hash, symbol: string)
    ensures var s := Funded(hash, symbol);
      && s == Seeded(symbol).(balances := map[Account(HOLDER, symbol) := 100], supplies := map[symbol := Supply(100, 100, 0, 0)],
                                 chain := s.chain)
      && s.chain.headers == Seeded(symbol).chain.headers && s.chain.lastHeight == 7
      && H.Tip(s) == Some(HeaderStores.HeaderOf(FirstBlock()))
  {
    hide Serialize, DeserializeHeader;
    var h := HeaderStores.HeaderOf(FirstBlock());
    HeaderRoundTrip(h, []);
    assert Serialize(h) + [] == Serialize(h);
    assert Credited(map[], HOLDER, symbol, 100) == map[Account(HOLDER, symbol) := 100];
    assert Deposited(map[], symbol, 100, 0) == map[symbol := Supply(100, 100, 0, 0)];
  }

  /** The withdrawal it queues. */
  function Head(symbol: string): PendingSpend {
    HundredFits();
    PendingSpend(0, 100, HOLDER, VAULT, symbol, Some(TOKEN),
                 Transactions.BuildERC20WithdrawalTx(1, 0, H.GAS_TIP_CAP, H.GAS_TIP_CAP, TOKEN, VAULT, 100),
                 7, VAULT, 65_000 * 2_000_000_000)
  }

  lemma HundredFits()
    ensures |ToBigEndian(100)| == 1
  {
  }

  lemma Withdraws(keccak: Hasher, hash: Hash, symbol: string)
    ensures Apply(keccak, Funded(hash, symbol), Calls(hash, symbol)[5]).Ok?
    ensures var after := Next(keccak, Funded(hash, symbol), Calls(hash, symbol)[5]);
      after.confirmed == 0 && after.spends == map[0 := Head(symbol)]
      && after == Funded(hash, symbol).(balances := after.balances, supplies := after.supplies, gasReserve := after.gasReserve,
                                       spends := after.spends, pending := 1)
  {
    hide HeaderStores.GetHeader, Transactions.BuildERC20WithdrawalTx, Serialize;
    FundedState(hash, symbol);
    var s := Funded(hash, symbol);
    hide Funded;
    Gas.SafeGasFeeExact(Transactions.ERC20_TRANSFER_GAS, 0, 2, H.GAS_TIP_CAP);
    assert VAULT[19] != ZERO_ADDRESS[19];
    HundredFits();
    assert map[][0 := Head(symbol)] == map[0 := Head(symbol)];
  }

  lemma Reaches(keccak: Hasher, hash: Hash, symbol: string)
    ensures RunFrom(keccak, Init(), Calls(hash, symbol)[..5]) == Funded(hash, symbol)
    ensures RunFrom(keccak, Init(), Calls(hash, symbol)) == Next(keccak, Funded(hash, symbol), Calls(hash, symbol)[5])
  {
    var actions := Calls(hash, symbol);
    hide Calls, Next, Funded, Seeded, Configured, RunFrom, Init;
    Configures(keccak, hash, symbol);
    Seeds(keccak, hash, symbol);
    Funds(keccak, hash, symbol);
    RunPrefix(keccak, Init(), actions, 3);
    RunPrefix(keccak, Init(), actions, 4);
    RunPrefix(keccak, Init(), actions, 5);
    assert actions[..6] == actions;
  }
}
