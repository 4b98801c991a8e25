/** A run that debits one token and sends another: unmapFrom never compares the asset with the token's symbol. */
module MispairedRun {
  import opened ByteStrings
  import opened Blocklist
  import opened Ledger
  import opened Actions
  import opened SampleRun
  import opened TokenTheorems
  import opened UserTotalTheorems
  import Gas
  import H = Handlers
  import HeaderStores
  import Transactions

  const OTHER: Address := Zeros(19) + [3]

  /** The holder of the sample run's deposit lets a spender withdraw it, and the spender names another token. */
  function MispairedCalls(hash: Hash): (calls: seq<Action>)
    ensures |calls| == 8
  {
    Calls(hash, "usd")[..5]
    + [Configure(H.RegisterToken(OTHER, TokenInfo("eur", 1))), Approve(HOLDER, "spender", "usd", Some(100)),
       UnmapFrom("spender", HOLDER, "usd", Some(100), Some(OTHER), Some(SampleRun.VAULT), H.NoCap, false, true)]
  }

  function Granted(hash: Hash): State {
    var s := Funded(hash, "usd");
    s.(tokens := s.tokens[OTHER := TokenInfo("eur", 1)], allowances := Allowed(s.allowances, HOLDER, "spender", "usd", 100))
  }

  function Named(hash: Hash): State {
    var s := Funded(hash, "usd");
    s.(tokens := s.tokens[OTHER := TokenInfo("eur", 1)])
  }

  lemma NotPaused(hash: Hash)
    ensures !Funded(hash, "usd").paused
  {
    FundedState(hash, "usd");
    hide Funded;
  }

  lemma Registers(keccak: Hasher, hash: Hash)
    ensures Next(keccak, Funded(hash, "usd"), MispairedCalls(hash)[5]) == Named(hash)
  {
    hide Funded, Calls, Apply;
    NotPaused(hash);
    IsConfigure(keccak, Funded(hash, "usd"), MispairedCalls(hash)[5]);
  }

  lemma ApproveIs(keccak: Hasher, s: State, a: Action)
    requires a.Approve? && !s.paused && a.amount.Some? && a.amount.value >= 0
    ensures Next(keccak, s, a) == s.(allowances := Allowed(s.allowances, a.caller, a.spender, a.asset, a.amount.value))
  {
    hide Allowed;
  }

  lemma Approves(keccak: Hasher, hash: Hash)
    ensures Next(keccak, Named(hash), MispairedCalls(hash)[6]) == Granted(hash)
  {
    hide Funded, Calls, Allowed, Next;
    NotPaused(hash);
    ApproveIs(keccak, Named(hash), MispairedCalls(hash)[6]);
  }

  lemma Grants(keccak: Hasher, hash: Hash)
    ensures RunFrom(keccak, SampleRun.Init(), MispairedCalls(hash)[..7]) == Granted(hash)
  {
    var init, actions := SampleRun.Init(), MispairedCalls(hash);
    assert actions[..5] == Calls(hash, "usd")[..5];
    hide MispairedCalls, RunFrom, Calls, Next, Named, Granted, Funded, SampleRun.Init;
    Reaches(keccak, hash, "usd");
    Registers(keccak, hash);
    Approves(keccak, hash);
    RunPrefix(keccak, init, actions, 5);
    RunPrefix(keccak, init, actions, 6);
  }

  lemma Mispaired(keccak: Hasher, hash: Hash)
    ensures Apply(keccak, Granted(hash), MispairedCalls(hash)[7]).Ok?
  {
    hide HeaderStores.GetHeader, Transactions.BuildERC20WithdrawalTx, Serialize, H.UnmappedFrom;
    FundedState(hash, "usd");
    hide Funded;
    Gas.SafeGasFeeExact(Transactions.ERC20_TRANSFER_GAS, 0, 2, H.GAS_TIP_CAP);
    assert SampleRun.VAULT[19] != ZERO_ADDRESS[19];
    HundredFits();
  }

  lemma NamesBoth(hash: Hash)
    ensures NamesAlone(MispairedCalls(hash), TOKEN, "usd") && NamesAlone(MispairedCalls(hash), OTHER, "eur")
  {
    assert TOKEN[19] != OTHER[19];
    var a, b, c := "usd", "eur", "eth";
    assert a[0] != b[0] && a[0] != c[0] && b[1] != c[1];
  }

  lemma LastMispairs(hash: Hash, t: Address, symbol: string)
    requires (t == TOKEN && symbol == "usd") || (t == OTHER && symbol == "eur")
    ensures Mispairs(Granted(hash), MispairedCalls(hash)[7], t, symbol)
  {
    assert TOKEN[19] != OTHER[19];
    var a, b, c := "usd", "eur", "eth";
    assert a[0] != b[0] && a[0] != c[0];
  }

  /** Although each symbol names one token alone, neither token is backed throughout. */
  lemma MispairedReachable(keccak: Hasher, hash: Hash, t: Address, symbol: string)
    requires (t == TOKEN && symbol == "usd") || (t == OTHER && symbol == "eur")
    ensures NamesAlone(MispairedCalls(hash), t, symbol)
    ensures !AlwaysBacked(keccak, SampleRun.Init(), MispairedCalls(hash), t, symbol)
  {
    hide Apply, RunFrom, Granted, Mispairs, NamesAlone, AlwaysBacked;
    NamesBoth(hash);
    Grants(keccak, hash);
    Mispaired(keccak, hash);
    LastMispairs(hash, t, symbol);
    assert AcceptedAt(keccak, SampleRun.Init(), MispairedCalls(hash), 7, Mispairing(t, symbol));
    NamedTokenConserved(keccak, false, 1, "contract:bridge", MispairedCalls(hash), t, symbol);
  }
}
