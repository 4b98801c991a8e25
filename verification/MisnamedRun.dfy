/** A run that queues a withdrawal confirmSpend cannot match: its token is registered under the symbol eth. */
module MisnamedRun {
  import opened ByteStrings
  import opened Blocklist
  import opened Ledger
  import opened Actions
  import opened ConfirmationTheorems
  import opened SampleRun
  import opened WithdrawalTheorems
  import opened WithdrawalQueue
  import H = Handlers

  lemma WithdrawsMisnamed(hash: Hash)
    ensures UnmapsMisnamed(Funded(hash, "eth"), Calls(hash, "eth")[5])
  {
    FundedState(hash, "eth");
    hide Serialize, DeserializeHeader, H.AcceptDeposit;
  }

  lemma LastWrites(keccak: Hasher, init: State, actions: seq<Action>, s: State)
    requires actions != [] && RunFrom(keccak, init, actions[..|actions| - 1]) == s
    requires UnmapsMisnamed(s, actions[|actions| - 1]) && Apply(keccak, s, actions[|actions| - 1]).Ok?
    ensures Misnamed(keccak, init, actions)
  {
    hide Apply, RunFrom;
  }

  lemma IsMisnamed(keccak: Hasher, hash: Hash)
    ensures Misnamed(keccak, Init(), Calls(hash, "eth"))
  {
    hide Apply, Next, Funded, Init, Misnamed, UnmapsMisnamed, RunFrom;
    Reaches(keccak, hash, "eth");
    Withdraws(keccak, hash, "eth");
    WithdrawsMisnamed(hash);
    LastWrites(keccak, Init(), Calls(hash, "eth"), Funded(hash, "eth"));
  }

  /** The run ends with a queued withdrawal that no signature makes recognisable. */
  lemma UnrecognisedReachable(keccak: Hasher, hash: Hash, v: byte, r: Hash, sig: Hash)
    ensures var s := RunFrom(keccak, Init(), Calls(hash, "eth"));
      && s.confirmed in s.spends && s.spends[s.confirmed].asset == "eth" && s.spends[s.confirmed].amount == 100
      && !Recognised(s.spends[s.confirmed], s.chainId, v, r, sig)
  {
    hide Recognised, Misnamed, Apply, RunFrom, Funded;
    IsMisnamed(keccak, hash);
    Reaches(keccak, hash, "eth");
    Withdraws(keccak, hash, "eth");
    QueueInvariant(keccak, false, 1, "contract:bridge", Calls(hash, "eth"));
    QueuedIsRecognised(keccak, false, 1, "contract:bridge", Calls(hash, "eth"), v, r, sig);
  }
}
