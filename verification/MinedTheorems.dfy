/** What a stored block holds is accepted with the monitor's proofs: deposits into the vault, and withdrawals that were mined. */
module MinedTheorems {
  import opened ByteStrings
  import opened Blocklist
  import opened BlockProofs
  import opened ConfirmationTheorems
  import opened Evidence
  import opened EvidenceTheorems
  import opened History
  import opened Ledger
  import opened Receipts
  import opened RoutingTheorems
  import opened SpendTheorems
  import opened Submissions
  import opened SubmissionTheorems
  import opened WithdrawalQueue
  import opened WithdrawalTheorems
  import A = Actions
  import H = Handlers
  import HeaderStores
  import Transactions

  /** The header stored at the height commits to these transactions and receipts. */
  ghost predicate StoredBlock(keccak: Hasher, s: State, height: uint64, txs: Values, receipts: seq<Receipt>) {
    && HeaderAt(s, height).Some? && WellFormedReceipts(receipts)
    && Commits(keccak, HeaderAt(s, height).value.transactionsRoot, txs)
    && Commits(keccak, HeaderAt(s, height).value.receiptsRoot, EncodeReceipts(receipts))
  }

  // ----- Deposits -----

  /** The transaction pays a positive amount into the vault. */
  ghost predicate PaysSome(host: Host, s: State, raw: Bytes) {
    exists d :: PaysVault(host.keccak, host.canonical, host.did, s.vault, s.chainId, raw, d) && d.Deposit? && d.amount > 0
  }

  /**
   With the monitor's proof from a stored block, a relayer's ETH deposit call is accepted if and only if the
   transaction at the index pays a positive amount into the vault and was not observed before.
   */
  lemma ETHDepositIsAccepted(host: Host, s: State, caller: string, height: uint64, txs: Values, receipts: seq<Receipt>, target: nat,
                             instructions: seq<string>, call: H.RouterCall)
    requires StoredBlock(host.keccak, s, height, txs, receipts) && target < |txs|
    ensures var req := Request(target, 0, txs[target], MonitorProof(host.keccak, txs, target));
      var c := SubmitETH(caller, height, req, instructions, call);
      || (Accepted(host, s, c) <==>
          && !s.paused && s.vault != Zeros(20) && caller != "" && caller in s.relayers
          && Unseen(s, height, host.keccak(txs[target]), target) && PaysSome(host, s, txs[target]))
      || Ambiguous(host.keccak, txs, target)
  {
    hide A.Apply, HeaderStores.GetHeader, Commits, WellFormedReceipts, PaysVault, Ambiguous, MonitorProof, Unseen, VerifyETHDeposit;
    hide Deposits;
    var c := SubmitETH(caller, height, Request(target, 0, txs[target], MonitorProof(host.keccak, txs, target)), instructions, call);
    MapETHExactly(host.keccak, s, Resolve(host, s, c));
    if !Ambiguous(host.keccak, txs, target) {
      var header, verdict := HeaderAt(s, height).value, ETHVerdict(host, s, c);
      if verdict.Deposit? {
        ETHDepositIsSeen(host.keccak, host.canonical, host.did, header, s.vault, s.chainId, txs, target, verdict);
      }
      if PaysSome(host, s, txs[target]) {
        var d :| PaysVault(host.keccak, host.canonical, host.did, s.vault, s.chainId, txs[target], d) && d.Deposit? && d.amount > 0;
        ETHDepositIsSeen(host.keccak, host.canonical, host.did, header, s.vault, s.chainId, txs, target, d);
      }
    }
  }

  /** The log is a transfer of a positive amount of the token to the vault, at an index of at most 10000. */
  ghost predicate TransfersSome(host: Host, s: State, token: Address, logIndex: uint64, r: Receipt) {
    logIndex <= 10000 && exists d :: CreditsLog(host.did, s.vault, token, logIndex, r, d) && d.Deposit? && d.amount > 0
  }

  /** The same of a token deposit call, which needs no relayer but a registered token and a header of the contract's chain. */
  lemma ERC20DepositIsAccepted(host: Host, s: State, token: Address, height: uint64, txs: Values, receipts: seq<Receipt>,
                               target: nat, logIndex: uint64, instructions: seq<string>, call: H.RouterCall)
    requires StoredBlock(host.keccak, s, height, txs, receipts) && target < |receipts| < TWO_63
    ensures var values := EncodeReceipts(receipts);
      var req := Request(target, logIndex, values[target], MonitorProof(host.keccak, values, target));
      var c := SubmitERC20(Some(token), height, req, instructions, call);
      || (Accepted(host, s, c) <==>
          && !s.paused && s.vault != Zeros(20) && token in s.tokens && HeaderAt(s, height).value.chainId == s.chainId
          && Unseen(s, height, host.keccak(values[target]), logIndex) && TransfersSome(host, s, token, logIndex, receipts[target]))
      || Ambiguous(host.keccak, values, target)
  {
    hide A.Apply, HeaderStores.GetHeader, Commits, WellFormedReceipt, Fit, CreditsLog, Ambiguous, MonitorProof, Unseen;
    hide VerifyERC20Deposit, Deposits, EncodeReceipt;
    var values := EncodeReceipts(receipts);
    var c := SubmitERC20(Some(token), height, Request(target, logIndex, values[target], MonitorProof(host.keccak, values, target)),
                         instructions, call);
    MapERC20Exactly(host.keccak, s, Resolve(host, s, c));
    if !Ambiguous(host.keccak, values, target) {
      var header, verdict := HeaderAt(s, height).value, ERC20Verdict(host, s, c);
      if verdict.Deposit? {
        ERC20DepositIsSeen(host.keccak, host.did, header, s.vault, token, s.chainId, receipts, target, logIndex, verdict);
      }
      if TransfersSome(host, s, token, logIndex, receipts[target]) {
        var d :| CreditsLog(host.did, s.vault, token, logIndex, receipts[target], d) && d.Deposit? && d.amount > 0;
        ERC20DepositIsSeen(host.keccak, host.did, header, s.vault, token, s.chainId, receipts, target, logIndex, d);
      }
    }
  }

  // ----- Settlements -----

  /** The monitor's evidence of the transaction at an index of a block. */
  function MonitorEvidence(keccak: Hasher, txs: Values, receipts: seq<Receipt>, i: nat): Settlement
    requires i < |txs| && i < |receipts| < TWO_63
  {
    var values := EncodeReceipts(receipts);
    Settlement(i, txs[i], MonitorProof(keccak, txs, i), values[i], MonitorProof(keccak, values, i))
  }

  /** The settlement call for the head that rests on it. */
  function Claim(keccak: Hasher, s: State, height: uint64, txs: Values, receipts: seq<Receipt>, i: nat): Submission
    requires s.confirmed in s.spends && i < |txs| && i < |receipts| < TWO_63
  {
    var ps := s.spends[s.confirmed];
    SubmitSpend(H.Intent(s.confirmed, ps.to, Some(ps.amount), ps.asset), height, MonitorEvidence(keccak, txs, receipts, i))
  }

  /** Two nodes of one of its proofs collide. */
  ghost predicate AmbiguousAt(keccak: Hasher, txs: Values, receipts: seq<Receipt>, i: nat)
    requires i < |txs| && i < |receipts| < TWO_63
  {
    Ambiguous(keccak, txs, i) || Ambiguous(keccak, EncodeReceipts(receipts), i)
  }

  /** What the contract makes of the evidence. */
  lemma EvidenceRead(keccak: Hasher, recover: Recover, header: Header, txs: Values, receipts: seq<Receipt>, i: nat)
    requires i < |txs| && i < |receipts| && WellFormedReceipts(receipts)
    requires Commits(keccak, header.transactionsRoot, txs) && Commits(keccak, header.receiptsRoot, EncodeReceipts(receipts))
    requires !AmbiguousAt(keccak, txs, receipts, i)
    ensures VerifySpend(keccak, recover, header, MonitorEvidence(keccak, txs, receipts, i)) ==
      match Transactions.ParseTransaction(txs[i])
      case Err(_) => H.Unproven
      case Ok(tx) =>
        match Signer(keccak, recover, txs[i], tx)
        case None => H.Unproven
        case Some(signer) => H.Proven(tx, signer, receipts[i].status)
  {
    hide MonitorProof, Ambiguous, Commits, Proves, EncodeReceipt, WellFormedReceipt, Transactions.ParseTransaction, ReceiptStatus;
    hide Signer;
    CommittedProves(keccak, header.transactionsRoot, txs, i);
    CommittedProves(keccak, header.receiptsRoot, EncodeReceipts(receipts), i);
    ReceiptAt(receipts, i);
    ReceiptAgreement(receipts[i]);
  }

  lemma SignerNotZero(keccak: Hasher, recover: Recover, raw: Bytes, tx: Transactions.ParsedTx)
    ensures Signer(keccak, recover, raw, tx) != Some(ZERO_ADDRESS)
  {
  }

  /**
   Exactly the withdrawals that a later block shows are settled: with the monitor's proofs the call for the
   head is accepted if and only if the transaction at the index is the head's own, signed by the vault of its
   queueing. It pays the head if the receipt there says success and refunds it if not.
   */
  lemma SettlementIsSeen(host: Host, s: State, height: uint64, txs: Values, receipts: seq<Receipt>, i: nat)
    requires QueueInv(s) && !s.paused && s.confirmed in s.spends
    requires StoredBlock(host.keccak, s, height, txs, receipts) && i < |txs| && i < |receipts|
    ensures var ps, c, paid := s.spends[s.confirmed], Claim(host.keccak, s, height, txs, receipts, i), receipts[i].status == 1;
      || (&& (Accepted(host, s, c) <==> height > ps.blockHeight && ShowsSpend(host, ps, s.chainId, i, paid, txs, receipts))
          && (Accepted(host, s, c) ==> EventsOf(host, s, c) == [if paid then Pay(ps) else Refund(ps)]))
      || AmbiguousAt(host.keccak, txs, receipts, i)
  {
    hide A.Apply, HeaderStores.GetHeader, Commits, WellFormedReceipt, Fit, Delivers, Signer, EncodeReceipts, EncodeReceipt;
    hide PaysHead, ReturnsHead, AmbiguousAt, QueueInv, VerifySpend, MonitorEvidence, EventsOf;
    var c := Claim(host.keccak, s, height, txs, receipts, i);
    if !AmbiguousAt(host.keccak, txs, receipts, i) {
      EvidenceRead(host.keccak, host.strict, HeaderAt(s, height).value, txs, receipts, i);
      ConfirmExactly(host.keccak, s, c.intent, height, SpendVerdict(host, s, height, c.evidence));
      if Transactions.ParseTransaction(txs[i]).Ok? {
        SignerNotZero(host.keccak, host.strict, txs[i], Transactions.ParseTransaction(txs[i]).value);
      }
      if Accepted(host, s, c) {
        SpendAccepted(host, s, c);
      }
    }
  }

  /** The vault's signature of the stored bytes is what the host recovers. */
  predicate SignedBy(host: Host, ps: PendingSpend, v: byte, r: Hash, sig: Hash) {
    host.strict(host.keccak(ps.unsignedTx), Transactions.LowByte(27 + v as int), r, sig) == Some(ps.vaultAtQueue)
  }

  /** The block holds the head's transaction as signed. */
  predicate Mined(ps: PendingSpend, v: byte, r: Hash, sig: Hash, txs: Values, i: nat) {
    i < |txs| && Transactions.AttachSignature(ps.unsignedTx, v, r, sig) == Ok(txs[i])
  }

  /** A recognised withdrawal, once signed by its vault and mined, is shown by the block. */
  lemma MinedShows(host: Host, ps: PendingSpend, chainId: uint64, v: byte, r: Hash, sig: Hash, txs: Values,
                   receipts: seq<Receipt>, i: nat)
    requires Recognised(ps, chainId, v, r, sig) && SignedBy(host, ps, v, r, sig) && ps.vaultAtQueue != ZERO_ADDRESS
    requires Mined(ps, v, r, sig, txs, i) && i < |receipts| < TWO_63
    ensures ShowsSpend(host, ps, chainId, i, receipts[i].status == 1, txs, receipts)
  {
    hide Transactions.AttachSignature, Transactions.ParseTransaction, Transactions.SighashPreimage, Transactions.PadTo32;
    hide Delivers;
  }

  /** The head has an amount of less than 2^256 and a vault, was signed by it, and was queued before that height. */
  predicate Settleable(host: Host, s: State, v: byte, r: Hash, sig: Hash, height: uint64) {
    && s.confirmed in s.spends
    && var ps := s.spends[s.confirmed];
    && ps.amount < TWO_256 && ps.vaultAtQueue != ZERO_ADDRESS && height > ps.blockHeight && SignedBy(host, ps, v, r, sig)
  }

  /**
   After every run of fewer than 2^64 calls: a withdrawal in the queue that its vault signed and that a later
   stored block holds is settled with the monitor's proofs, as paid or as failed by its receipt, unless it is
   misnamed or two of the proofs' nodes collide.
   */
  lemma MinedIsSettled(host: Host, testnet: bool, chainId: uint64, self: string, actions: seq<A.Action>,
                       v: byte, r: Hash, sig: Hash, height: uint64, txs: Values, receipts: seq<Receipt>, i: nat)
    requires |actions| < TWO_64
    requires !Misnamed(host.keccak, A.Deployed(testnet, chainId, self), actions)
    requires var s := A.RunFrom(host.keccak, A.Deployed(testnet, chainId, self), actions);
      && !s.paused && StoredBlock(host.keccak, s, height, txs, receipts)
      && Settleable(host, s, v, r, sig, height) && i < |txs| && i < |receipts|
      && Mined(s.spends[s.confirmed], v, r, sig, txs, i)
    ensures var s := A.RunFrom(host.keccak, A.Deployed(testnet, chainId, self), actions);
      var ps, c := s.spends[s.confirmed], Claim(host.keccak, s, height, txs, receipts, i);
      || (Accepted(host, s, c) && EventsOf(host, s, c) == [if receipts[i].status == 1 then Pay(ps) else Refund(ps)])
      || AmbiguousAt(host.keccak, txs, receipts, i)
  {
    assert |receipts| < TWO_63;
    hide A.RunFrom, A.Deployed, Misnamed, StoredBlock, Mined, Recognised, Accepted, EventsOf, Claim, AmbiguousAt, ShowsSpend;
    hide SignedBy;
    var s := A.RunFrom(host.keccak, A.Deployed(testnet, chainId, self), actions);
    var ps := s.spends[s.confirmed];
    QueueInvariant(host.keccak, testnet, chainId, self, actions);
    QueuedIsRecognised(host.keccak, testnet, chainId, self, actions, v, r, sig);
    MinedShows(host, ps, s.chainId, v, r, sig, txs, receipts, i);
    SettlementIsSeen(host, s, height, txs, receipts, i);
  }
}
