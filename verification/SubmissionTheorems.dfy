/** What the submitted bytes of a run were: entries of the blocks its headers commit to, each credited once. */
module SubmissionTheorems {
  import opened ByteStrings
  import opened Blocklist
  import opened BlockProofs
  import opened Evidence
  import opened EvidenceTheorems
  import opened History
  import opened Ledger
  import opened Receipts
  import opened RoutingTheorems
  import opened SpendTheorems
  import opened Submissions
  import opened WithdrawalQueue
  import A = Actions
  import DepositTheorems
  import H = Handlers
  import HeaderStores
  import Transactions

  // ----- One call -----

  /** The call is accepted in the state. */
  predicate Accepted(host: Host, s: State, c: Submission) {
    A.Apply(host.keccak, s, Resolve(host, s, c)).Ok?
  }

  function EventsOf(host: Host, s: State, c: Submission): seq<Event>
    requires Accepted(host, s, c)
  {
    var a := Resolve(host, s, c);
    Events(s, a, A.Apply(host.keccak, s, a).value)
  }

  /** The first event is the credit of this mark. */
  predicate LogsCredit(events: seq<Event>, height: uint64, hash: Hash, index: uint64) {
    events != [] && events[0].Credit? && events[0].height == height && events[0].mark == H.DepositMark(hash, index)
  }

  /** The state it leaves. */
  function After(host: Host, s: State, c: Submission): State {
    A.Next(host.keccak, s, Resolve(host, s, c))
  }

  /** The header stored at a height when a call comes in. */
  function HeaderAt(s: State, height: uint64): Option<Header> {
    HeaderStores.GetHeader(s.chain.headers, height)
  }

  /** The verdict of an ETH deposit call. */
  function ETHVerdict(host: Host, s: State, c: Submission): H.DepositProof
    requires c.SubmitETH?
  {
    VerifyETHDeposit(host.keccak, host.canonical, host.did, HeaderAt(s, c.height), s.vault, s.chainId, c.req)
  }

  /** The verdict of a token deposit call. */
  function ERC20Verdict(host: Host, s: State, c: Submission): H.DepositProof
    requires c.SubmitERC20? && c.token.Some?
  {
    VerifyERC20Deposit(host.keccak, host.did, HeaderAt(s, c.height), s.vault, c.token.value, s.chainId, c.req)
  }

  /** The first event is the credit of this mark and amount. */
  predicate LogsDeposit(events: seq<Event>, height: uint64, hash: Hash, index: uint64, amount: nat) {
    LogsCredit(events, height, hash, index) && events[0].amount == amount
  }

  lemma ETHAccepted(host: Host, s: State, c: Submission)
    requires c.SubmitETH? && Accepted(host, s, c)
    ensures HeaderAt(s, c.height).Some? && ETHVerdict(host, s, c).Deposit?
    ensures LogsDeposit(EventsOf(host, s, c), c.height, host.keccak(c.req.raw), c.req.index, ETHVerdict(host, s, c).amount)
    ensures var d := ETHVerdict(host, s, c);
      Deposits(host.keccak, s, After(host, s, c), c.height, host.keccak(c.req.raw), c.req.index, "eth", d.amount, d.amount / 100,
               d.depositor, c.instructions, c.call)
  {
    hide A.Apply, HeaderStores.GetHeader, ReadETHDeposit, Proves, H.ReadInstructions, H.DepositMark, H.AcceptDeposit;
    hide Deposits, Unseen;
    var a := Resolve(host, s, c);
    A.MapETHShape(host.keccak, s, a);
    MapETHExactly(host.keccak, s, a);
  }

  lemma ERC20Accepted(host: Host, s: State, c: Submission)
    requires c.SubmitERC20? && Accepted(host, s, c)
    ensures c.token.Some? && c.token.value in s.tokens
    ensures HeaderAt(s, c.height).Some? && ERC20Verdict(host, s, c).Deposit?
    ensures LogsDeposit(EventsOf(host, s, c), c.height, host.keccak(c.req.raw), c.req.logIndex, ERC20Verdict(host, s, c).amount)
    ensures var d := ERC20Verdict(host, s, c);
      Deposits(host.keccak, s, After(host, s, c), c.height, host.keccak(c.req.raw), c.req.logIndex, s.tokens[c.token.value].symbol,
               d.amount, 0, d.depositor, c.instructions, c.call)
  {
    hide A.Apply, HeaderStores.GetHeader, ReadERC20Deposit, Proves, H.ReadInstructions, H.DepositMark, H.GetTokenInfo;
    hide H.AcceptDeposit, Deposits, Unseen;
    var a := Resolve(host, s, c);
    A.MapERC20Shape(host.keccak, s, a);
    MapERC20Exactly(host.keccak, s, a);
  }

  /** The header an ETH deposit call is checked against commits to these transactions. */
  ghost predicate CommitsTo(keccak: Hasher, s: State, c: Submission, txs: Values) {
    c.SubmitETH? && HeaderAt(s, c.height).Some? ==> Commits(keccak, HeaderAt(s, c.height).value.transactionsRoot, txs)
  }

  /** The header a token deposit call is checked against commits to these receipts. */
  ghost predicate CommitsToReceipts(keccak: Hasher, s: State, c: Submission, values: Values) {
    c.SubmitERC20? && HeaderAt(s, c.height).Some? ==> Commits(keccak, HeaderAt(s, c.height).value.receiptsRoot, values)
  }

  /**
   An accepted ETH deposit call books the block's transaction at its index, which pays that amount into the
   vault: its hash is noted, and the account that its instructions name, or the depositor, receives the amount
   less a hundredth. Otherwise a proof node was forged.
   */
  lemma ETHCreditIsReal(host: Host, s: State, c: Submission, txs: Values)
    requires c.SubmitETH? && Accepted(host, s, c)
    requires CommitsTo(host.keccak, s, c, txs)
    ensures var d := ETHVerdict(host, s, c);
      && d.Deposit?
      && Deposits(host.keccak, s, After(host, s, c), c.height, host.keccak(c.req.raw), c.req.index, "eth", d.amount, d.amount / 100,
                  d.depositor, c.instructions, c.call)
      && (|| (c.req.index < |txs| && c.req.raw == txs[c.req.index]
              && PaysVault(host.keccak, host.canonical, host.did, s.vault, s.chainId, txs[c.req.index], d)
              && LogsDeposit(EventsOf(host, s, c), c.height, host.keccak(txs[c.req.index]), c.req.index, d.amount))
          || Forged(host.keccak, txs, c.req.index, c.req.proof))
  {
    ETHAccepted(host, s, c);
    hide Accepted, EventsOf, LogsDeposit, HeaderStores.GetHeader, Commits, PaysVault, Forged, VerifyETHDeposit, Deposits, After;
    ETHDepositIsReal(host.keccak, host.canonical, host.did, HeaderAt(s, c.height).value, s.vault, s.chainId, c.req, txs);
  }

  /** An accepted token deposit call books the transfer at its log index in the block's receipt at its index, untaxed. */
  lemma ERC20CreditIsReal(host: Host, s: State, c: Submission, receipts: seq<Receipt>)
    requires c.SubmitERC20? && Accepted(host, s, c) && WellFormedReceipts(receipts)
    requires CommitsToReceipts(host.keccak, s, c, EncodeReceipts(receipts))
    ensures c.token.Some? && c.token.value in s.tokens
    ensures var d := ERC20Verdict(host, s, c);
      && d.Deposit?
      && Deposits(host.keccak, s, After(host, s, c), c.height, host.keccak(c.req.raw), c.req.logIndex,
                  s.tokens[c.token.value].symbol, d.amount, 0, d.depositor, c.instructions, c.call)
      && (|| (c.req.index < |receipts| && c.req.raw == EncodeReceipt(receipts[c.req.index])
              && CreditsLog(host.did, s.vault, c.token.value, c.req.logIndex, receipts[c.req.index], d)
              && LogsDeposit(EventsOf(host, s, c), c.height, host.keccak(EncodeReceipt(receipts[c.req.index])), c.req.logIndex,
                             d.amount))
          || Forged(host.keccak, EncodeReceipts(receipts), c.req.index, c.req.proof))
  {
    ERC20Accepted(host, s, c);
    hide Accepted, EventsOf, LogsDeposit, HeaderStores.GetHeader, Commits, CreditsLog, Forged, VerifyERC20Deposit, Deposits, After;
    hide EncodeReceipt, WellFormedReceipts;
    ERC20DepositIsReal(host.keccak, host.did, HeaderAt(s, c.height).value, s.vault, c.token.value, s.chainId, c.req, receipts);
  }

  // ----- Settlement -----

  lemma SpendAccepted(host: Host, s: State, c: Submission)
    requires QueueInv(s) && c.SubmitSpend? && Accepted(host, s, c)
    ensures HeaderAt(s, c.height).Some? && s.confirmed in s.spends
    ensures var p, ps := VerifySpend(host.keccak, host.strict, HeaderAt(s, c.height).value, c.evidence), s.spends[s.confirmed];
      && p.Proven? && p.signer == ps.vaultAtQueue && Delivers(ps, p.tx, s.chainId)
      && EventsOf(host, s, c) == [if p.status == 1 then Pay(ps) else Refund(ps)]
  {
    hide A.Apply, HeaderStores.GetHeader, VerifySpend, Delivers, H.Settled, PaysHead, ReturnsHead;
    var a := Resolve(host, s, c);
    ConfirmExactly(host.keccak, s, a.intent, a.height, a.spend);
  }

  /** The block holds, at one index, the spend's transaction signed by its vault and a receipt of that outcome. */
  ghost predicate ShowsSpend(host: Host, ps: PendingSpend, chainId: uint64, index: uint64, paid: bool,
                             txs: Values, receipts: seq<Receipt>)
  {
    && index < |txs| && index < |receipts| && Transactions.ParseTransaction(txs[index]).Ok?
    && var tx := Transactions.ParseTransaction(txs[index]).value;
    && Delivers(ps, tx, chainId) && Signer(host.keccak, host.strict, txs[index], tx) == Some(ps.vaultAtQueue)
    && (paid <==> receipts[index].status == 1)
  }

  /**
   An accepted settlement pays the head exactly if the block's receipt says success, and refunds it exactly
   otherwise, and the transaction at that index is the head's own, signed by the vault of its queueing.
   */
  lemma SettlementIsReal(host: Host, s: State, c: Submission,
                         txs: Values, receipts: seq<Receipt>)
    requires QueueInv(s) && c.SubmitSpend? && Accepted(host, s, c) && WellFormedReceipts(receipts)
    requires HeaderAt(s, c.height).Some? ==>
      && Commits(host.keccak, HeaderAt(s, c.height).value.transactionsRoot, txs)
      && Commits(host.keccak, HeaderAt(s, c.height).value.receiptsRoot, EncodeReceipts(receipts))
    ensures s.confirmed in s.spends
    ensures var ps, events := s.spends[s.confirmed], EventsOf(host, s, c);
      && (events == [Pay(ps)] || events == [Refund(ps)])
      && (|| ShowsSpend(host, ps, s.chainId, c.evidence.index, events == [Pay(ps)], txs, receipts)
          || Forged(host.keccak, txs, c.evidence.index, c.evidence.txProof)
          || Forged(host.keccak, EncodeReceipts(receipts), c.evidence.index, c.evidence.receiptProof))
  {
    hide Accepted, EventsOf, HeaderStores.GetHeader, Commits, Forged, VerifySpend, WellFormedReceipts, Signer, ShowsSpend;
    hide Delivers, Transactions.ParseTransaction, EncodeReceipts;
    SpendAccepted(host, s, c);
    var header, ps := HeaderAt(s, c.height).value, s.spends[s.confirmed];
    var p := VerifySpend(host.keccak, host.strict, header, c.evidence);
    SpendShown(host, header, ps, s.chainId, c.evidence, txs, receipts);
    assert [Pay(ps)][0] != [Refund(ps)][0];
    assert (p.status == 1) == (EventsOf(host, s, c) == [Pay(ps)]);
  }

  lemma SpendShown(host: Host, header: Header, ps: PendingSpend, chainId: uint64, e: Evidence.Settlement,
                   txs: Values, receipts: seq<Receipt>)
    requires WellFormedReceipts(receipts)
    requires Commits(host.keccak, header.transactionsRoot, txs)
    requires Commits(host.keccak, header.receiptsRoot, EncodeReceipts(receipts))
    requires var p := VerifySpend(host.keccak, host.strict, header, e);
      p.Proven? && p.signer == ps.vaultAtQueue && Delivers(ps, p.tx, chainId)
    ensures var paid := VerifySpend(host.keccak, host.strict, header, e).status == 1;
      || ShowsSpend(host, ps, chainId, e.index, paid, txs, receipts)
      || Forged(host.keccak, txs, e.index, e.txProof) || Forged(host.keccak, EncodeReceipts(receipts), e.index, e.receiptProof)
  {
    hide Commits, Forged, VerifySpend, WellFormedReceipt, Fit, Signer, Delivers, Transactions.ParseTransaction, EncodeReceipt;
    SpendIsReal(host.keccak, host.strict, header, e, txs, receipts);
  }

  /** The request and nonce of a call that drops the head. */
  predicate DropsHead(c: Submission) {
    c.SubmitClear? || c.SubmitExpire? || c.SubmitCancel?
  }

  lemma DropAccepted(host: Host, s: State, c: Submission)
    requires QueueInv(s) && DropsHead(c) && Accepted(host, s, c)
    ensures s.confirmed in s.spends
    ensures VerifyDrop(host.keccak, s.chain.headers, s.spends[s.confirmed], s.chainId, c.drop) == H.Dropped
    ensures HeaderAt(s, c.drop.height).Some?
    ensures EventsOf(host, s, c) == [Refund(s.spends[s.confirmed])]
  {
    hide HeaderStores.GetHeader, H.DropSpend, Proves, ReceiptStatus, Transactions.ParseTransaction, A.Apply, VerifyDrop;
    var a := Resolve(host, s, c);
    DropVerdictAccepts(host.keccak, s, a);
    DropShape(host.keccak, s, a);
    AdvanceAlwaysSucceeds(s, s.confirmed);
    assert VerifyDrop(host.keccak, s.chain.headers, s.spends[s.confirmed], s.chainId, c.drop) == H.Dropped;
    DropHeader(host.keccak, s.chain.headers, s.spends[s.confirmed], s.chainId, c.drop);
    assert Events(s, a, A.Apply(host.keccak, s, a).value) == [Refund(s.spends[s.confirmed])];
  }

  /** A drop handler goes through on an accepted proof only. */
  lemma DropVerdictAccepts(keccak: Hasher, s: State, a: A.Action)
    requires (a.ClearNonce? || a.ExpireWithdrawal? || a.CancelMyWithdrawal?) && A.Apply(keccak, s, a).Ok?
    ensures a.drop == H.Dropped
    ensures GetPendingSpend(s, if a.ClearNonce? then s.confirmed else a.nonce).Some?
  {
    hide H.DropSpend;
  }

  lemma DropHeader(keccak: Hasher, headers: map<uint64, Bytes>, ps: PendingSpend, chainId: uint64, d: DropRequest)
    requires VerifyDrop(keccak, headers, ps, chainId, d) == H.Dropped
    ensures HeaderStores.GetHeader(headers, d.height).Some?
  {
    hide HeaderStores.GetHeader, Proves, ReceiptStatus, Transactions.ParseTransaction;
  }

  /**
   An accepted drop refunds the head, and the block of its header holds some receipt of status 0, or some
   transaction of the chain with a nonce above the head's. Otherwise a proof node was forged.
   */
  lemma RefundIsReal(host: Host, s: State, c: Submission,
                     txs: Values, receipts: seq<Receipt>)
    requires QueueInv(s) && DropsHead(c) && Accepted(host, s, c) && WellFormedReceipts(receipts)
    requires HeaderAt(s, c.drop.height).Some? ==>
      && Commits(host.keccak, HeaderAt(s, c.drop.height).value.transactionsRoot, txs)
      && Commits(host.keccak, HeaderAt(s, c.drop.height).value.receiptsRoot, EncodeReceipts(receipts))
    ensures s.confirmed in s.spends
    ensures var ps := s.spends[s.confirmed];
      && EventsOf(host, s, c) == [Refund(ps)]
      && (ShowsDrop(ps, s.chainId, c.drop, txs, receipts)
          || Forged(host.keccak, if c.drop.kind.RevertedReceipt? then EncodeReceipts(receipts) else txs, c.drop.index,
                    c.drop.proof))
  {
    hide Accepted, EventsOf, HeaderStores.GetHeader, Commits, Forged, VerifyDrop, WellFormedReceipts, ShowsDrop;
    DropAccepted(host, s, c);
    DropIsReal(host.keccak, s.chain.headers, s.spends[s.confirmed], s.chainId, c.drop, HeaderAt(s, c.drop.height).value, txs,
               receipts);
  }

  // ----- Every run -----

  /** The world before the n-th call. */
  function Before(host: Host, init: State, calls: seq<Submission>, n: nat): World
    requires n <= |calls|
  {
    SubmitAll(host, init, calls[..n])
  }

  lemma BeforeNext(host: Host, init: State, calls: seq<Submission>, n: nat)
    requires n < |calls|
    ensures var w := Before(host, init, calls, n);
      Before(host, init, calls, n + 1)
        == if Accepted(host, w.state, calls[n]) then
             World(A.Next(host.keccak, w.state, Resolve(host, w.state, calls[n])),
                   w.log + EventsOf(host, w.state, calls[n]))
           else w
  {
    hide Resolve, A.Apply, Events;
    assert calls[..n + 1][..n] == calls[..n];
  }

  /** The log only grows. */
  lemma {:induction false} LogGrows(host: Host, init: State, calls: seq<Submission>,
                                    m: nat, n: nat)
    requires m <= n <= |calls|
    ensures Before(host, init, calls, m).log <= Before(host, init, calls, n).log
    decreases n
  {
    if m < n {
      hide Before, Accepted, EventsOf, Resolve, A.Next;
      LogGrows(host, init, calls, m, n - 1);
      BeforeNext(host, init, calls, n - 1);
    }
  }

  /** The n-th call was accepted and logged that credit. */
  predicate CreditedBy(host: Host, init: State, calls: seq<Submission>, n: nat,
                       height: uint64, hash: Hash, index: uint64)
    requires n < |calls|
  {
    var s := Before(host, init, calls, n).state;
    Accepted(host, s, calls[n])
    && LogsCredit(EventsOf(host, s, calls[n]), height, hash, index)
  }

  /** Its place in the log is where the log of the calls before it ends. */
  lemma CreditStands(host: Host, init: State, calls: seq<Submission>, n: nat,
                     height: uint64, hash: Hash, index: uint64)
    requires n < |calls| && CreditedBy(host, init, calls, n, height, hash, index)
    ensures var p, log := |Before(host, init, calls, n).log|, SubmitAll(host, init, calls).log;
      && p < |Before(host, init, calls, n + 1).log| <= |log|
      && log[p].Credit? && log[p].height == height && log[p].mark == H.DepositMark(hash, index)
  {
    assert calls[..|calls|] == calls;
    assert SubmitAll(host, init, calls) == Before(host, init, calls, |calls|);
    hide Before, Accepted, EventsOf, Resolve, A.Next, SubmitAll, H.DepositMark;
    BeforeNext(host, init, calls, n);
    LogGrows(host, init, calls, n + 1, |calls|);
  }

  /** The height was wiped between the two calls. */
  ghost predicate WipedBetween(host: Host, init: State, calls: seq<Submission>,
                               i: nat, j: nat, height: uint64)
    requires i < j < |calls|
  {
    var log := SubmitAll(host, init, calls).log;
    exists k :: |Before(host, init, calls, i).log| < k < |Before(host, init, calls, j).log|
      && k < |log| && DepositTheorems.Covers(log[k], height)
  }

  lemma SameCreditTwice(host: Host, testnet: bool, chainId: uint64, self: string,
                        calls: seq<Submission>, i: nat, j: nat, height: uint64, hash: Hash, index: uint64)
    requires i < j < |calls|
    requires var init := A.Deployed(testnet, chainId, self);
      && CreditedBy(host, init, calls, i, height, hash, index)
      && CreditedBy(host, init, calls, j, height, hash, index)
    ensures WipedBetween(host, A.Deployed(testnet, chainId, self), calls, i, j, height)
  {
    hide Before, CreditedBy, SubmitAll, Run, Resolved, DepositTheorems.Covers, H.DepositMark, A.Deployed;
    var init := A.Deployed(testnet, chainId, self);
    CreditStands(host, init, calls, i, height, hash, index);
    CreditStands(host, init, calls, j, height, hash, index);
    LogGrows(host, init, calls, i + 1, j);
    SubmitAllIsRun(host, init, calls);
    var p, q := |Before(host, init, calls, i).log|, |Before(host, init, calls, j).log|;
    DepositTheorems.SingleCredit(host.keccak, testnet, chainId, self, Resolved(host, init, calls), p, q);
  }

  /**
   Over every run of submitted calls: a transaction of a block, by height and index, is credited at most
   once, unless the height was wiped in between, or a node of one of the two proofs was forged.
   */
  lemma TransactionCreditedOnce(host: Host, testnet: bool, chainId: uint64,
                                self: string, calls: seq<Submission>, i: nat, j: nat, txs: Values)
    requires i < j < |calls| && calls[i].SubmitETH? && calls[j].SubmitETH?
    requires calls[i].height == calls[j].height && calls[i].req.index == calls[j].req.index
    requires forall n :: n == i || n == j ==>
      var s := Before(host, A.Deployed(testnet, chainId, self), calls, n).state;
      Accepted(host, s, calls[n]) && CommitsTo(host.keccak, s, calls[n], txs)
    ensures || WipedBetween(host, A.Deployed(testnet, chainId, self), calls, i, j, calls[i].height)
            || Forged(host.keccak, txs, calls[i].req.index, calls[i].req.proof)
            || Forged(host.keccak, txs, calls[j].req.index, calls[j].req.proof)
  {
    hide Before, Accepted, EventsOf, LogsCredit, Forged, Commits, HeaderStores.GetHeader, PaysVault, ETHVerdict, A.Deployed;
    hide WipedBetween;
    var init := A.Deployed(testnet, chainId, self);
    ETHCreditIsReal(host, Before(host, init, calls, i).state, calls[i], txs);
    ETHCreditIsReal(host, Before(host, init, calls, j).state, calls[j], txs);
    if !Forged(host.keccak, txs, calls[i].req.index, calls[i].req.proof)
       && !Forged(host.keccak, txs, calls[j].req.index, calls[j].req.proof) {
      var index := calls[i].req.index;
      SameCreditTwice(host, testnet, chainId, self, calls, i, j, calls[i].height, host.keccak(txs[index]), index);
    }
  }

  /** The same of a log of a receipt, by height, receipt index and log index. */
  lemma TransferCreditedOnce(host: Host, testnet: bool, chainId: uint64,
                             self: string, calls: seq<Submission>, i: nat, j: nat, receipts: seq<Receipt>)
    requires i < j < |calls| && calls[i].SubmitERC20? && calls[j].SubmitERC20? && WellFormedReceipts(receipts)
    requires calls[i].height == calls[j].height
    requires calls[i].req.index == calls[j].req.index && calls[i].req.logIndex == calls[j].req.logIndex
    requires forall n :: n == i || n == j ==>
      var s := Before(host, A.Deployed(testnet, chainId, self), calls, n).state;
      Accepted(host, s, calls[n]) && CommitsToReceipts(host.keccak, s, calls[n], EncodeReceipts(receipts))
    ensures || WipedBetween(host, A.Deployed(testnet, chainId, self), calls, i, j, calls[i].height)
            || Forged(host.keccak, EncodeReceipts(receipts), calls[i].req.index, calls[i].req.proof)
            || Forged(host.keccak, EncodeReceipts(receipts), calls[j].req.index, calls[j].req.proof)
  {
    hide Before, Accepted, EventsOf, LogsCredit, Forged, Commits, HeaderStores.GetHeader, CreditsLog, VerifyERC20Deposit;
    hide A.Deployed, WipedBetween, EncodeReceipt, WellFormedReceipt, Fit;
    var init, values := A.Deployed(testnet, chainId, self), EncodeReceipts(receipts);
    ERC20CreditIsReal(host, Before(host, init, calls, i).state, calls[i], receipts);
    ERC20CreditIsReal(host, Before(host, init, calls, j).state, calls[j], receipts);
    if !Forged(host.keccak, values, calls[i].req.index, calls[i].req.proof)
       && !Forged(host.keccak, values, calls[j].req.index, calls[j].req.proof) {
      var hash := host.keccak(EncodeReceipt(receipts[calls[i].req.index]));
      SameCreditTwice(host, testnet, chainId, self, calls, i, j, calls[i].height, hash, calls[i].req.logIndex);
    }
  }

  // ----- Nothing else is credited -----

  predicate CreditsNothing(events: seq<Event>) {
    forall e :: e in events ==> !e.Credit?
  }

  lemma PlainCreditsNothing(s: State, a: A.Action, after: State)
    requires !a.MapETH? && !a.MapERC20?
    ensures CreditsNothing(Events(s, a, after))
  {
  }

  lemma CreditIn(events: seq<Event>, k: nat)
    requires k < |events| && events[k].Credit?
    ensures !CreditsNothing(events)
  {
    assert events[k] in events;
  }

  /** Only deposit calls log a credit, and only as their first event. */
  lemma CreditIsFirst(host: Host, s: State, c: Submission, k: nat)
    requires Accepted(host, s, c)
    requires k < |EventsOf(host, s, c)| && EventsOf(host, s, c)[k].Credit?
    ensures k == 0 && (c.SubmitETH? || c.SubmitERC20?)
  {
    var a := Resolve(host, s, c);
    var after := A.Apply(host.keccak, s, a).value;
    CreditIn(Events(s, a, after), k);
    if !a.MapETH? && !a.MapERC20? {
      PlainCreditsNothing(s, a, after);
    } else {
      var e := DepositTheorems.DepositEvents(host.keccak, s, a, after);
    }
    hide A.Apply, Events;
  }

  lemma NothingBefore(host: Host, init: State, calls: seq<Submission>)
    ensures Before(host, init, calls, 0).log == []
  {
  }

  /** Every credit in the log of a run was logged by an accepted deposit call of the run. */
  lemma {:induction false} CreditHasCall(host: Host, init: State,
                                         calls: seq<Submission>, n: nat, k: nat) returns (i: nat)
    requires n <= |calls| && k < |Before(host, init, calls, n).log|
    requires Before(host, init, calls, n).log[k].Credit?
    ensures i < n && k == |Before(host, init, calls, i).log|
    ensures calls[i].SubmitETH? || calls[i].SubmitERC20?
    ensures Accepted(host, Before(host, init, calls, i).state, calls[i])
    decreases n
  {
    hide Accepted, EventsOf, Resolve, A.Next, Before;
    NothingBefore(host, init, calls);
    if n == 0 {
      assert false;
    }
    BeforeNext(host, init, calls, n - 1);
    var w := Before(host, init, calls, n - 1);
    if k < |w.log| {
      i := CreditHasCall(host, init, calls, n - 1, k);
    } else {
      i := n - 1;
      CreditIsFirst(host, w.state, calls[i], k - |w.log|);
    }
  }
}
