/**
 When a withdrawal can be dropped and refunded, exactly, and what that says about its payment: nothing. The
 evidence the contract asks for is met by blocks in which the withdrawal itself was paid; what would exclude
 payment is the outcome of the transaction that took the vault's nonce.
 */
module DropTheorems {
  import opened ByteStrings
  import opened Blocklist
  import opened BlockProofs
  import opened Evidence
  import opened EvidenceTheorems
  import opened History
  import opened Ledger
  import opened MinedTheorems
  import opened Receipts
  import opened SpendTheorems
  import opened Submissions
  import opened SubmissionTheorems
  import opened Transactions
  import opened WithdrawalQueue
  import A = Actions
  import H = Handlers
  import HeaderStores

  // ----- When a drop is accepted -----

  /** What the evidence of a kind is taken from. */
  function Evidences(kind: DropKind, txs: Values, receipts: seq<Receipt>): Values
    requires |receipts| < TWO_63
  {
    if kind.RevertedReceipt? then EncodeReceipts(receipts) else txs
  }

  predicate Names(kind: DropKind, target: nat, txs: Values, receipts: seq<Receipt>) {
    |receipts| < TWO_63 && ((kind.RevertedReceipt? && target < |receipts|) || (kind.BlockInclusion? && target < |txs|))
  }

  /** The monitor's evidence for dropping a withdrawal, at an index of a block. */
  function MonitorDrop(keccak: Hasher, nonce: uint64, kind: DropKind, height: uint64, target: nat, txs: Values,
                       receipts: seq<Receipt>): DropRequest
    requires Names(kind, target, txs, receipts)
  {
    var values := Evidences(kind, txs, receipts);
    DropRequest(kind, nonce, height, target, values[target], MonitorProof(keccak, values, target))
  }

  /** The call with the verdict on its evidence. */
  function DropAction(c: Submission, verdict: H.DropProof): A.Action
    requires DropsHead(c)
  {
    match c
    case SubmitClear(_) => A.ClearNonce(verdict)
    case SubmitExpire(caller, nonce, _, l2Height) => A.ExpireWithdrawal(caller, nonce, verdict, l2Height)
    case SubmitCancel(caller, nonce, _) => A.CancelMyWithdrawal(caller, nonce, verdict)
  }

  /** The caller may drop the head. */
  predicate MayCall(s: State, c: Submission)
    requires DropsHead(c)
  {
    MayDrop(s, DropAction(c, H.Dropped))
  }

  /**
   Each of the three drop calls, made with the monitor's evidence: it is accepted, and refunds the head, if and
   only if the caller may drop it and the block has at that index some receipt of status 0, or some transaction
   of the chain with a later nonce.
   */
  lemma DropAcceptedExactly(host: Host, s: State, c: Submission, kind: DropKind, height: uint64, target: nat, txs: Values,
                            receipts: seq<Receipt>)
    requires QueueInv(s) && !s.paused && s.confirmed in s.spends && StoredBlock(host.keccak, s, height, txs, receipts)
    requires DropsHead(c) && Names(kind, target, txs, receipts)
    requires c.drop == MonitorDrop(host.keccak, s.confirmed, kind, height, target, txs, receipts)
    ensures
      || (&& (Accepted(host, s, c) <==> MayCall(s, c) && Droppable(s, kind, target, txs, receipts))
          && (Accepted(host, s, c) ==> EventsOf(host, s, c) == [Refund(s.spends[s.confirmed])]))
      || Ambiguous(host.keccak, Evidences(kind, txs, receipts), target)
  {
    hide A.Apply, HeaderStores.GetHeader, Commits, WellFormedReceipt, Fit, VerifyDrop, EncodeReceipt, LaterNonce, EventsOf;
    hide Ambiguous, MonitorProof, ReturnsHead;
    var ps := s.spends[s.confirmed];
    var a := Resolve(host, s, c);
    var verdict := VerifyDrop(host.keccak, s.chain.headers, ps, s.chainId, c.drop);
    DropIsSeen(host.keccak, s.chain.headers, ps, s.chainId, kind, s.confirmed, height, target, HeaderAt(s, height).value, txs,
               receipts);
    DropExactly(host.keccak, s, a);
    if c.SubmitClear? || c.nonce == s.confirmed {
      assert GetPendingSpend(s, s.confirmed) == Some(ps);
      assert a == DropAction(c, verdict);
    }
    if Accepted(host, s, c) {
      DropAccepted(host, s, c);
    }
  }

  /** The block has that to show for the head at the index. */
  predicate Droppable(s: State, kind: DropKind, target: nat, txs: Values, receipts: seq<Receipt>)
    requires Names(kind, target, txs, receipts)
  {
    if kind.RevertedReceipt? then receipts[target].status == 0 else LaterNonce(txs[target], s.chainId, s.confirmed)
  }

  /** The owner's own call, with the monitor's evidence. */
  function Cancel(keccak: Hasher, s: State, kind: DropKind, height: uint64, target: nat, txs: Values, receipts: seq<Receipt>)
    : Submission
    requires s.confirmed in s.spends && Names(kind, target, txs, receipts)
  {
    SubmitCancel(s.spends[s.confirmed].from, s.confirmed, MonitorDrop(keccak, s.confirmed, kind, height, target, txs, receipts))
  }

  lemma CancelExactly(host: Host, s: State, kind: DropKind, height: uint64, target: nat, txs: Values, receipts: seq<Receipt>)
    requires QueueInv(s) && !s.paused && s.confirmed in s.spends && StoredBlock(host.keccak, s, height, txs, receipts)
    requires Names(kind, target, txs, receipts)
    ensures var c := Cancel(host.keccak, s, kind, height, target, txs, receipts);
      || (&& (Accepted(host, s, c) <==> Droppable(s, kind, target, txs, receipts))
          && (Accepted(host, s, c) ==> EventsOf(host, s, c) == [Refund(s.spends[s.confirmed])]))
      || Ambiguous(host.keccak, Evidences(kind, txs, receipts), target)
  {
    hide QueueInv, StoredBlock, MonitorDrop, Droppable, Accepted, EventsOf, Ambiguous, Evidences;
    DropAcceptedExactly(host, s, Cancel(host.keccak, s, kind, height, target, txs, receipts), kind, height, target, txs, receipts);
  }

  /** The owner can have the head refunded from that block. */
  ghost predicate Refundable(host: Host, s: State, height: uint64, txs: Values, receipts: seq<Receipt>)
    requires s.confirmed in s.spends
  {
    exists kind, target: nat :: Names(kind, target, txs, receipts)
      && Accepted(host, s, Cancel(host.keccak, s, kind, height, target, txs, receipts))
  }

  ghost predicate SomeAmbiguous(keccak: Hasher, txs: Values, receipts: seq<Receipt>) {
    exists kind, target: nat :: Names(kind, target, txs, receipts) && Ambiguous(keccak, Evidences(kind, txs, receipts), target)
  }

  predicate SomeFailed(receipts: seq<Receipt>) {
    exists j :: 0 <= j < |receipts| && receipts[j].status == 0
  }

  predicate SomeLater(s: State, txs: Values) {
    exists j :: 0 <= j < |txs| && LaterNonce(txs[j], s.chainId, s.confirmed)
  }

  /**
   The owner can have the head refunded from a stored block if and only if some transaction of the block failed,
   whosever it is, or some transaction of the chain in it has a later nonce, whoever signed it.
   */
  lemma RefundableExactly(host: Host, s: State, height: uint64, txs: Values, receipts: seq<Receipt>)
    requires QueueInv(s) && !s.paused && s.confirmed in s.spends && StoredBlock(host.keccak, s, height, txs, receipts)
    ensures (Refundable(host, s, height, txs, receipts) <==> SomeFailed(receipts) || SomeLater(s, txs))
      || SomeAmbiguous(host.keccak, txs, receipts)
  {
    assert |receipts| < TWO_63;
    hide QueueInv, StoredBlock, Accepted, Cancel, EventsOf, Ambiguous, Evidences, LaterNonce;
    if !SomeAmbiguous(host.keccak, txs, receipts) {
      forall kind, target: nat | Names(kind, target, txs, receipts)
        ensures Accepted(host, s, Cancel(host.keccak, s, kind, height, target, txs, receipts))
          <==> Droppable(s, kind, target, txs, receipts)
      {
        CancelExactly(host, s, kind, height, target, txs, receipts);
      }
      if SomeFailed(receipts) {
        var j :| 0 <= j < |receipts| && receipts[j].status == 0;
        assert Names(RevertedReceipt, j, txs, receipts) && Droppable(s, RevertedReceipt, j, txs, receipts);
      } else if SomeLater(s, txs) {
        var j :| 0 <= j < |txs| && LaterNonce(txs[j], s.chainId, s.confirmed);
        assert Names(BlockInclusion, j, txs, receipts) && Droppable(s, BlockInclusion, j, txs, receipts);
      }
    }
  }

  // ----- Paid and refunded -----

  /**
   So a head that the block shows as paid, by its own transaction at one index, is refunded all the same with any
   failed receipt or any later nonce at another index of the block.
   */
  lemma PaidIsRefunded(host: Host, s: State, kind: DropKind, height: uint64, target: nat, paid: nat, txs: Values,
                       receipts: seq<Receipt>)
    requires QueueInv(s) && !s.paused && s.confirmed in s.spends && StoredBlock(host.keccak, s, height, txs, receipts)
    requires paid < |txs| && ShowsSpend(host, s.spends[s.confirmed], s.chainId, paid, true, txs, receipts)
    requires Names(kind, target, txs, receipts) && Droppable(s, kind, target, txs, receipts)
    ensures target != paid
    ensures var c := Cancel(host.keccak, s, kind, height, target, txs, receipts);
      || (Accepted(host, s, c) && EventsOf(host, s, c) == [Refund(s.spends[s.confirmed])])
      || Ambiguous(host.keccak, Evidences(kind, txs, receipts), target)
  {
    assert Sound(s.spends[s.confirmed], s.confirmed);
    assert target != paid by {
      hide Signer, ParseTransaction;
    }
    hide QueueInv, StoredBlock, Accepted, Cancel, EventsOf, Ambiguous, Evidences, ShowsSpend, Droppable;
    CancelExactly(host, s, kind, height, target, txs, receipts);
  }

  // ----- What would exclude payment -----

  datatype Block = Block(txs: Values, receipts: seq<Receipt>)

  /** A transaction of the chain under that nonce, signed by that account. */
  predicate TakesNonce(host: Host, raw: Bytes, chainId: uint64, nonce: uint64, signer: Address) {
    && ParseTransaction(raw).Ok?
    && var tx := ParseTransaction(raw).value;
    && tx.chainId == chainId && tx.nonce == nonce && Signer(host.keccak, host.strict, raw, tx) == Some(signer)
  }

  /** A place in the blocks of the chain, with both a transaction and a receipt. */
  predicate Place(chain: seq<Block>, b: nat, i: nat) {
    b < |chain| && i < |chain[b].txs| && i < |chain[b].receipts|
  }

  /** Ethereum mines at most one transaction of an account under a nonce. */
  ghost predicate OncePerNonce(host: Host, chain: seq<Block>, chainId: uint64, nonce: uint64, signer: Address) {
    forall b: nat, i: nat, c: nat, j: nat :: Place(chain, b, i) && Place(chain, c, j)
      && TakesNonce(host, chain[b].txs[i], chainId, nonce, signer) && TakesNonce(host, chain[c].txs[j], chainId, nonce, signer)
      ==> b == c && i == j
  }

  /** Some block of the chain shows the withdrawal as paid. */
  ghost predicate EverPaid(host: Host, ps: PendingSpend, chainId: uint64, chain: seq<Block>) {
    exists b: nat, i: nat :: Place(chain, b, i) && ShowsSpend(host, ps, chainId, i, true, chain[b].txs, chain[b].receipts)
  }

  /**
   The guard that is missing. Once the vault's nonce is taken, the withdrawal was paid somewhere on the chain if
   and only if the transaction that took it is the withdrawal and its receipt says success; any other outcome
   there excludes payment.
   */
  lemma NonceDecides(host: Host, ps: PendingSpend, chainId: uint64, chain: seq<Block>, b: nat, i: nat)
    requires OncePerNonce(host, chain, chainId, ps.nonce, ps.vaultAtQueue) && Place(chain, b, i)
    requires TakesNonce(host, chain[b].txs[i], chainId, ps.nonce, ps.vaultAtQueue)
    ensures EverPaid(host, ps, chainId, chain) <==>
      Delivers(ps, ParseTransaction(chain[b].txs[i]).value, chainId) && chain[b].receipts[i].status == 1
  {
    hide Signer, ParseTransaction;
    if EverPaid(host, ps, chainId, chain) {
      var c: nat, j: nat :| Place(chain, c, j) && ShowsSpend(host, ps, chainId, j, true, chain[c].txs, chain[c].receipts);
      assert TakesNonce(host, chain[c].txs[j], chainId, ps.nonce, ps.vaultAtQueue);
    }
    if Delivers(ps, ParseTransaction(chain[b].txs[i]).value, chainId) && chain[b].receipts[i].status == 1 {
      assert ShowsSpend(host, ps, chainId, i, true, chain[b].txs, chain[b].receipts);
    }
  }

  /** With the guard, a refund on a failed receipt would be what it is meant to be: of a withdrawal never paid. */
  lemma GuardedRefundIsUnpaid(host: Host, s: State, c: Submission, chain: seq<Block>, b: nat)
    requires QueueInv(s) && DropsHead(c) && c.drop.kind.RevertedReceipt? && Accepted(host, s, c)
    requires b < |chain| && StoredBlock(host.keccak, s, c.drop.height, chain[b].txs, chain[b].receipts)
    requires s.confirmed in s.spends && Guarded(host, s, c.drop.index, chain[b])
    requires OncePerNonce(host, chain, s.chainId, s.confirmed, s.spends[s.confirmed].vaultAtQueue)
    ensures !EverPaid(host, s.spends[s.confirmed], s.chainId, chain)
      || Forged(host.keccak, Evidences(RevertedReceipt, chain[b].txs, chain[b].receipts), c.drop.index, c.drop.proof)
  {
    var ps, block, i := s.spends[s.confirmed], chain[b], c.drop.index;
    assert Sound(ps, s.confirmed);
    RefundIsReal(host, s, c, block.txs, block.receipts);
    hide QueueInv, StoredBlock, Accepted, EventsOf, Forged, OncePerNonce, EverPaid, TakesNonce, DropsHead, Delivers;
    if ShowsDrop(ps, s.chainId, c.drop, block.txs, block.receipts) {
      NonceDecides(host, ps, s.chainId, chain, b, i);
    }
  }

  /** The transaction at the index is the vault's, under the head's nonce. */
  predicate Guarded(host: Host, s: State, index: uint64, block: Block)
    requires s.confirmed in s.spends
  {
    index < |block.txs| && TakesNonce(host, block.txs[index], s.chainId, s.confirmed, s.spends[s.confirmed].vaultAtQueue)
  }
}
