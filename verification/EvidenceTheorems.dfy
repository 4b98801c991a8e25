/** The verdicts are about the block the header commits to. */
module EvidenceTheorems {
  import opened ByteStrings
  import opened Blocklist
  import opened BlockProofs
  import opened Evidence
  import opened Ledger
  import opened MonitorTheorems
  import opened MptTheorems
  import opened Receipts
  import opened Transactions
  import H = Handlers
  import HeaderStores
  import Mpt
  import ProofBytes
  import ProofTheorems
  import Trie

  /** The root of a block's transactions or receipts, when it is a hash. */
  ghost predicate Commits(keccak: Hasher, root: Hash, values: Values) {
    && Fit(values)
    && Trie.WellFormed(BlockTrie(values)) && root == Trie.TrieRoot(keccak, BlockTrie(values))
  }

  /** An offered node collides with one of the honest proof's. */
  ghost predicate Forged(keccak: Hasher, values: Values, index: uint64, proof: Bytes) {
    && Trie.WellFormed(BlockTrie(values))
    && Collision(keccak, ProofBytes.SplitProofNodes(proof),
                 ProofTheorems.HonestNodes(keccak, BlockTrie(values), IndexKey(index)))
  }

  /** What is proven at an index is the value at that index. */
  lemma ProvenIsThere(keccak: Hasher, root: Hash, values: Values, index: uint64, raw: Bytes, proof: Bytes)
    requires Commits(keccak, root, values) && Proves(keccak, root, index, raw, proof)
    ensures (index < |values| && raw == values[index]) || Forged(keccak, values, index, proof)
  {
    hide Trie.Build, Trie.WellFormed, Mpt.VerifyProof, Collision, IndexKey, ProofBytes.SplitProofNodes;
    var nodes := ProofBytes.SplitProofNodes(proof);
    NothingElseVerifies(keccak, values, IndexKey(index), nodes, root, raw);
    if !Collision(keccak, nodes, ProofTheorems.HonestNodes(keccak, BlockTrie(values), IndexKey(index))) {
      var i :| 0 <= i < |values| && IndexKey(index) == IndexKey(i) && raw == values[i];
      IndexKeysPrefixFree(index, i);
    }
  }

  /** The monitor's own proof of a value is accepted, or two of its nodes collide. */
  lemma HonestProves(keccak: Hasher, values: Values, target: uint64)
    requires target < |values| && Fit(values) && !TinyBlock(values)
    ensures |BuildProof(keccak, values, target).root| == 32
    ensures var p := BuildProof(keccak, values, target);
      Proves(keccak, p.root, target, values[target], Concat(p.nodes)) || Collision(keccak, p.nodes, p.nodes)
  {
    hide Trie.Build, Trie.CollectProof, Trie.TrieRoot, Mpt.VerifyProof, Collision, IndexKey, ProofBytes.SplitProofNodes;
    EndToEnd(keccak, values, target);
  }

  /** The nodes the monitor sends for the value at an index. */
  function MonitorProof(keccak: Hasher, values: Values, target: nat): Bytes
    requires target < |values|
  {
    Concat(BuildProof(keccak, values, target).nodes)
  }

  /** Two of those nodes collide. */
  ghost predicate Ambiguous(keccak: Hasher, values: Values, target: nat)
    requires target < |values|
  {
    Collision(keccak, BuildProof(keccak, values, target).nodes, BuildProof(keccak, values, target).nodes)
  }

  /** Against a root that commits to the values, the monitor's proof of each is accepted. */
  lemma CommittedProves(keccak: Hasher, root: Hash, values: Values, target: nat)
    requires Commits(keccak, root, values) && target < |values|
    ensures Proves(keccak, root, target, values[target], MonitorProof(keccak, values, target)) || Ambiguous(keccak, values, target)
  {
    hide Trie.Build, Trie.CollectProof, Trie.TrieRoot, Proves, Collision, IndexKey, Trie.WellFormed;
    RootIsHashUnlessTiny(keccak, values);
    HonestProves(keccak, values, target);
  }

  // ----- Deposits -----

  /** The transaction pays that amount into the vault on the contract's chain, signed by the depositor. */
  predicate PaysVault(keccak: Hasher, recover: Recover, did: Address -> H.Did, vault: Address, chainId: uint64,
                      raw: Bytes, d: H.DepositProof)
  {
    && d.Deposit? && ParseTransaction(raw).Ok?
    && var tx := ParseTransaction(raw).value;
    && tx.chainId == chainId && tx.to == vault && d.amount == FromBigEndian(tx.value)
    && Signer(keccak, recover, raw, tx).Some? && d.depositor == did(Signer(keccak, recover, raw, tx).value)
  }

  lemma ETHRead(keccak: Hasher, recover: Recover, did: Address -> H.Did, vault: Address, chainId: uint64, raw: Bytes,
                d: H.DepositProof)
    ensures d.Deposit? && ReadETHDeposit(keccak, recover, did, vault, chainId, raw) == d
      <==> PaysVault(keccak, recover, did, vault, chainId, raw, d)
  {
    hide ParseTransaction, Signer, FromBigEndian;
  }

  /**
   An accepted ETH deposit is the block's transaction at that index: it pays the amount into the vault on
   the contract's chain and the depositor signed it. Otherwise a proof node was forged.
   */
  lemma ETHDepositIsReal(keccak: Hasher, recover: Recover, did: Address -> H.Did, header: Header, vault: Address,
                         chainId: uint64, req: Request, txs: Values)
    requires Commits(keccak, header.transactionsRoot, txs)
    requires VerifyETHDeposit(keccak, recover, did, Some(header), vault, chainId, req).Deposit?
    ensures var d := VerifyETHDeposit(keccak, recover, did, Some(header), vault, chainId, req);
      || (req.index < |txs| && req.raw == txs[req.index]
          && PaysVault(keccak, recover, did, vault, chainId, txs[req.index], d))
      || Forged(keccak, txs, req.index, req.proof)
  {
    hide ReadETHDeposit, Forged, Commits, Proves, PaysVault;
    ProvenIsThere(keccak, header.transactionsRoot, txs, req.index, req.raw, req.proof);
    ETHRead(keccak, recover, did, vault, chainId, req.raw,
            VerifyETHDeposit(keccak, recover, did, Some(header), vault, chainId, req));
  }

  /** With the monitor's proof, exactly the transactions of the block that pay into the vault are accepted. */
  lemma ETHDepositIsSeen(keccak: Hasher, recover: Recover, did: Address -> H.Did, header: Header, vault: Address,
                         chainId: uint64, txs: Values, target: nat, d: H.DepositProof)
    requires target < |txs| && Commits(keccak, header.transactionsRoot, txs) && d.Deposit?
    ensures var req := Request(target, 0, txs[target], MonitorProof(keccak, txs, target));
      || (VerifyETHDeposit(keccak, recover, did, Some(header), vault, chainId, req) == d
          <==> PaysVault(keccak, recover, did, vault, chainId, txs[target], d))
      || Ambiguous(keccak, txs, target)
  {
    hide ReadETHDeposit, MonitorProof, Commits, Proves, Ambiguous, PaysVault;
    CommittedProves(keccak, header.transactionsRoot, txs, target);
    ETHRead(keccak, recover, did, vault, chainId, txs[target], d);
  }

  /** Where the bytes are the monitor's encoding of a type-2 transaction, the fields are that transaction's. */
  lemma EIP1559PaysVault(keccak: Hasher, recover: Recover, did: Address -> H.Did, vault: Address, chainId: uint64,
                         tx: MonitorTx, d: H.DepositProof)
    requires Reasonable(tx) && tx.v < 256 && |EncodeMonitorEIP1559(tx)| < TWO_63
    ensures PaysVault(keccak, recover, did, vault, chainId, EncodeMonitorEIP1559(tx), d) <==>
      PaysFields(keccak, recover, did, vault, chainId, tx, UnsignedEncoding(tx), tx.chainId, tx.v, d)
  {
    hide EncodeMonitorEIP1559, UnsignedEncoding, ParseTransaction, SighashPreimage, PadTo32, ToBigEndian, FromBigEndian;
    EIP1559RoundTrip(tx);
    FromToBigEndian(tx.value);
  }

  /** The same of a legacy transaction, whose v carries chain id and recovery bit. */
  lemma LegacyPaysVault(keccak: Hasher, recover: Recover, did: Address -> H.Did, vault: Address, chainId: uint64,
                        tx: MonitorTx, c: nat, y: nat, d: H.DepositProof)
    requires Reasonable(tx) && y <= 1 && tx.v == 2 * c + 35 + y
    ensures PaysVault(keccak, recover, did, vault, chainId, EncodeMonitorLegacy(tx), d) <==>
      PaysFields(keccak, recover, did, vault, chainId, tx, LegacyUnsigned(tx, c), c, y, d)
  {
    hide EncodeMonitorLegacy, LegacyUnsigned, ParseTransaction, SighashPreimage, PadTo32, ToBigEndian, FromBigEndian;
    LegacyRoundTrip(tx, c, y);
    FromToBigEndian(tx.value);
  }

  /** On this chain, to the vault, for the amount, and signed over the unsigned form by the depositor. */
  predicate PaysFields(keccak: Hasher, recover: Recover, did: Address -> H.Did, vault: Address, chainId: uint64,
                       tx: MonitorTx, unsigned: Bytes, txChain: nat, parity: nat, d: H.DepositProof)
    requires parity < 256
  {
    && d.Deposit? && txChain == chainId && ToField(tx.to) == vault && d.amount == tx.value
    && var signer := recover(keccak(unsigned), LowByte(27 + parity), PadTo32(ToBigEndian(tx.r)), PadTo32(ToBigEndian(tx.s)));
    && signer.Some? && signer.value != Zeros(20) && d.depositor == did(signer.value)
  }

  ghost predicate WellFormedReceipts(receipts: seq<Receipt>) {
    && |receipts| < TWO_63 && Fit(EncodeReceipts(receipts))
    && forall r :: r in receipts ==> WellFormedReceipt(r)
  }

  /** The hash of Transfer(address,address,uint256), as the ERC-20 standard's event has it for its first topic. */
  function TransferTopic(): Bytes {
    [0xdd, 0xf2, 0x52, 0xad, 0x1b, 0xe2, 0xc8, 0x9b, 0x69, 0xc2, 0xb0, 0x68, 0xfc, 0x37, 0x8d, 0xaa,
     0x95, 0x2b, 0xa7, 0xf1, 0x63, 0xc4, 0xa1, 0x16, 0x28, 0xf5, 0x5a, 0x4d, 0xf5, 0x23, 0xb3, 0xef]
  }

  /** The log is a transfer of that amount of the token from a non-zero address to the vault. */
  ghost predicate TransfersToVault(log: Log, vault: Address, token: Address, amount: nat) {
    && log.address == token && |log.topics| >= 3 && |log.topics[1]| == 32
    && log.topics[0] == TransferTopic() && log.topics[2] == Zeros(12) + vault && log.topics[1][12..] != Zeros(20)
    && amount == FromBigEndian(log.data)
  }

  /** The verdict credits the sender of that log with its amount. */
  ghost predicate CreditsLog(did: Address -> H.Did, vault: Address, token: Address, logIndex: uint64, r: Receipt,
                             d: H.DepositProof)
  {
    && d.Deposit? && logIndex < |r.logs|
    && TransfersToVault(r.logs[logIndex], vault, token, d.amount)
    && d.depositor == did(r.logs[logIndex].topics[1][12..])
  }

  lemma LogRead(did: Address -> H.Did, vault: Address, token: Address, logIndex: uint64, r: Receipt, d: H.DepositProof)
    requires WellFormedReceipt(r) && |EncodeReceipt(r)| < TWO_63 && d.Deposit?
    ensures ReadERC20Deposit(did, vault, token, logIndex, EncodeReceipt(r)) == d
      <==> logIndex <= 10000 && CreditsLog(did, vault, token, logIndex, r, d)
  {
    hide EncodeReceipt, ParseReceiptLogs, FromBigEndian;
    ReceiptAgreement(r);
    if logIndex < |r.logs| {
      var log := r.logs[logIndex];
      assert SameLog(log, ParseReceiptLogs(EncodeReceipt(r)).value[logIndex]);
      assert WellFormedLog(log);
      assert |log.topics| >= 3 ==> log.topics[1] in log.topics;
    }
  }

  lemma ERC20Read(keccak: Hasher, did: Address -> H.Did, header: Header, vault: Address, token: Address,
                  chainId: uint64, req: Request)
    requires VerifyERC20Deposit(keccak, did, Some(header), vault, token, chainId, req).Deposit?
    ensures header.chainId == chainId && Proves(keccak, header.receiptsRoot, req.index, req.raw, req.proof)
    ensures VerifyERC20Deposit(keccak, did, Some(header), vault, token, chainId, req)
      == ReadERC20Deposit(did, vault, token, req.logIndex, req.raw)
  {
    hide ReadERC20Deposit, Proves;
  }

  lemma ReceiptAt(receipts: seq<Receipt>, i: nat)
    requires WellFormedReceipts(receipts) && i < |receipts|
    ensures WellFormedReceipt(receipts[i]) && |EncodeReceipt(receipts[i])| < TWO_63
    ensures EncodeReceipts(receipts)[i] == EncodeReceipt(receipts[i])
  {
    hide EncodeReceipt, WellFormedReceipt;
    assert receipts[i] in receipts && EncodeReceipts(receipts)[i] in EncodeReceipts(receipts);
  }

  /** An accepted token deposit is the transfer at that index and log index of the block's receipts. */
  lemma ERC20DepositIsReal(keccak: Hasher, did: Address -> H.Did, header: Header, vault: Address, token: Address,
                           chainId: uint64, req: Request, receipts: seq<Receipt>)
    requires WellFormedReceipts(receipts) && Commits(keccak, header.receiptsRoot, EncodeReceipts(receipts))
    requires VerifyERC20Deposit(keccak, did, Some(header), vault, token, chainId, req).Deposit?
    ensures var d := VerifyERC20Deposit(keccak, did, Some(header), vault, token, chainId, req);
      || (&& header.chainId == chainId && req.index < |receipts| && req.raw == EncodeReceipt(receipts[req.index])
          && CreditsLog(did, vault, token, req.logIndex, receipts[req.index], d))
      || Forged(keccak, EncodeReceipts(receipts), req.index, req.proof)
  {
    hide VerifyERC20Deposit, ReadERC20Deposit, Forged, Commits, Proves, EncodeReceipt, EncodeReceipts, CreditsLog;
    hide WellFormedReceipt, Fit;
    var values := EncodeReceipts(receipts);
    ERC20Read(keccak, did, header, vault, token, chainId, req);
    ProvenIsThere(keccak, header.receiptsRoot, values, req.index, req.raw, req.proof);
    if !Forged(keccak, values, req.index, req.proof) {
      ReceiptAt(receipts, req.index);
      LogRead(did, vault, token, req.logIndex, receipts[req.index],
              VerifyERC20Deposit(keccak, did, Some(header), vault, token, chainId, req));
    }
  }

  /** With the monitor's proof, exactly the transfers to the vault at log indices of at most 10000 are accepted. */
  lemma ERC20DepositIsSeen(keccak: Hasher, did: Address -> H.Did, header: Header, vault: Address, token: Address,
                           chainId: uint64, receipts: seq<Receipt>, target: nat, logIndex: uint64, d: H.DepositProof)
    requires WellFormedReceipts(receipts) && Commits(keccak, header.receiptsRoot, EncodeReceipts(receipts))
    requires target < |receipts| && d.Deposit?
    ensures var values := EncodeReceipts(receipts);
      var req := Request(target, logIndex, values[target], MonitorProof(keccak, values, target));
      || (VerifyERC20Deposit(keccak, did, Some(header), vault, token, chainId, req) == d <==>
          && header.chainId == chainId && logIndex <= 10000
          && CreditsLog(did, vault, token, logIndex, receipts[target], d))
      || Ambiguous(keccak, EncodeReceipts(receipts), target)
  {
    hide ReadERC20Deposit, MonitorProof, Commits, Proves, Ambiguous, CreditsLog, EncodeReceipt, WellFormedReceipt;
    CommittedProves(keccak, header.receiptsRoot, EncodeReceipts(receipts), target);
    ReceiptAt(receipts, target);
    LogRead(did, vault, token, logIndex, receipts[target], d);
  }

  // ----- Settlement -----

  /** A proven spend is the block's transaction at the index, with the status of the receipt at the same index. */
  lemma SpendIsReal(keccak: Hasher, recover: Recover, header: Header, e: Evidence.Settlement, txs: Values, receipts: seq<Receipt>)
    requires Commits(keccak, header.transactionsRoot, txs)
    requires WellFormedReceipts(receipts) && Commits(keccak, header.receiptsRoot, EncodeReceipts(receipts))
    requires VerifySpend(keccak, recover, header, e).Proven?
    ensures var p := VerifySpend(keccak, recover, header, e);
      || (&& e.index < |txs| && e.index < |receipts|
          && ParseTransaction(txs[e.index]) == Ok(p.tx)
          && Signer(keccak, recover, txs[e.index], p.tx) == Some(p.signer)
          && p.status == receipts[e.index].status)
      || Forged(keccak, txs, e.index, e.txProof) || Forged(keccak, EncodeReceipts(receipts), e.index, e.receiptProof)
  {
    hide Forged, Commits, Proves, EncodeReceipt, WellFormedReceipt, ParseTransaction, Signer, ReceiptStatus;
    var values := EncodeReceipts(receipts);
    ProvenIsThere(keccak, header.transactionsRoot, txs, e.index, e.tx, e.txProof);
    ProvenIsThere(keccak, header.receiptsRoot, values, e.index, e.receipt, e.receiptProof);
    if !Forged(keccak, values, e.index, e.receiptProof) {
      var r := receipts[e.index];
      ReceiptAt(receipts, e.index);
      ReceiptAgreement(r);
    }
  }

  /** A transaction of the chain with a nonce above that one, whoever signed it. */
  predicate LaterNonce(raw: Bytes, chainId: uint64, nonce: uint64) {
    && ParseTransaction(raw).Ok?
    && var tx := ParseTransaction(raw).value;
    tx.nonce > nonce && (chainId == 0 || tx.chainId == chainId)
  }

  /**
   The block holds what the drop request names: at its index a receipt of status 0, whatever transaction it is
   of, or a transaction of the chain with a later nonce.
   */
  ghost predicate ShowsDrop(ps: PendingSpend, chainId: uint64, d: DropRequest, txs: Values, receipts: seq<Receipt>) {
    && d.txNonce == ps.nonce
    && if d.kind.RevertedReceipt? then d.index < |receipts| && receipts[d.index].status == 0
       else d.index < |txs| && LaterNonce(txs[d.index], chainId, ps.nonce)
  }

  /**
   With the monitor's proof the verdict is exactly that: nothing ties the receipt to the withdrawal, and
   nothing the later transaction to the vault.
   */
  lemma DropIsSeen(keccak: Hasher, headers: map<uint64, Bytes>, ps: PendingSpend, chainId: uint64, kind: DropKind, nonce: uint64,
                   height: uint64, target: nat, header: Header, txs: Values, receipts: seq<Receipt>)
    requires (kind.RevertedReceipt? && target < |receipts|) || (kind.BlockInclusion? && target < |txs|)
    requires HeaderStores.GetHeader(headers, height) == Some(header)
    requires Commits(keccak, header.transactionsRoot, txs)
    requires WellFormedReceipts(receipts) && Commits(keccak, header.receiptsRoot, EncodeReceipts(receipts))
    ensures var values := if kind.RevertedReceipt? then EncodeReceipts(receipts) else txs;
      var d := DropRequest(kind, nonce, height, target, values[target], MonitorProof(keccak, values, target));
      || (VerifyDrop(keccak, headers, ps, chainId, d) == H.Dropped <==> ShowsDrop(ps, chainId, d, txs, receipts))
      || Ambiguous(keccak, values, target)
  {
    hide MonitorProof, Ambiguous, Commits, Proves, EncodeReceipt, WellFormedReceipt, ParseTransaction, ReceiptStatus;
    hide HeaderStores.GetHeader;
    if kind.RevertedReceipt? {
      CommittedProves(keccak, header.receiptsRoot, EncodeReceipts(receipts), target);
      ReceiptAt(receipts, target);
      ReceiptAgreement(receipts[target]);
    } else {
      CommittedProves(keccak, header.transactionsRoot, txs, target);
    }
  }

  /** An accepted drop proof is about the block of its header, or a node was forged. */
  lemma DropIsReal(keccak: Hasher, headers: map<uint64, Bytes>, ps: PendingSpend, chainId: uint64, d: DropRequest,
                   header: Header, txs: Values, receipts: seq<Receipt>)
    requires VerifyDrop(keccak, headers, ps, chainId, d) == H.Dropped && HeaderStores.GetHeader(headers, d.height) == Some(header)
    requires Commits(keccak, header.transactionsRoot, txs)
    requires WellFormedReceipts(receipts) && Commits(keccak, header.receiptsRoot, EncodeReceipts(receipts))
    ensures ShowsDrop(ps, chainId, d, txs, receipts)
      || Forged(keccak, if d.kind.RevertedReceipt? then EncodeReceipts(receipts) else txs, d.index, d.proof)
  {
    hide Forged, Commits, Proves, EncodeReceipt, WellFormedReceipt, ParseTransaction, ReceiptStatus, HeaderStores.GetHeader;
    if d.kind.RevertedReceipt? {
      var values := EncodeReceipts(receipts);
      ProvenIsThere(keccak, header.receiptsRoot, values, d.index, d.raw, d.proof);
      if !Forged(keccak, values, d.index, d.proof) {
        ReceiptAt(receipts, d.index);
        ReceiptAgreement(receipts[d.index]);
      }
    } else {
      ProvenIsThere(keccak, header.transactionsRoot, txs, d.index, d.raw, d.proof);
    }
  }
}
