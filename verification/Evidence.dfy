/** How the contract turns submitted bytes and proofs into the verdicts its handlers act on. */
module Evidence {
  import opened ByteStrings
  import opened Blocklist
  import opened Receipts
  import opened Transactions
  import opened Ledger
  import BlockProofs
  import H = Handlers
  import HeaderStores
  import Mpt
  import ProofBytes

  /** Who signed a hash, as the host recovers it from recovery byte, r and s. */
  type Recover = (Hash, byte, Bytes, Bytes) -> Option<Address>

  /** A deposit request: raw is the transaction or the receipt, proof the concatenated trie nodes. */
  datatype Request = Request(index: uint64, logIndex: uint64, raw: Bytes, proof: Bytes)

  /** The evidence of a settled withdrawal: transaction and receipt at one index. */
  datatype Settlement = Settlement(index: uint64, tx: Bytes, txProof: Bytes, receipt: Bytes, receiptProof: Bytes)

  /** What kind of proof a drop request names: none at all, one of the two known kinds, or something else. */
  datatype DropKind = NoKind | RevertedReceipt | BlockInclusion | UnknownKind

  /** What is submitted to have a withdrawal dropped: a receipt or a transaction at one index of a block. */
  datatype DropRequest = DropRequest(kind: DropKind, txNonce: uint64, height: uint64, index: uint64, raw: Bytes, proof: Bytes)

  const MAX_LOG_INDEX := 10000

  function TransferEvent(): (s: Hash)
  {
    [0xdd, 0xf2, 0x52, 0xad, 0x1b, 0xe2, 0xc8, 0x9b, 0x69, 0xc2, 0xb0, 0x68, 0xfc, 0x37, 0x8d, 0xaa,
     0x95, 0x2b, 0xa7, 0xf1, 0x63, 0xc4, 0xa1, 0x16, 0x28, 0xf5, 0x5a, 0x4d, 0xf5, 0x23, 0xb3, 0xef]
  }

  /** The submitted bytes are what the proof shows at the index under the root. */
  predicate Proves(keccak: Hasher, root: Hash, index: uint64, raw: Bytes, proof: Bytes) {
    Mpt.VerifyProof(keccak, root, BlockProofs.IndexKey(index), ProofBytes.SplitProofNodes(proof)) == Ok(raw)
  }

  /** The recovered signer; the zero address counts as a failure. */
  function Signer(keccak: Hasher, recover: Recover, raw: Bytes, tx: ParsedTx): Option<Address> {
    match recover(keccak(SighashPreimage(raw, tx)), LowByte(27 + tx.v as int), PadTo32(tx.r), PadTo32(tx.s))
    case None => None
    case Some(a) => if a == Zeros(20) then None else Some(a)
  }

  /** What a transaction's bytes say about a deposit into the vault; did names the sender's account. */
  function ReadETHDeposit(keccak: Hasher, recover: Recover, did: Address -> H.Did, vault: Address, chainId: uint64,
                          raw: Bytes): H.DepositProof
  {
    match ParseTransaction(raw)
    case Err(_) => H.Rejected
    case Ok(tx) =>
      if tx.chainId != chainId || tx.to != vault then H.Rejected
      else
        match Signer(keccak, recover, raw, tx)
        case None => H.Rejected
        case Some(sender) => H.Deposit(did(sender), FromBigEndian(tx.value))
  }

  /** VerifyETHDeposit, apart from the observed check. */
  function VerifyETHDeposit(keccak: Hasher, recover: Recover, did: Address -> H.Did, header: Option<Header>,
                            vault: Address, chainId: uint64, req: Request): H.DepositProof
  {
    if header.None? || !Proves(keccak, header.value.transactionsRoot, req.index, req.raw, req.proof) then H.Rejected
    else ReadETHDeposit(keccak, recover, did, vault, chainId, req.raw)
  }

  /** The log is a transfer of the token to the vault from somebody. */
  predicate IsVaultTransfer(log: ParsedLog, vault: Address, token: Address) {
    && log.address == token && |log.topics| >= 3
    && log.topics[0] == TransferEvent() && log.topics[2] == Zeros(12) + vault
    && log.topics[1][12..] != Zeros(20)
  }

  function ReadERC20Deposit(did: Address -> H.Did, vault: Address, token: Address, logIndex: uint64, raw: Bytes): H.DepositProof
  {
    match ParseReceiptLogs(raw)
    case Err(_) => H.Rejected
    case Ok(logs) =>
      if logIndex > MAX_LOG_INDEX || logIndex >= |logs| then H.Rejected
      else
        var log := logs[logIndex];
        if !IsVaultTransfer(log, vault, token) then H.Rejected
        else H.Deposit(did(log.topics[1][12..]), FromBigEndian(log.data))
  }

  /** VerifyERC20Deposit, apart from the observed check. */
  function VerifyERC20Deposit(keccak: Hasher, did: Address -> H.Did, header: Option<Header>, vault: Address,
                              token: Address, chainId: uint64, req: Request): H.DepositProof
  {
    if header.None? || header.value.chainId != chainId
       || !Proves(keccak, header.value.receiptsRoot, req.index, req.raw, req.proof) then H.Rejected
    else ReadERC20Deposit(did, vault, token, req.logIndex, req.raw)
  }

  /** The proofs of HandleConfirmSpend: transaction and receipt at the same index, signer recovered. */
  function VerifySpend(keccak: Hasher, recover: Recover, header: Header, e: Settlement): H.SpendProof {
    if !Proves(keccak, header.transactionsRoot, e.index, e.tx, e.txProof) then H.Unproven
    else
      match ParseTransaction(e.tx)
      case Err(_) => H.Unproven
      case Ok(tx) =>
        match Signer(keccak, recover, e.tx, tx)
        case None => H.Unproven
        case Some(signer) =>
          if !Proves(keccak, header.receiptsRoot, e.index, e.receipt, e.receiptProof) then H.Unproven
          else
            match ReceiptStatus(e.receipt)
            case None => H.Unproven
            case Some(status) => H.Proven(tx, signer, status)
  }

  /**
   verifyL1ProofOfDrop: the receipt of some reverted transaction, or some transaction with a later nonce than
   the spend's. Neither the signer nor the height is compared with the spend's.
   */
  function VerifyDrop(keccak: Hasher, headers: map<uint64, Bytes>, ps: PendingSpend, chainId: uint64, d: DropRequest): H.DropProof {
    if d.kind.NoKind? then H.Missing
    else if d.txNonce != ps.nonce then H.Refused
    else
      match HeaderStores.GetHeader(headers, d.height)
      case None => H.Refused
      case Some(header) =>
        match d.kind
        case RevertedReceipt =>
          if Proves(keccak, header.receiptsRoot, d.index, d.raw, d.proof) && ReceiptStatus(d.raw) == Some(0) then H.Dropped
          else H.Refused
        case BlockInclusion =>
          if !Proves(keccak, header.transactionsRoot, d.index, d.raw, d.proof) then H.Refused
          else
            (match ParseTransaction(d.raw)
             case Err(_) => H.Refused
             case Ok(tx) => if (chainId != 0 && tx.chainId != chainId) || tx.nonce <= d.txNonce then H.Refused else H.Dropped)
        case _ => H.Refused
  }
}
