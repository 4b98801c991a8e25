/** A run after which a withdrawal that a stored block shows as paid is refunded all the same. */
module PaidRun {
  import opened ByteStrings
  import opened Blocklist
  import opened BlockProofs
  import opened DropTheorems
  import opened Evidence
  import opened EvidenceTheorems
  import opened History
  import opened Ledger
  import opened MinedTheorems
  import opened Receipts
  import opened SampleRun
  import opened Submissions
  import opened SubmissionTheorems
  import opened TransactionTheorems
  import opened WithdrawalQueue
  import opened WithdrawalTheorems
  import A = Actions
  import Erc20
  import H = Handlers
  import HeaderStores
  import Rlp
  import Transactions
  import Trie

  datatype Signature = Signature(v: byte, r: Hash, s: Hash)

  /** A transaction of the vault that carries no ether. */
  function Unsigned(nonce: uint64, gas: uint64, to: Address, data: Bytes): Bytes {
    Transactions.BuildEIP1559Tx(1, nonce, H.GAS_TIP_CAP, H.GAS_TIP_CAP, gas, to, 0, data)
  }

  function Signed(nonce: uint64, gas: uint64, to: Address, data: Bytes, sig: Signature): Bytes
    requires |data| <= 65536
  {
    WithdrawalRoundTrip(1, nonce, H.GAS_TIP_CAP, H.GAS_TIP_CAP, gas, to, 0, data, sig.v, sig.r, sig.s);
    Transactions.AttachSignature(Unsigned(nonce, gas, to, data), sig.v, sig.r, sig.s).value
  }

  lemma SignedReads(nonce: uint64, gas: uint64, to: Address, data: Bytes, sig: Signature)
    requires |data| <= 65536
    ensures var raw, tx := Signed(nonce, gas, to, data, sig), Transactions.ParsedTx(1, nonce, to, [], data, sig.v, sig.r, sig.s);
      && Transactions.AttachSignature(Unsigned(nonce, gas, to, data), sig.v, sig.r, sig.s) == Ok(raw)
      && Transactions.ParseTransaction(raw) == Ok(tx)
      && Transactions.SighashPreimage(raw, tx) == Unsigned(nonce, gas, to, data)
      && Transactions.PadTo32(tx.r) == sig.r && Transactions.PadTo32(tx.s) == sig.s
  {
    hide Transactions.AttachSignature, Transactions.BuildEIP1559Tx, Transactions.ParseTransaction, Transactions.SighashPreimage;
    hide Transactions.PadTo32;
    WithdrawalRoundTrip(1, nonce, H.GAS_TIP_CAP, H.GAS_TIP_CAP, gas, to, 0, data, sig.v, sig.r, sig.s);
  }

  // ----- Sizes -----

  /** Fields as small as those of a withdrawal. */
  predicate Small(item: Rlp.Item) {
    item == Rlp.List([]) || (item.Str? && |item.data| <= Erc20.CALLDATA_SIZE)
  }

  lemma SmallSize(item: Rlp.Item)
    requires Small(item)
    ensures |Rlp.Reencode(item)| <= 77
  {
  }

  lemma {:induction false} ItemsSize(items: seq<Rlp.Item>)
    requires forall item :: item in items ==> Small(item)
    ensures |Rlp.ReencodeAll(items)| <= |items| * 77
  {
    if items != [] {
      hide Rlp.Reencode, Small;
      assert items[0] in items;
      SmallSize(items[0]);
      ItemsSize(items[1..]);
    }
  }

  lemma SmallFields(nonce: uint64, gas: uint64, to: Address, data: Bytes, sig: Signature)
    requires |data| <= Erc20.CALLDATA_SIZE
    ensures var items := SignedItems(UnsignedItems(1, nonce, H.GAS_TIP_CAP, H.GAS_TIP_CAP, gas, to, 0, data), sig.v, sig.r, sig.s);
      forall item :: item in items ==> Small(item)
  {
    Fits64(1);
    Fits64(nonce);
    Fits64(gas);
    Fits64(H.GAS_TIP_CAP);
    Fits64(sig.v as nat);
    Fits64(0);
    hide ToBigEndian;
  }

  lemma SignedSize(nonce: uint64, gas: uint64, to: Address, data: Bytes, sig: Signature)
    requires |data| <= Erc20.CALLDATA_SIZE
    ensures |Signed(nonce, gas, to, data, sig)| <= 1000
  {
    var items := UnsignedItems(1, nonce, H.GAS_TIP_CAP, H.GAS_TIP_CAP, gas, to, 0, data);
    UnsignedIsItem(1, nonce, H.GAS_TIP_CAP, H.GAS_TIP_CAP, gas, to, 0, data);
    UnsignedShort(1, nonce, H.GAS_TIP_CAP, H.GAS_TIP_CAP, gas, to, 0, data);
    AttachItems(items, sig.v, sig.r, sig.s);
    SmallFields(nonce, gas, to, data, sig);
    hide ToBigEndian, Rlp.Reencode, Transactions.AttachSignature, Transactions.BuildEIP1559Tx, Small;
    ItemsSize(SignedItems(items, sig.v, sig.r, sig.s));
    ListSize(SignedItems(items, sig.v, sig.r, sig.s));
  }

  lemma ListSize(items: seq<Rlp.Item>)
    ensures |Rlp.Reencode(Rlp.List(items))| <= 9 + |Rlp.ReencodeAll(items)|
  {
  }

  lemma ReceiptSize(status: uint64)
    requires status <= 1
    ensures WellFormedReceipt(PlainReceipt(status)) && |EncodeReceipt(PlainReceipt(status))| <= 100
  {
    var r := PlainReceipt(status);
    var fields := [Rlp.EncodeUint64(status), Rlp.EncodeUint64(0), Rlp.EncodeBytes([]), Rlp.EncodeList(EncodeLogs([]))];
    assert |fields[0]| == 1 by {
      assert status == 1 ==> ToBigEndian(1) == [1];
    }
    assert EncodeLogs([]) == [];
    assert EncodeReceipt(r) == Rlp.EncodeList(fields);
    OneByteEach(fields);
  }

  lemma {:induction false} OneByteEach(parts: seq<Bytes>)
    requires forall p :: p in parts ==> |p| == 1
    ensures |Concat(parts)| == |parts|
  {
    if parts != [] {
      assert parts[0] in parts && forall p :: p in parts[1..] ==> p in parts;
      OneByteEach(parts[1..]);
    }
  }

  // ----- The block -----

  /** A receipt without logs. */
  function PlainReceipt(status: uint64): Receipt {
    Receipt(status, 0, [], [], 0)
  }

  /** The withdrawal of the sample run and, right after it, the vault's next transaction. */
  function Txs(sig: Signature, next: Signature): Values {
    [Signed(0, Transactions.ERC20_TRANSFER_GAS, TOKEN, Payment(), sig), Signed(1, Transactions.ETH_TRANSFER_GAS, VAULT, [], next)]
  }

  /** The first succeeded, the second failed. */
  function Outcomes(): seq<Receipt> {
    [PlainReceipt(1), PlainReceipt(0)]
  }

  function Payment(): (data: Bytes)
    ensures |data| == Erc20.CALLDATA_SIZE
  {
    HundredFits();
    Erc20.TransferCalldata(VAULT, 100)
  }

  function NextBlock(keccak: Hasher, sig: Signature, next: Signature): BlockEntry {
    BlockEntry(8, keccak(Serialize(HeaderStores.HeaderOf(FirstBlock()))), Zeros(32), BuildProof(keccak, Txs(sig, next), 0).root,
               BuildProof(keccak, EncodeReceipts(Outcomes()), 0).root, 0, 0, 0, 1)
  }

  lemma TwoFit(a: Bytes, b: Bytes)
    requires |a| <= 1000 && |b| <= 1000
    ensures Fit([a, b])
  {
  }

  lemma BlockFits(sig: Signature, next: Signature)
    ensures Fit(Txs(sig, next)) && WellFormedReceipts(Outcomes())
  {
    hide Signed, EncodeReceipt, WellFormedReceipt, Fit, PlainReceipt, Payment;
    SignedSize(0, Transactions.ERC20_TRANSFER_GAS, TOKEN, Payment(), sig);
    SignedSize(1, Transactions.ETH_TRANSFER_GAS, VAULT, [], next);
    TwoFit(Txs(sig, next)[0], Txs(sig, next)[1]);
    ReceiptSize(0);
    ReceiptSize(1);
    var a, b := EncodeReceipt(PlainReceipt(1)), EncodeReceipt(PlainReceipt(0));
    TwoFit(a, b);
    assert EncodeReceipts(Outcomes()) == [a, b];
  }

  lemma RootCommits(keccak: Hasher, values: Values)
    requires |values| == 2 && Fit(values)
    ensures |BuildProof(keccak, values, 0).root| == 32 && Commits(keccak, BuildProof(keccak, values, 0).root, values)
  {
    hide Trie.Build, Trie.TrieRoot, Trie.WellFormed, Trie.CollectProof, Fit;
    RootIsHashUnlessTiny(keccak, values);
  }

  // ----- The run -----

  function PaidCalls(keccak: Hasher, hash: Hash, sig: Signature, next: Signature): seq<A.Action> {
    Calls(hash, "usd") + [A.AddBlocks([NextBlock(keccak, sig, next)])]
  }

  /** The sample run leaves its withdrawal at the head of the queue, and the seeded block as the tip. */
  lemma SampleState(keccak: Hasher, hash: Hash)
    ensures var s := A.RunFrom(keccak, Init(), Calls(hash, "usd"));
      && s.spends == map[0 := Head("usd")] && s.confirmed == 0 && s.chainId == 1 && !s.paused && s.chain.lastHeight == 7
      && HeaderAt(s, 7) == Some(HeaderStores.HeaderOf(FirstBlock()))
  {
    hide A.Next, A.RunFrom, Funded, Head, HeaderStores.GetHeader, Serialize;
    Reaches(keccak, hash, "usd");
    Withdraws(keccak, hash, "usd");
    FundedState(hash, "usd");
  }

  lemma AddsBlock(keccak: Hasher, s: State, e: BlockEntry)
    requires s.chain.lastHeight == 7 && s.chainId == 1 && HeaderAt(s, 7) == Some(HeaderStores.HeaderOf(FirstBlock()))
    requires e.blockNumber == 8 && e.parentHash == keccak(Serialize(HeaderStores.HeaderOf(FirstBlock()))) && e.chainId == 1
    requires HeaderStores.RootsDecode(e)
    ensures var after := A.Next(keccak, s, A.AddBlocks([e]));
      && after == s.(chain := after.chain) && HeaderAt(after, 8) == Some(HeaderStores.HeaderOf(e))
  {
    hide Serialize, DeserializeHeader;
    var h, entries := HeaderStores.HeaderOf(e), [e];
    HeaderRoundTrip(h, []);
    assert Serialize(h) + [] == Serialize(h);
    assert Wrap64(7 + 1) == 8;
    assert HeaderStores.CheckBlock(keccak, s.chain.headers, 7, e, 1) == None;
    var none: seq<BlockEntry> := [];
    assert entries[1..] == none;
    var headers := HeaderStores.StoreHeader(s.chain.headers, h);
    assert HeaderStores.AddFrom(keccak, headers, 8, none, 1) == Ok((headers, 8));
    assert HeaderStores.AddFrom(keccak, s.chain.headers, 7, entries, 1) == Ok((headers, 8));
  }

  /** After the run the head is still the sample's, and the stored block holds it. */
  ghost predicate HoldsPaid(keccak: Hasher, s: State, sig: Signature, next: Signature) {
    && QueueInv(s) && !s.paused && s.chainId == 1 && s.confirmed == 0 && s.spends == map[0 := Head("usd")]
    && StoredBlock(keccak, s, 8, Txs(sig, next), Outcomes())
  }

  lemma NextBlockRoots(keccak: Hasher, sig: Signature, next: Signature)
    ensures var e := NextBlock(keccak, sig, next);
      && HeaderStores.RootsDecode(e) && e.blockNumber == 8 && e.chainId == 1
      && e.parentHash == keccak(Serialize(HeaderStores.HeaderOf(FirstBlock())))
      && Commits(keccak, e.transactionsRoot, Txs(sig, next)) && Commits(keccak, e.receiptsRoot, EncodeReceipts(Outcomes()))
  {
    BlockFits(sig, next);
    assert |Txs(sig, next)| == |EncodeReceipts(Outcomes())| == 2;
    hide BuildProof, Commits, Txs, Outcomes, Serialize, Fit, EncodeReceipts, WellFormedReceipt;
    RootCommits(keccak, Txs(sig, next));
    RootCommits(keccak, EncodeReceipts(Outcomes()));
  }

  lemma RunEnds(keccak: Hasher, hash: Hash, sig: Signature, next: Signature)
    ensures A.RunFrom(keccak, Init(), PaidCalls(keccak, hash, sig, next))
      == A.Next(keccak, A.RunFrom(keccak, Init(), Calls(hash, "usd")), A.AddBlocks([NextBlock(keccak, sig, next)]))
  {
    hide A.Next, A.RunFrom, NextBlock, Calls;
    var actions := PaidCalls(keccak, hash, sig, next);
    assert actions[..6] == Calls(hash, "usd") && actions[..7] == actions;
    A.RunPrefix(keccak, Init(), actions, 6);
  }

  lemma RunHoldsPaid(keccak: Hasher, hash: Hash, sig: Signature, next: Signature)
    ensures HoldsPaid(keccak, A.RunFrom(keccak, Init(), PaidCalls(keccak, hash, sig, next)), sig, next)
  {
    hide A.Next, A.RunFrom, HeaderAt, NextBlock, Txs, Outcomes, Commits, WellFormedReceipt, Fit, Head, Serialize, QueueInv, Calls;
    hide EncodeReceipt;
    QueueInvariant(keccak, false, 1, "contract:bridge", PaidCalls(keccak, hash, sig, next));
    RunEnds(keccak, hash, sig, next);
    hide PaidCalls;
    SampleState(keccak, hash);
    NextBlockRoots(keccak, sig, next);
    AddsBlock(keccak, A.RunFrom(keccak, Init(), Calls(hash, "usd")), NextBlock(keccak, sig, next));
    BlockFits(sig, next);
  }

  // ----- Paid, and refunded -----

  /** The vault signed those bytes, as the host sees it. */
  predicate VaultSigned(host: Host, unsigned: Bytes, sig: Signature) {
    host.strict(host.keccak(unsigned), Transactions.LowByte(27 + sig.v as int), sig.r, sig.s) == Some(VAULT)
  }

  lemma HeadUnsigned()
    ensures Head("usd").unsignedTx == Unsigned(0, Transactions.ERC20_TRANSFER_GAS, TOKEN, Payment())
  {
    hide Transactions.BuildEIP1559Tx, Erc20.TransferCalldata;
  }

  lemma HeadRecognised(sig: Signature)
    ensures Recognised(Head("usd"), 1, sig.v, sig.r, sig.s)
  {
    hide Recognised, Transactions.BuildERC20WithdrawalTx;
    HundredFits();
    TokenRecognised(Head("usd"), 1, H.GAS_TIP_CAP, H.GAS_TIP_CAP, sig.v, sig.r, sig.s);
  }

  lemma HeadMined(sig: Signature, next: Signature)
    ensures Mined(Head("usd"), sig.v, sig.r, sig.s, Txs(sig, next), 0)
  {
    hide Transactions.AttachSignature, Unsigned, Signed, Payment, Head;
    HeadUnsigned();
    SignedReads(0, Transactions.ERC20_TRANSFER_GAS, TOKEN, Payment(), sig);
  }

  lemma ShowsPaid(host: Host, sig: Signature, next: Signature)
    requires VaultSigned(host, Head("usd").unsignedTx, sig)
    ensures ShowsSpend(host, Head("usd"), 1, 0, true, Txs(sig, next), Outcomes())
  {
    hide Recognised, ShowsSpend, Mined, Txs, Transactions.BuildERC20WithdrawalTx;
    HeadRecognised(sig);
    HeadMined(sig, next);
    assert VAULT[19] != ZERO_ADDRESS[19];
    assert SignedBy(host, Head("usd"), sig.v, sig.r, sig.s);
    hide Head, SignedBy;
    MinedShows(host, Head("usd"), 1, sig.v, sig.r, sig.s, Txs(sig, next), Outcomes(), 0);
  }

  /** The vault's next transaction. */
  function NextUnsigned(): Bytes {
    Unsigned(1, Transactions.ETH_TRANSFER_GAS, VAULT, [])
  }

  lemma NextTakesNonce(host: Host, sig: Signature, next: Signature)
    requires VaultSigned(host, NextUnsigned(), next)
    ensures TakesNonce(host, Txs(sig, next)[1], 1, 1, VAULT) && LaterNonce(Txs(sig, next)[1], 1, 0)
  {
    hide Transactions.ParseTransaction, Transactions.SighashPreimage, Transactions.PadTo32, Unsigned, Signed, Payment;
    SignedReads(1, Transactions.ETH_TRANSFER_GAS, VAULT, [], next);
    assert VAULT[19] != ZERO_ADDRESS[19];
  }

  /**
   A reachable state in which the vault signed the queued withdrawal and its own next transaction, a stored block
   holds both, and the first succeeded. The owner's cancel is accepted all the same, both with the failed receipt
   of the second and with the second itself, although the vault signed it.
   */
  lemma PaidThenRefunded(host: Host, hash: Hash, sig: Signature, next: Signature, kind: DropKind)
    requires kind.RevertedReceipt? || kind.BlockInclusion?
    requires VaultSigned(host, Head("usd").unsignedTx, sig) && VaultSigned(host, NextUnsigned(), next)
    ensures var s := A.RunFrom(host.keccak, Init(), PaidCalls(host.keccak, hash, sig, next));
      && s.spends == map[0 := Head("usd")] && s.confirmed == 0
      && ShowsSpend(host, Head("usd"), s.chainId, 0, true, Txs(sig, next), Outcomes())
      && TakesNonce(host, Txs(sig, next)[1], s.chainId, 1, VAULT)
      && var c := Cancel(host.keccak, s, kind, 8, 1, Txs(sig, next), Outcomes());
      || (Accepted(host, s, c) && EventsOf(host, s, c) == [Refund(Head("usd"))])
      || Ambiguous(host.keccak, Evidences(kind, Txs(sig, next), Outcomes()), 1)
  {
    var s := A.RunFrom(host.keccak, Init(), PaidCalls(host.keccak, hash, sig, next));
    RunHoldsPaid(host.keccak, hash, sig, next);
    ShowsPaid(host, sig, next);
    NextTakesNonce(host, sig, next);
    hide A.RunFrom, PaidCalls, Signed, StoredBlock, QueueInv, Head, Cancel, Accepted, EventsOf, Ambiguous, Evidences, ShowsSpend;
    hide TakesNonce, LaterNonce, VaultSigned;
    PaidIsRefunded(host, s, kind, 8, 1, 0, Txs(sig, next), Outcomes());
  }
}
