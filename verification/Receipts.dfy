/** Receipts: the monitor's encoder, its proof builder, and the contract's log parser. */
module Receipts {
  import opened ByteStrings
  import opened Rlp
  import opened RlpTheorems
  import opened Transactions
  import opened TransactionTheorems
  import opened MonitorTheorems
  import BlockProofs
  import Mpt
  import MptTheorems
  import ProofBytes
  import Trie

  datatype Log = Log(address: Bytes, topics: seq<Bytes>, data: Bytes)

  datatype Receipt = Receipt(status: uint64, cumulativeGas: uint64, bloom: Bytes, logs: seq<Log>, txType: uint64)

  datatype ParsedLog = ParsedLog(address: Address, topics: seq<Hash>, data: Bytes)

  /** A topic of more than 32 bytes makes the parser panic, which aborts the call. */
  datatype ReceiptError = Undecodable(e: Rlp.Error) | MissingFields | LogsNotList | TopicPanic

  // ----- Encoding -----

  function EncodeLog(log: Log): Bytes {
    EncodeList([EncodeBytes(log.address), EncodeList(EncodeAll(log.topics)), EncodeBytes(log.data)])
  }

  function EncodeLogs(logs: seq<Log>): (r: seq<Bytes>)
    ensures |r| == |logs| && forall i :: 0 <= i < |r| ==> r[i] == EncodeLog(logs[i])
  {
    seq(|logs|, i requires 0 <= i < |logs| => EncodeLog(logs[i]))
  }

  function EncodeReceiptBody(r: Receipt): Bytes {
    EncodeList([EncodeUint64(r.status), EncodeUint64(r.cumulativeGas), EncodeBytes(r.bloom),
                EncodeList(EncodeLogs(r.logs))])
  }

  function EncodeReceipt(r: Receipt): Bytes {
    if r.txType > 0 then [LowByte(r.txType)] + EncodeReceiptBody(r) else EncodeReceiptBody(r)
  }

  method MonitorEncodeReceipt(r: Receipt) returns (enc: Bytes)
    ensures enc == EncodeReceipt(r)
  {
    hide EncodeList, EncodeBytes, EncodeUint64;
    var logItems := new Bytes[|r.logs|](i => []);
    for i := 0 to |r.logs|
      invariant forall j :: 0 <= j < i ==> logItems[j] == EncodeLog(r.logs[j])
    {
      var log := r.logs[i];
      var topics := EncodeStrings(log.topics);
      logItems[i] := EncodeList([EncodeBytes(log.address), EncodeList(topics), EncodeBytes(log.data)]);
    }
    assert logItems[..] == EncodeLogs(r.logs);
    enc := EncodeList([EncodeUint64(r.status), EncodeUint64(r.cumulativeGas), EncodeBytes(r.bloom),
                       EncodeList(logItems[..])]);
    if r.txType > 0 {
      enc := [LowByte(r.txType)] + enc;
    }
  }

  // ----- Parsing -----

  function StripType(data: Bytes): Bytes {
    if |data| > 0 && data[0] <= 0x7f then data[1..] else data
  }

  predicate IsLog(item: Item) {
    item.List? && |item.children| >= 3
  }

  function ParsedTopics(items: seq<Item>): Result<seq<Hash>, ReceiptError> {
    if items == [] then Ok([])
    else
      match ParsedTopics(items[..|items| - 1])
      case Err(e) => Err(e)
      case Ok(front) =>
        var b := items[|items| - 1].AsBytes();
        if |b| > 32 then Err(TopicPanic) else Ok(front + [Zeros(32 - |b|) + b])
  }

  function LogOf(item: Item): Result<ParsedLog, ReceiptError>
    requires IsLog(item)
  {
    match ParsedTopics(item.children[1].Elements())
    case Err(e) => Err(e)
    case Ok(topics) => Ok(ParsedLog(ToField(item.children[0].AsBytes()), topics, item.children[2].AsBytes()))
  }

  /** Malformed entries are skipped, not counted. */
  function ParsedLogs(items: seq<Item>): Result<seq<ParsedLog>, ReceiptError> {
    if items == [] then Ok([])
    else
      match ParsedLogs(items[..|items| - 1])
      case Err(e) => Err(e)
      case Ok(front) =>
        if !IsLog(items[|items| - 1]) then Ok(front)
        else
          match LogOf(items[|items| - 1])
          case Err(e) => Err(e)
          case Ok(log) => Ok(front + [log])
  }

  function ParseReceiptLogs(receipt: Bytes): Result<seq<ParsedLog>, ReceiptError> {
    match DecodeList(StripType(receipt))
    case Err(e) => Err(Undecodable(e))
    case Ok(items) =>
      if |items| < 4 then Err(MissingFields)
      else if !items[3].List? then Err(LogsNotList)
      else ParsedLogs(items[3].children)
  }

  /** The status confirmSpend reads off a proven receipt. */
  function ReceiptStatus(receipt: Bytes): Option<uint64> {
    match DecodeList(StripType(receipt))
    case Err(_) => None
    case Ok(items) => if |items| < 1 then None else Some(items[0].AsUint64())
  }

  method ParseLogs(receipt: Bytes) returns (r: Result<seq<ParsedLog>, ReceiptError>)
    ensures r == ParseReceiptLogs(receipt)
  {
    hide Decoded;
    var decoded := DecodeList(StripType(receipt));
    if decoded.Err? {
      return Err(Undecodable(decoded.error));
    }
    var items := decoded.value;
    if |items| < 4 {
      return Err(MissingFields);
    }
    if !items[3].List? {
      return Err(LogsNotList);
    }
    r := CollectLogs(items[3].children);
  }

  method CollectLogs(items: seq<Item>) returns (r: Result<seq<ParsedLog>, ReceiptError>)
    ensures r == ParsedLogs(items)
  {
    var logs: seq<ParsedLog> := [];
    for i := 0 to |items|
      invariant ParsedLogs(items[..i]) == Ok(logs)
    {
      assert items[..i + 1][..i] == items[..i];
      if IsLog(items[i]) {
        var topics := CollectTopics(items[i].children[1].Elements());
        if topics.Err? {
          LogsFail(items, i + 1);
          return Err(topics.error);
        }
        logs := logs + [ParsedLog(ToField(items[i].children[0].AsBytes()), topics.value, items[i].children[2].AsBytes())];
      }
    }
    assert items[..|items|] == items;
    return Ok(logs);
  }

  method CollectTopics(items: seq<Item>) returns (r: Result<seq<Hash>, ReceiptError>)
    ensures r == ParsedTopics(items)
  {
    var topics: seq<Hash> := [];
    for i := 0 to |items|
      invariant ParsedTopics(items[..i]) == Ok(topics)
    {
      assert items[..i + 1][..i] == items[..i];
      var b := items[i].AsBytes();
      if |b| > 32 {
        TopicsFail(items, i + 1);
        return Err(TopicPanic);
      }
      topics := topics + [Zeros(32 - |b|) + b];
    }
    assert items[..|items|] == items;
    return Ok(topics);
  }

  lemma {:induction false} TopicsFail(items: seq<Item>, n: nat)
    requires n <= |items| && ParsedTopics(items[..n]).Err?
    ensures ParsedTopics(items) == ParsedTopics(items[..n])
  {
    if n < |items| {
      assert items[..|items| - 1][..n] == items[..n];
      TopicsFail(items[..|items| - 1], n);
    } else {
      assert items[..n] == items;
    }
  }

  lemma {:induction false} LogsFail(items: seq<Item>, n: nat)
    requires n <= |items| && ParsedLogs(items[..n]).Err?
    ensures ParsedLogs(items) == ParsedLogs(items[..n])
  {
    if n < |items| {
      assert items[..|items| - 1][..n] == items[..n];
      LogsFail(items[..|items| - 1], n);
    } else {
      assert items[..n] == items;
    }
  }

  // ----- Agreement -----

  ghost predicate WellFormedLog(log: Log) {
    |log.address| == 20 && |log.data| <= 65536 && forall t :: t in log.topics ==> |t| == 32
  }

  ghost predicate WellFormedReceipt(r: Receipt) {
    && |r.bloom| <= 65536 && r.txType <= 0x7f
    && forall log :: log in r.logs ==> WellFormedLog(log)
  }

  function LogItem(log: Log): Item {
    List([Str(log.address), List(StrItems(log.topics)), Str(log.data)])
  }

  function LogItems(logs: seq<Log>): (r: seq<Item>)
    ensures |r| == |logs| && forall i :: 0 <= i < |r| ==> r[i] == LogItem(logs[i])
  {
    seq(|logs|, i requires 0 <= i < |logs| => LogItem(logs[i]))
  }

  function ReceiptItems(r: Receipt): (items: seq<Item>)
    ensures |items| == 4
  {
    [Str(ToBigEndian(r.status)), Str(ToBigEndian(r.cumulativeGas)), Str(r.bloom), List(LogItems(r.logs))]
  }

  lemma LogIsItem(log: Log)
    ensures EncodeLog(log) == Reencode(LogItem(log))
  {
    hide Reencode, EncodeBytes, EncodeList;
    forall j | 0 <= j < |log.topics|
      ensures EncodeAll(log.topics)[j] == Reencode(StrItems(log.topics)[j])
    {
      StrItem(log.topics[j]);
    }
    ListItem(EncodeAll(log.topics), StrItems(log.topics));
    StrItem(log.address);
    StrItem(log.data);
    ListItem([EncodeBytes(log.address), EncodeList(EncodeAll(log.topics)), EncodeBytes(log.data)],
             [Str(log.address), List(StrItems(log.topics)), Str(log.data)]);
  }

  lemma ReceiptIsItem(r: Receipt)
    ensures EncodeReceiptBody(r) == Reencode(List(ReceiptItems(r)))
  {
    hide Reencode, EncodeBytes, EncodeList, EncodeUint64, EncodeLog, LogItem;
    forall i | 0 <= i < |r.logs|
      ensures EncodeLogs(r.logs)[i] == Reencode(LogItems(r.logs)[i])
    {
      LogIsItem(r.logs[i]);
    }
    ListItem(EncodeLogs(r.logs), LogItems(r.logs));
    WordItem(r.status);
    WordItem(r.cumulativeGas);
    StrItem(r.bloom);
    hide ToBigEndian;
    ListItem([EncodeUint64(r.status), EncodeUint64(r.cumulativeGas), EncodeBytes(r.bloom),
              EncodeList(EncodeLogs(r.logs))], ReceiptItems(r));
  }

  lemma LogDecodable(log: Log)
    requires WellFormedLog(log)
    ensures Decodable(LogItem(log), 2)
  {
    forall k | k in StrItems(log.topics)
      ensures Decodable(k, 4)
    {
      var j :| 0 <= j < |log.topics| && k == Str(log.topics[j]);
      assert log.topics[j] in log.topics;
    }
    assert Decodable(List(StrItems(log.topics)), 3);
  }

  lemma ReceiptDecodable(r: Receipt)
    requires WellFormedReceipt(r)
    ensures AllDecodable(ReceiptItems(r), 1)
  {
    forall k | k in LogItems(r.logs)
      ensures Decodable(k, 2)
    {
      var j :| 0 <= j < |r.logs| && k == LogItem(r.logs[j]);
      assert r.logs[j] in r.logs;
      LogDecodable(r.logs[j]);
    }
    Fits64(r.status);
    Fits64(r.cumulativeGas);
    hide LogItems, ToBigEndian;
    assert Decodable(List(LogItems(r.logs)), 1);
  }

  lemma TopicsAppend(items: seq<Item>, last: Hash)
    requires ParsedTopics(items).Ok?
    ensures ParsedTopics(items + [Str(last)]) == Ok(ParsedTopics(items).value + [last])
  {
    assert (items + [Str(last)])[..|items|] == items;
    assert Zeros(0) + last == last;
  }

  lemma StrItemsAppend(front: seq<Bytes>, last: Bytes)
    ensures StrItems(front + [last]) == StrItems(front) + [Str(last)]
  {
  }

  predicate AllTopics(topics: seq<Bytes>) {
    forall t :: t in topics ==> |t| == 32
  }

  lemma {:induction false} TopicsParse(topics: seq<Bytes>)
    requires AllTopics(topics)
    ensures ParsedTopics(StrItems(topics)) == Ok(topics)
  {
    if topics == [] {
      assert StrItems(topics) == [];
    } else {
      hide ParsedTopics, StrItems;
      var front, last := topics[..|topics| - 1], topics[|topics| - 1];
      assert last in topics && topics == front + [last];
      TopicsParse(front);
      TopicsAppend(StrItems(front), last);
      StrItemsAppend(front, last);
    }
  }

  /** The contract's reading of a log, field by field. */
  ghost predicate SameLog(log: Log, parsed: ParsedLog) {
    parsed.address == log.address && parsed.topics == log.topics && parsed.data == log.data
  }

  ghost predicate SameLogs(logs: seq<Log>, parsed: seq<ParsedLog>) {
    |parsed| == |logs| && forall i :: 0 <= i < |logs| ==> SameLog(logs[i], parsed[i])
  }

  lemma LogParses(log: Log)
    requires WellFormedLog(log)
    ensures IsLog(LogItem(log)) && LogOf(LogItem(log)).Ok? && SameLog(log, LogOf(LogItem(log)).value)
  {
    TopicsParse(log.topics);
  }

  lemma LogsAppend(items: seq<Item>, item: Item)
    requires ParsedLogs(items).Ok? && IsLog(item) && LogOf(item).Ok?
    ensures ParsedLogs(items + [item]) == Ok(ParsedLogs(items).value + [LogOf(item).value])
  {
    assert (items + [item])[..|items|] == items;
  }

  lemma LogItemsAppend(front: seq<Log>, last: Log)
    ensures LogItems(front + [last]) == LogItems(front) + [LogItem(last)]
  {
    hide LogItem;
  }

  lemma SameLogsAppend(front: seq<Log>, last: Log, parsed: seq<ParsedLog>, p: ParsedLog)
    requires SameLogs(front, parsed) && SameLog(last, p)
    ensures SameLogs(front + [last], parsed + [p])
  {
    hide SameLog;
  }

  ghost predicate AllWellFormed(logs: seq<Log>) {
    forall log :: log in logs ==> WellFormedLog(log)
  }

  lemma {:induction false} LogsParse(logs: seq<Log>)
    requires AllWellFormed(logs)
    ensures ParsedLogs(LogItems(logs)).Ok? && SameLogs(logs, ParsedLogs(LogItems(logs)).value)
  {
    if logs == [] {
      assert LogItems(logs) == [];
    } else {
      hide ParsedLogs, LogItems, LogOf, LogItem, SameLog, SameLogs, WellFormedLog, IsLog;
      var front, last := logs[..|logs| - 1], logs[|logs| - 1];
      assert last in logs && logs == front + [last];
      assert AllWellFormed(front);
      LogsParse(front);
      LogParses(last);
      LogsAppend(LogItems(front), LogItem(last));
      LogItemsAppend(front, last);
      SameLogsAppend(front, last, ParsedLogs(LogItems(front)).value, LogOf(LogItem(last)).value);
    }
  }

  lemma StrippedBody(r: Receipt)
    requires r.txType <= 0x7f
    ensures StripType(EncodeReceipt(r)) == EncodeReceiptBody(r)
  {
    ReceiptIsItem(r);
    ListNotEmpty(ReceiptItems(r));
    hide Reencode, EncodeReceiptBody, EncodeList;
    var body := EncodeReceiptBody(r);
    if r.txType > 0 {
      assert ([LowByte(r.txType)] + body)[1..] == body;
    }
  }

  /** A receipt is its four fields in order, behind the byte of its type unless that is 0. */
  lemma ReceiptForm(r: Receipt)
    requires r.txType <= 0x7f
    ensures EncodeReceipt(r) == (if r.txType == 0 then [] else [r.txType as byte]) + Reencode(List(ReceiptItems(r)))
  {
    hide Reencode, EncodeReceiptBody;
    ReceiptIsItem(r);
  }

  // ----- Any receipt -----

  /** The items that are logs: lists of at least three elements. */
  function Kept(items: seq<Item>): seq<Item> {
    if items == [] then []
    else Kept(items[..|items| - 1])
         + if items[|items| - 1].List? && |items[|items| - 1].children| >= 3 then [items[|items| - 1]] else []
  }

  /** The second element's own elements, none where it is a string. */
  function TopicItems(item: Item): seq<Item>
    requires item.List? && |item.children| >= 3
  {
    if item.children[1].List? then item.children[1].children else []
  }

  /** The bytes of an item, none where it is a list. */
  function Raw(item: Item): Bytes {
    if item.Str? then item.data else []
  }

  /** Address, topics and data as the item has them; an address of any length but 20 counts as zero. */
  predicate ReadsLog(item: Item, log: ParsedLog) {
    && item.List? && |item.children| >= 3
    && log.address == (if |Raw(item.children[0])| == 20 then Raw(item.children[0]) else Zeros(20))
    && ReadsTopics(TopicItems(item), log.topics)
    && log.data == Raw(item.children[2])
  }

  /** Each topic is padded on the left to 32 bytes; none is longer. */
  predicate ReadsTopics(items: seq<Item>, topics: seq<Hash>) {
    |items| == |topics| && forall i :: 0 <= i < |items| ==>
      |Raw(items[i])| <= 32 && topics[i] == Zeros(32 - |Raw(items[i])|) + Raw(items[i])
  }

  lemma {:induction false} TopicsExactly(items: seq<Item>, topics: seq<Hash>)
    ensures ParsedTopics(items) == Ok(topics) <==> ReadsTopics(items, topics)
  {
    if items != [] {
      var front, last := items[..|items| - 1], items[|items| - 1];
      if topics != [] {
        TopicsExactly(front, topics[..|topics| - 1]);
        assert topics == topics[..|topics| - 1] + [topics[|topics| - 1]];
      }
      if ParsedTopics(front).Ok? {
        TopicsExactly(front, ParsedTopics(front).value);
      }
    }
  }

  lemma LogExactly(item: Item, log: ParsedLog)
    requires IsLog(item)
    ensures LogOf(item) == Ok(log) <==> ReadsLog(item, log)
  {
    TopicsExactly(TopicItems(item), log.topics);
    if LogOf(item).Ok? {
      TopicsExactly(TopicItems(item), LogOf(item).value.topics);
    }
    hide ParsedTopics, ReadsTopics;
  }

  predicate ReadsLogs(kept: seq<Item>, logs: seq<ParsedLog>) {
    |kept| == |logs| && forall i :: 0 <= i < |logs| ==> ReadsLog(kept[i], logs[i])
  }

  lemma ReadsAppend(front: seq<Item>, last: Item, logs: seq<ParsedLog>)
    ensures ReadsLogs(front + [last], logs)
      <==> logs != [] && ReadsLogs(front, logs[..|logs| - 1]) && ReadsLog(last, logs[|logs| - 1])
  {
    hide ReadsLog;
  }

  /**
   Whatever the items are: parsing gives exactly the logs among them, in order, and everything else is skipped. It
   fails only over a topic of more than 32 bytes.
   */
  lemma {:induction false} LogsExactly(items: seq<Item>, logs: seq<ParsedLog>)
    ensures ParsedLogs(items) == Ok(logs) <==> ReadsLogs(Kept(items), logs)
    ensures ParsedLogs(items).Err? ==> ParsedLogs(items).error == TopicPanic
  {
    if items != [] {
      hide ReadsLog, ReadsLogs, LogOf;
      var front, last := items[..|items| - 1], items[|items| - 1];
      LogsExactly(front, logs);
      if IsLog(last) {
        LogFails(last);
        ReadsAppend(Kept(front), last, logs);
        if logs != [] {
          LogsExactly(front, logs[..|logs| - 1]);
          LogExactly(last, logs[|logs| - 1]);
          assert logs == logs[..|logs| - 1] + [logs[|logs| - 1]];
        }
      } else {
        assert Kept(items) == Kept(front);
      }
    } else {
      assert Kept(items) == [];
    }
  }

  lemma LogFails(item: Item)
    requires IsLog(item)
    ensures LogOf(item).Err? ==> LogOf(item).error == TopicPanic
  {
    TopicsOnlyPanic(item.children[1].Elements());
  }

  lemma {:induction false} TopicsOnlyPanic(items: seq<Item>)
    ensures ParsedTopics(items).Err? ==> ParsedTopics(items).error == TopicPanic
  {
    if items != [] {
      TopicsOnlyPanic(items[..|items| - 1]);
    }
  }

  /** The receipt's bytes behind a type byte below 128, if there is one. */
  function Body(raw: Bytes): Bytes {
    if raw != [] && raw[0] < 128 then raw[1..] else raw
  }

  /** Logs are read from the fourth of four or more fields, which must be a list; the status from the first. */
  lemma ReceiptExactly(raw: Bytes, logs: seq<ParsedLog>, status: uint64)
    ensures ParseReceiptLogs(raw) == Ok(logs) <==>
      && DecodeList(Body(raw)).Ok?
      && var items := DecodeList(Body(raw)).value;
      |items| >= 4 && items[3].List? && ReadsLogs(Kept(items[3].children), logs)
    ensures ReceiptStatus(raw) == Some(status) <==>
      && DecodeList(Body(raw)).Ok?
      && var items := DecodeList(Body(raw)).value; items != [] && items[0].AsUint64() == status
  {
    hide Decoded, ReadsLogs, Kept, ParsedLogs, Item.AsUint64;
    if DecodeList(Body(raw)).Ok? && |DecodeList(Body(raw)).value| >= 4 && DecodeList(Body(raw)).value[3].List? {
      LogsExactly(DecodeList(Body(raw)).value[3].children, logs);
    }
  }

  // ----- Agreement of the two sides -----

  /**
   Both sides read the same logs, in the same order, with none skipped: log index i means the same
   log to the monitor and to the contract. The status comes back too.
   */
  lemma ReceiptAgreement(r: Receipt)
    requires WellFormedReceipt(r) && |EncodeReceipt(r)| < TWO_63
    ensures ParseReceiptLogs(EncodeReceipt(r)).Ok? && SameLogs(r.logs, ParseReceiptLogs(EncodeReceipt(r)).value)
    ensures ReceiptStatus(EncodeReceipt(r)) == Some(r.status)
  {
    StrippedBody(r);
    ReceiptIsItem(r);
    ReceiptDecodable(r);
    LogsParse(r.logs);
    WordValue(r.status);
    assert ReceiptItems(r)[0].AsUint64() == r.status;
    assert |EncodeReceiptBody(r)| <= |EncodeReceipt(r)|;
    hide Reencode, Decoded, Decodable, EncodeReceipt, EncodeReceiptBody, StripType, LogItems, ParsedLogs, Item.AsUint64, ToBigEndian;
    DecodeListItem(ReceiptItems(r));
  }

  // ----- Building and using receipt proofs -----

  function EncodeReceipts(receipts: seq<Receipt>): (r: seq<Bytes>)
    ensures |r| == |receipts| && forall i :: 0 <= i < |r| ==> r[i] == EncodeReceipt(receipts[i])
  {
    seq(|receipts|, i requires 0 <= i < |receipts| => EncodeReceipt(receipts[i]))
  }

  method BuildReceiptProof(keccak: Hasher, receipts: seq<Receipt>, targetIndex: int) returns (p: Option<BlockProofs.Proof>)
    requires |receipts| < TWO_63
    ensures p.Some? <==> 0 <= targetIndex < |receipts|
    ensures p.Some? ==> p.value == BlockProofs.BuildProof(keccak, EncodeReceipts(receipts), targetIndex)
  {
    if targetIndex < 0 || targetIndex >= |receipts| {
      return None;
    }
    var keys, values := EncodeBlock(receipts);
    hide EncodeReceipts, Trie.Build, EncodeUint64, Trie.CollectProof, Trie.TrieRoot, Trie.WellFormed;
    BlockProofs.BlockTrieWellFormed(values);
    var trie := Trie.BuildTrie(keys, values);
    var root := Trie.TrieRoot(keccak, trie);
    var targetKey := EncodeUint64(targetIndex);
    var proof := Trie.GenerateProof(keccak, trie, targetKey);
    return Some(BlockProofs.Proof(root, proof, values[targetIndex]));
  }

  method EncodeBlock(receipts: seq<Receipt>) returns (keys: seq<Bytes>, values: seq<Bytes>)
    requires |receipts| < TWO_63
    ensures keys == BlockProofs.IndexKeys(|receipts|) && values == EncodeReceipts(receipts)
  {
    hide EncodeReceipt, EncodeUint64;
    var ks := new Bytes[|receipts|](i => []);
    var vs := new Bytes[|receipts|](i => []);
    for i := 0 to |receipts|
      invariant forall j :: 0 <= j < i ==> ks[j] == BlockProofs.IndexKey(j)
      invariant forall j :: 0 <= j < i ==> vs[j] == EncodeReceipt(receipts[j])
    {
      ks[i] := EncodeUint64(i);
      var enc := MonitorEncodeReceipt(receipts[i]);
      vs[i] := enc;
    }
    return ks[..], vs[..];
  }

  /**
   From a block of receipts to logs inside the contract: the proof the monitor builds for receipt i
   verifies to that receipt, and parsing it yields that receipt's logs and status.
   */
  lemma ReceiptDelivered(keccak: Hasher, receipts: seq<Receipt>, i: nat)
    requires i < |receipts| < TWO_63
    requires WellFormedReceipt(receipts[i])
    requires BlockProofs.Fit(EncodeReceipts(receipts)) && !BlockProofs.TinyBlock(EncodeReceipts(receipts))
    ensures |BlockProofs.BuildProof(keccak, EncodeReceipts(receipts), i).root| == 32
    ensures var p := BlockProofs.BuildProof(keccak, EncodeReceipts(receipts), i);
      var got := Mpt.VerifyProof(keccak, p.root, BlockProofs.IndexKey(i), ProofBytes.SplitProofNodes(Concat(p.nodes)));
      || MptTheorems.Collision(keccak, p.nodes, p.nodes)
      || (got.Ok? && ParseReceiptLogs(got.value).Ok?
          && SameLogs(receipts[i].logs, ParseReceiptLogs(got.value).value)
          && ReceiptStatus(got.value) == Some(receipts[i].status))
  {
    hide Mpt.VerifyProof, BlockProofs.BuildProof, EncodeReceipt, ParseReceiptLogs, ReceiptStatus, MptTheorems.Collision;
    BlockProofs.EndToEnd(keccak, EncodeReceipts(receipts), i);
    assert EncodeReceipts(receipts)[i] in EncodeReceipts(receipts);
    ReceiptAgreement(receipts[i]);
  }
}
