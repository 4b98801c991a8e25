/** The header window over every run of seed, add and replace calls. */
module HeaderTheorems {
  import opened ByteStrings
  import opened Blocklist
  import opened FeedTheorems
  import opened HeaderStores

  datatype Action = Seed(entry: BlockEntry) | Add(entries: seq<BlockEntry>) | Replace(entry: BlockEntry)

  /**
   The stored chain with its history: the height it was seeded at, the parent hash each added
   header came with, the heights whose predecessor was replaced after they were added, and the
   entry that last came in for each height.
   */
  datatype World = World(chain: Chain, seed: nat, parents: map<uint64, Bytes>, relinked: set<uint64>,
                         latest: map<uint64, BlockEntry>)

  function Apply(keccak: Hasher, c: Chain, a: Action, chainId: uint64): Result<Chain, Error> {
    match a
    case Seed(e) => SeedBlock(c, e, chainId)
    case Add(es) => AddBlocks(keccak, c, es, chainId)
    case Replace(e) => ReplaceBlock(c, e, chainId)
  }

  function Parents(parents: map<uint64, Bytes>, entries: seq<BlockEntry>): map<uint64, Bytes>
    decreases entries
  {
    if entries == [] then parents
    else Parents(parents[entries[0].blockNumber := entries[0].parentHash], entries[1..])
  }

  function Latest(latest: map<uint64, BlockEntry>, entries: seq<BlockEntry>): map<uint64, BlockEntry>
    decreases entries
  {
    if entries == [] then latest else Latest(latest[entries[0].blockNumber := entries[0]], entries[1..])
  }

  function Heights(entries: seq<BlockEntry>): set<uint64> {
    set e | e in entries :: e.blockNumber
  }

  /** A failed call changes nothing. */
  function Step(keccak: Hasher, w: World, a: Action, chainId: uint64): World {
    match Apply(keccak, w.chain, a, chainId)
    case Err(_) => w
    case Ok(c) =>
      match a
      case Seed(e) => World(c, e.blockNumber, map[], {}, w.latest[e.blockNumber := e.(stateRoot := Zeros(32))])
      case Add(es) => 
        World(c, w.seed, Parents(w.parents, es), w.relinked - Heights(es), Latest(w.latest, es))
      case Replace(e) => 
        w.(chain := c, relinked := w.relinked + {Wrap64(e.blockNumber + 1)}, latest := w.latest[e.blockNumber := e])
  }

  function Run(keccak: Hasher, w: World, actions: seq<Action>, chainId: uint64): World
    decreases actions
  {
    if actions == [] then w else Run(keccak, Step(keccak, w, actions[0], chainId), actions[1..], chainId)
  }

  const Init := World(Chain(map[], 0, map[]), 0, map[], {}, map[])

  function Oldest(seed: nat, last: nat): nat {
    if last - 100 > seed then last - 100 else seed
  }

  /** Exactly the last 101 heights, or those since the seed. */
  ghost predicate Window(headers: map<uint64, Bytes>, seed: nat, last: uint64) {
    forall h: uint64 :: h in headers <==> Oldest(seed, last) <= h <= last
  }

  ghost predicate Genuine(headers: map<uint64, Bytes>, chainId: uint64) {
    forall h: uint64 :: h in headers ==> StoredWell(headers, h, chainId)
  }

  /** The stored bytes are a header of this height and chain. */
  ghost predicate StoredWell(headers: map<uint64, Bytes>, h: uint64, chainId: uint64)
    requires h in headers
  {
    var stored := DeserializeHeader(headers[h]);
    stored.Some? && stored.value.blockNumber == h && stored.value.chainId == chainId
    && headers[h] == Serialize(stored.value)
  }

  /** A header came with the hash of its predecessor's stored bytes, unless that one was replaced since. */
  ghost predicate Linked(keccak: Hasher, headers: map<uint64, Bytes>, parents: map<uint64, Bytes>, relinked: set<uint64>) {
    forall h: uint64 :: h in headers && 0 < h && h - 1 in headers && h !in relinked ==>
      h in parents && parents[h] == keccak(headers[h - 1])
  }

  ghost predicate Kept(keccak: Hasher, headers: map<uint64, Bytes>, seed: nat, last: uint64,
                       parents: map<uint64, Bytes>, relinked: set<uint64>, chainId: uint64)
  {
    && 0 < seed <= last
    && Window(headers, seed, last)
    && Genuine(headers, chainId)
    && Linked(keccak, headers, parents, relinked)
  }

  ghost predicate Inv(keccak: Hasher, w: World, chainId: uint64) {
    if w.chain.lastHeight == 0 then w.chain.headers == map[]
    else Kept(keccak, w.chain.headers, w.seed, w.chain.lastHeight, w.parents, w.relinked, chainId)
  }

  lemma StoreKeeps(headers: map<uint64, Bytes>, h: Header, chainId: uint64)
    requires Genuine(headers, chainId) && h.chainId == chainId
    ensures Genuine(StoreHeader(headers, h), chainId)
  {
    HeaderRoundTrip(h, []);
    assert Serialize(h) + [] == Serialize(h);
    hide Serialize, DeserializeHeader;
    var after := StoreHeader(headers, h);
    forall n: uint64 | n in after
      ensures StoredWell(after, n, chainId)
    {
      if n != h.blockNumber {
        assert StoredWell(headers, n, chainId);
      }
    }
  }

  /** One accepted block moves the window up by one and extends the links. */
  lemma AddOne(keccak: Hasher, headers: map<uint64, Bytes>, seed: nat, last: uint64, parents: map<uint64, Bytes>,
               relinked: set<uint64>, e: BlockEntry, chainId: uint64)
    requires last < TWO_64 - 1 && Kept(keccak, headers, seed, last, parents, relinked, chainId)
    requires CheckBlock(keccak, headers, last, e, chainId).None?
    ensures e.blockNumber == last + 1 && RootsDecode(e)
    ensures var after := Prune(StoreHeader(headers, HeaderOf(e)), e.blockNumber);
      Kept(keccak, after, seed, last + 1, parents[e.blockNumber := e.parentHash], relinked - {e.blockNumber}, chainId)
  {
    hide Serialize, DeserializeHeader;
    assert last in headers && StoredWell(headers, last, chainId);
    StoreKeeps(headers, HeaderOf(e), chainId);
    var stored := StoreHeader(headers, HeaderOf(e));
    var after := Prune(stored, e.blockNumber);
    forall h: uint64 | h in after
      ensures StoredWell(after, h, chainId)
    {
      assert StoredWell(stored, h, chainId);
    }
  }

  lemma {:induction false} AddMany(keccak: Hasher, headers: map<uint64, Bytes>, seed: nat, last: uint64,
                                   parents: map<uint64, Bytes>, relinked: set<uint64>, es: seq<BlockEntry>, chainId: uint64)
    requires last + |es| < TWO_64 && Kept(keccak, headers, seed, last, parents, relinked, chainId)
    requires AddFrom(keccak, headers, last, es, chainId).Ok?
    ensures var (after, tip) := AddFrom(keccak, headers, last, es, chainId).value;
      && tip == last + |es|
      && Kept(keccak, after, seed, tip, Parents(parents, es), relinked - Heights(es), chainId)
    decreases es
  {
    hide Serialize, DeserializeHeader, CheckBlock, Kept, StoreHeader, Prune, Heights, HeaderOf, RootsDecode;
    if es == [] {
      NoHeights(relinked);
    } else {
      AddFromCons(keccak, headers, last, es, chainId);
      ParentsCons(parents, es);
      hide AddFrom, Parents;
      var e := es[0];
      AddOne(keccak, headers, seed, last, parents, relinked, e, chainId);
      var after := Prune(StoreHeader(headers, HeaderOf(e)), e.blockNumber);
      AddMany(keccak, after, seed, last + 1, parents[e.blockNumber := e.parentHash], relinked - {e.blockNumber}, es[1..], chainId);
      HeightsCons(es, relinked);
    }
  }

  lemma ParentsCons(parents: map<uint64, Bytes>, es: seq<BlockEntry>)
    requires es != []
    ensures Parents(parents, es) == Parents(parents[es[0].blockNumber := es[0].parentHash], es[1..])
  {
  }

  lemma AddFromCons(keccak: Hasher, headers: map<uint64, Bytes>, last: uint64, es: seq<BlockEntry>, chainId: uint64)
    requires es != [] && AddFrom(keccak, headers, last, es, chainId).Ok?
    ensures CheckBlock(keccak, headers, last, es[0], chainId).None? && RootsDecode(es[0])
    ensures AddFrom(keccak, headers, last, es, chainId)
      == AddFrom(keccak, Prune(StoreHeader(headers, HeaderOf(es[0])), es[0].blockNumber), es[0].blockNumber, es[1..], chainId)
  {
    hide Serialize, DeserializeHeader;
  }

  lemma NoHeights(relinked: set<uint64>)
    ensures relinked - Heights([]) == relinked
  {
  }

  lemma HeightsCons(es: seq<BlockEntry>, relinked: set<uint64>)
    requires es != []
    ensures relinked - {es[0].blockNumber} - Heights(es[1..]) == relinked - Heights(es)
  {
    assert es == [es[0]] + es[1..];
    forall h: uint64
      ensures h in Heights(es) <==> h == es[0].blockNumber || h in Heights(es[1..])
    {
    }
  }

  /** How many blocks an action may append. */
  function Blocks(a: Action): nat {
    if a.Add? then |a.entries| else 0
  }

  function AllBlocks(actions: seq<Action>): nat {
    if actions == [] then 0 else Blocks(actions[0]) + AllBlocks(actions[1..])
  }

  lemma StepInv(keccak: Hasher, w: World, a: Action, chainId: uint64)
    requires Inv(keccak, w, chainId) && w.chain.lastHeight + Blocks(a) < TWO_64
    ensures Inv(keccak, Step(keccak, w, a, chainId), chainId)
    ensures var h := Step(keccak, w, a, chainId).chain.lastHeight;
      h <= w.chain.lastHeight + Blocks(a) || (a.Seed? && h == a.entry.blockNumber)
  {
    match a
    case Seed(e) => SeedInv(keccak, w, e, chainId);
    case Add(es) =>
      if Apply(keccak, w.chain, a, chainId).Ok? {
        AddMany(keccak, w.chain.headers, w.seed, w.chain.lastHeight, w.parents, w.relinked, es, chainId);
      }
    case Replace(e) => ReplaceInv(keccak, w, e, chainId);
  }

  lemma SeedInv(keccak: Hasher, w: World, e: BlockEntry, chainId: uint64)
    requires Inv(keccak, w, chainId)
    ensures Inv(keccak, Step(keccak, w, Seed(e), chainId), chainId)
  {
    hide Serialize, DeserializeHeader;
    if SeedBlock(w.chain, e, chainId).Ok? {
      StoreKeeps(map[], HeaderOf(e.(stateRoot := Zeros(32))), chainId);
    }
  }

  lemma ReplaceInv(keccak: Hasher, w: World, e: BlockEntry, chainId: uint64)
    requires Inv(keccak, w, chainId)
    ensures Inv(keccak, Step(keccak, w, Replace(e), chainId), chainId)
  {
    hide Serialize, DeserializeHeader;
    if ReplaceBlock(w.chain, e, chainId).Ok? {
      assert w.chain.lastHeight != 0;
      StoreKeeps(w.chain.headers, HeaderOf(e), chainId);
    }
  }

  /** No height of the run leaves 64 bits. */
  ghost predicate Room(w: World, actions: seq<Action>) {
    && w.chain.lastHeight + AllBlocks(actions) < TWO_64
    && forall a :: a in actions && a.Seed? ==> a.entry.blockNumber + AllBlocks(actions) < TWO_64
  }

  lemma {:induction false} RunInv(keccak: Hasher, w: World, actions: seq<Action>, chainId: uint64)
    requires Inv(keccak, w, chainId) && Room(w, actions)
    ensures Inv(keccak, Run(keccak, w, actions, chainId), chainId)
    decreases actions
  {
    if actions != [] {
      var a := actions[0];
      StepInv(keccak, w, a, chainId);
      assert a in actions && forall b :: b in actions[1..] ==> b in actions;
      hide Inv, Step;
      RunInv(keccak, Step(keccak, w, a, chainId), actions[1..], chainId);
    }
  }

  /**
   Over every run from the empty contract: the stored heights are exactly the window, the tip is
   among them, each loads as a header of its height and of the contract's chain, and each is
   linked to its predecessor unless that one was replaced.
   */
  lemma HeaderWindow(keccak: Hasher, actions: seq<Action>, chainId: uint64)
    requires Room(Init, actions)
    ensures var w := Run(keccak, Init, actions, chainId);
      && Inv(keccak, w, chainId)
      && (w.chain.lastHeight > 0 ==> GetHeader(w.chain.headers, w.chain.lastHeight).Some?)
  {
    RunInv(keccak, Init, actions, chainId);
    var w := Run(keccak, Init, actions, chainId);
    hide Serialize, DeserializeHeader, Run, Step;
    if w.chain.lastHeight > 0 {
      assert StoredWell(w.chain.headers, w.chain.lastHeight, chainId);
    }
  }

  // ----- Where each stored header came from -----

  /** Every stored header loads as the entry that last came in for its height, in all eight fields. */
  ghost predicate Sourced(headers: map<uint64, Bytes>, latest: map<uint64, BlockEntry>) {
    forall h: uint64 :: h in headers ==>
      h in latest && latest[h].blockNumber == h && Holds(headers, latest[h], latest[h].stateRoot)
  }

  lemma StoreSourced(before: map<uint64, Bytes>, after: map<uint64, Bytes>, latest: map<uint64, BlockEntry>, e: BlockEntry)
    requires Sourced(before, latest) && Holds(after, e, e.stateRoot)
    requires forall h: uint64 :: h != e.blockNumber && h in after ==> h in before && after[h] == before[h]
    ensures Sourced(after, latest[e.blockNumber := e])
  {
    hide DeserializeHeader;
    forall h: uint64 | h in after
      ensures h in latest[e.blockNumber := e] && latest[e.blockNumber := e][h].blockNumber == h
      ensures Holds(after, latest[e.blockNumber := e][h], latest[e.blockNumber := e][h].stateRoot)
    {
      if h != e.blockNumber {
        assert Holds(before, latest[h], latest[h].stateRoot);
      }
    }
  }

  lemma {:induction false} AddSourced(keccak: Hasher, headers: map<uint64, Bytes>, last: uint64, es: seq<BlockEntry>,
                                      chainId: uint64, latest: map<uint64, BlockEntry>)
    requires Sourced(headers, latest) && AddFrom(keccak, headers, last, es, chainId).Ok?
    ensures Sourced(AddFrom(keccak, headers, last, es, chainId).value.0, Latest(latest, es))
    decreases es
  {
    if es != [] {
      hide Serialize, DeserializeHeader, Sourced, Holds;
      var e := es[0];
      StoreHolds(headers, e);
      var after := Prune(StoreHeader(headers, HeaderOf(e)), e.blockNumber);
      PruneHolds(StoreHeader(headers, HeaderOf(e)), e);
      StoreSourced(headers, after, latest, e);
      AddSourced(keccak, after, e.blockNumber, es[1..], chainId, latest[e.blockNumber := e]);
    }
  }

  lemma PruneHolds(headers: map<uint64, Bytes>, e: BlockEntry)
    requires Holds(headers, e, e.stateRoot)
    ensures Holds(Prune(headers, e.blockNumber), e, e.stateRoot)
  {
    hide DeserializeHeader;
  }

  lemma StepSourced(keccak: Hasher, w: World, a: Action, chainId: uint64)
    requires Sourced(w.chain.headers, w.latest)
    ensures Sourced(Step(keccak, w, a, chainId).chain.headers, Step(keccak, w, a, chainId).latest)
  {
    hide Serialize, DeserializeHeader, Sourced, Holds;
    if Apply(keccak, w.chain, a, chainId).Ok? {
      match a
      case Seed(e) =>
        SeedExactly(w.chain, e, chainId);
        SameHeader(Step(keccak, w, a, chainId).chain.headers, e);
        StoreSourced(w.chain.headers, Step(keccak, w, a, chainId).chain.headers, w.latest, e.(stateRoot := Zeros(32)));
      case Add(es) => AddSourced(keccak, w.chain.headers, w.chain.lastHeight, es, chainId, w.latest);
      case Replace(e) =>
        ReplaceExactly(w.chain, e, chainId);
        StoreSourced(w.chain.headers, Step(keccak, w, a, chainId).chain.headers, w.latest, e);
    }
  }

  lemma SameHeader(headers: map<uint64, Bytes>, e: BlockEntry)
    requires Holds(headers, e, Zeros(32))
    ensures Holds(headers, e.(stateRoot := Zeros(32)), Zeros(32))
  {
  }

  /** Over every run: every stored header loads as the entry that last came in for its height, field by field. */
  lemma {:induction false} HeadersSourced(keccak: Hasher, w: World, actions: seq<Action>, chainId: uint64)
    requires Sourced(w.chain.headers, w.latest)
    ensures var after := Run(keccak, w, actions, chainId);
      Sourced(after.chain.headers, after.latest)
    decreases actions
  {
    if actions != [] {
      hide Step, Sourced;
      StepSourced(keccak, w, actions[0], chainId);
      HeadersSourced(keccak, Step(keccak, w, actions[0], chainId), actions[1..], chainId);
    }
  }
}
