/** No deposit is credited twice, unless the observed deposits of its height were wiped in between. */
module DepositTheorems {
  import opened ByteStrings
  import opened Blocklist
  import opened Ledger
  import opened Observed
  import opened Actions
  import opened History
  import opened WithdrawalQueue
  import opened LedgerTheorems
  import HeaderStores
  import H = Handlers

  predicate Covers(e: Event, h: uint64) {
    e.Wipe? && e.low <= h <= e.high
  }

  /** The marks credited at a height since it was last wiped. */
  function LiveMarks(log: seq<Event>, h: uint64): seq<Mark> {
    if log == [] then []
    else
      var before, e := LiveMarks(log[..|log| - 1], h), log[|log| - 1];
      if e.Credit? && e.height == h then before + [e.mark] else if Covers(e, h) then [] else before
  }

  predicate ValidMarks(marks: seq<Mark>) {
    forall m :: m in marks ==> ValidMark(m)
  }

  function StoredMarks(c: Chain, h: uint64): Bytes {
    if h in c.observed then c.observed[h] else []
  }

  /** The stored bytes at each height are the entries of its live marks. */
  ghost predicate Refines(c: Chain, log: seq<Event>) {
    forall h: uint64 :: ValidMarks(LiveMarks(log, h)) && StoredMarks(c, h) == Entries(LiveMarks(log, h))
  }

  /** Every credited mark was not live when it was credited. */
  ghost predicate Fresh(log: seq<Event>) {
    forall j :: 0 <= j < |log| ==> FreshAt(log, j)
  }

  predicate FreshAt(log: seq<Event>, j: nat)
    requires j < |log|
  {
    log[j].Credit? ==> log[j].mark !in LiveMarks(log[..j], log[j].height)
  }

  lemma FreshExtends(log: seq<Event>, e: Event)
    requires Fresh(log) && (e.Credit? ==> e.mark !in LiveMarks(log, e.height))
    ensures Fresh(log + [e])
  {
    hide LiveMarks;
    var longer := log + [e];
    forall j | 0 <= j < |longer|
      ensures FreshAt(longer, j)
    {
      if j < |log| {
        assert longer[..j] == log[..j] && FreshAt(log, j);
      } else {
        assert longer[..j] == log;
      }
    }
  }

  lemma LiveExtends(log: seq<Event>, e: Event, h: uint64)
    ensures LiveMarks(log + [e], h)
      == if e.Credit? && e.height == h then LiveMarks(log, h) + [e.mark] else if Covers(e, h) then [] else LiveMarks(log, h)
  {
    var longer := log + [e];
    assert longer[..|longer| - 1] == log;
  }

  // ----- One event -----

  /** A mark is found in the stored bytes exactly when it is live. */
  lemma MarkedIsLive(c: Chain, log: seq<Event>, h: uint64, m: Mark)
    requires Refines(c, log) && ValidMark(m)
    ensures H.Marked(c, h, m) <==> m in LiveMarks(log, h)
  {
    hide LiveMarks, Entries, MakeEntry, HasEntry;
    ScanIsMembership(LiveMarks(log, h), m);
    if h !in c.observed {
      NothingStored(LiveMarks(log, h));
    }
  }

  lemma NothingStored(marks: seq<Mark>)
    requires ValidMarks(marks) && Entries(marks) == []
    ensures marks == []
  {
  }

  lemma CreditRefines(c: Chain, log: seq<Event>, e: Event)
    requires Refines(c, log) && e.Credit? && ValidMark(e.mark)
    ensures Refines(H.AddMark(c, e.height, e.mark), log + [e])
  {
    hide LiveMarks, MakeEntry;
    var after, longer := H.AddMark(c, e.height, e.mark), log + [e];
    forall h: uint64
      ensures ValidMarks(LiveMarks(longer, h)) && StoredMarks(after, h) == Entries(LiveMarks(longer, h))
    {
      LiveExtends(log, e, h);
      assert ValidMarks(LiveMarks(log, h)) && StoredMarks(c, h) == Entries(LiveMarks(log, h));
      if h == e.height {
        EntriesExtend(LiveMarks(log, h), e.mark);
      }
    }
  }

  lemma EntriesExtend(marks: seq<Mark>, m: Mark)
    requires ValidMarks(marks) && ValidMark(m)
    ensures ValidMarks(marks + [m]) && Entries(marks + [m]) == Entries(marks) + MakeEntry(m)
  {
    hide MakeEntry;
    var longer := marks + [m];
    assert longer[..|longer| - 1] == marks;
  }

  /** Wiping a range of heights empties their bytes and their live marks alike. */
  lemma WipeRefines(c: Chain, after: Chain, log: seq<Event>, e: Event)
    requires Refines(c, log) && e.Wipe?
    requires forall h: uint64 :: StoredMarks(after, h) == if Covers(e, h) then [] else StoredMarks(c, h)
    ensures Refines(after, log + [e])
  {
    hide LiveMarks, StoredMarks;
    var longer := log + [e];
    forall h: uint64
      ensures ValidMarks(LiveMarks(longer, h)) && StoredMarks(after, h) == Entries(LiveMarks(longer, h))
    {
      LiveExtends(log, e, h);
      assert ValidMarks(LiveMarks(log, h)) && StoredMarks(c, h) == Entries(LiveMarks(log, h));
    }
  }

  predicate Unrelated(e: Event) {
    !e.Credit? && !e.Wipe?
  }

  /** Calls other than deposits, replaced blocks and testnet clears leave marks and their log alone. */
  lemma {:induction false} OthersRefine(c: Chain, after: Chain, log: seq<Event>, events: seq<Event>)
    requires Refines(c, log) && Fresh(log)
    requires forall e :: e in events ==> Unrelated(e)
    requires after.observed == c.observed
    ensures Refines(after, log + events) && Fresh(log + events)
    decreases events
  {
    if events == [] {
      assert log + events == log;
    } else {
      var front, e := events[..|events| - 1], events[|events| - 1];
      OthersRefine(c, after, log, front);
      assert log + events == (log + front) + [e];
      hide LiveMarks, Entries, StoredMarks, Fresh;
      assert Unrelated(e);
      FreshExtends(log + front, e);
      forall h: uint64
        ensures LiveMarks(log + events, h) == LiveMarks(log + front, h)
      {
        LiveExtends(log + front, e, h);
      }
    }
  }

  // ----- One call -----

  predicate KeepsMarks(a: Action) {
    !a.MapETH? && !a.MapERC20? && !a.ReplaceBlock? && !a.ClearTestnetState?
  }

  lemma UnrelatedEvents(s: State, a: Action, after: State)
    requires KeepsMarks(a)
    ensures forall e :: e in Events(s, a, after) ==> Unrelated(e)
  {
  }

  lemma UnmapKeepsMarks(keccak: Hasher, s: State, a: Action)
    requires IsUnmap(a)
    ensures Next(keccak, s, a).chain == s.chain
  {
    hide HeaderStores.GetHeader, H.Encodable, H.CheckMaxFee, H.CheckToken, Credited, Withdrawn, WithdrawnETH;
  }

  lemma ReplaceKeepsMarks(s: State)
    requires H.ReplaceWithdrawal(s).Ok?
    ensures H.ReplaceWithdrawal(s).value.chain == s.chain
  {
    hide HeaderStores.GetHeader, H.Encodable;
  }

  lemma ConfigureKeepsMarks(s: State, c: H.Setting)
    requires H.Configure(s, c).Ok?
    ensures H.Configure(s, c).value.chain == s.chain
  {
  }

  lemma OtherKeepsMarks(keccak: Hasher, s: State, a: Action)
    requires KeepsMarks(a) && !IsUnmap(a) && !Settles(a) && !a.ReplaceWithdrawal?
    ensures Next(keccak, s, a).chain.observed == s.chain.observed
  {
    hide Credited, Allowed, HeaderStores.AddFrom, HeaderStores.StoreHeader;
    if a.Configure? && H.Configure(s, a.setting).Ok? {
      ConfigureKeepsMarks(s, a.setting);
    }
    hide H.Configure;
  }

  lemma KeptMarks(keccak: Hasher, s: State, a: Action)
    requires KeepsMarks(a)
    ensures Next(keccak, s, a).chain.observed == s.chain.observed
  {
    hide Apply, H.ReplaceWithdrawal;
    if IsUnmap(a) {
      UnmapKeepsMarks(keccak, s, a);
    } else if Settles(a) {
      if Apply(keccak, s, a).Ok? {
        SettlementChanges(keccak, s, a, Apply(keccak, s, a).value);
      }
    } else if a.ReplaceWithdrawal? {
      IsReplace(keccak, s, a);
      if H.ReplaceWithdrawal(s).Ok? {
        ReplaceKeepsMarks(s);
      }
    } else {
      OtherKeepsMarks(keccak, s, a);
    }
  }

  /** A successful deposit credits a mark that was not stored, and stores it. */
  lemma DepositMarks(keccak: Hasher, s: State, a: Action, after: State)
    requires (a.MapETH? || a.MapERC20?) && Apply(keccak, s, a) == Ok(after)
    ensures var m := H.DepositMark(a.hash, a.index);
      && !H.Marked(s.chain, a.height, m)
      && after.chain == H.AddMark(s.chain, a.height, m)
  {
    hide H.AcceptDeposit, H.AddMark, H.ReadInstructions, H.GetTokenInfo, MakeEntry, HasEntry;
    var m := H.DepositMark(a.hash, a.index);
    if a.MapETH? {
      MapETHShape(keccak, s, a);
      H.AcceptChanges(s, a.height, m, "eth", a.deposit.amount, H.Tax(a.deposit.amount),
                    H.ReadInstructions(a.deposit.depositor, a.instructions), a.call);
    } else {
      MapERC20Shape(keccak, s, a);
      H.AcceptChanges(s, a.height, m, H.GetTokenInfo(s, a.token.value).value.symbol, a.deposit.amount, 0,
                    H.ReadInstructions(a.deposit.depositor, a.instructions), a.call);
    }
  }

  lemma DepositEvents(keccak: Hasher, s: State, a: Action, after: State) returns (e: Event)
    requires (a.MapETH? || a.MapERC20?) && Apply(keccak, s, a) == Ok(after)
    ensures e.Credit? && e.height == a.height && e.mark == H.DepositMark(a.hash, a.index)
    ensures Events(s, a, after) == [e] || (|Events(s, a, after)| == 2 && Events(s, a, after)[0] == e && Unrelated(Events(s, a, after)[1]))
  {
    hide H.AcceptDeposit, H.ReadInstructions, H.Marked;
    if a.MapERC20? {
      MapERC20Shape(keccak, s, a);
    }
    hide Apply;
    e := Events(s, a, after)[0];
  }

  lemma DepositRefines(keccak: Hasher, s: State, a: Action, after: State, log: seq<Event>)
    requires (a.MapETH? || a.MapERC20?) && Apply(keccak, s, a) == Ok(after)
    requires Refines(s.chain, log) && Fresh(log)
    ensures Refines(after.chain, log + Events(s, a, after)) && Fresh(log + Events(s, a, after))
  {
    hide Apply, Events, Refines, Fresh, LiveMarks, H.Marked, H.AddMark;
    var e := DepositEvents(keccak, s, a, after);
    DepositMarks(keccak, s, a, after);
    MarkedIsLive(s.chain, log, a.height, e.mark);
    FreshExtends(log, e);
    CreditRefines(s.chain, log, e);
    if Events(s, a, after) != [e] {
      var rest := [Events(s, a, after)[1]];
      assert log + Events(s, a, after) == (log + [e]) + rest;
      OthersRefine(after.chain, after.chain, log + [e], rest);
    }
  }

  lemma ReplaceRefines(keccak: Hasher, s: State, a: Action, after: State, log: seq<Event>)
    requires a.ReplaceBlock? && Apply(keccak, s, a) == Ok(after)
    requires Refines(s.chain, log) && Fresh(log)
    ensures Refines(after.chain, log + Events(s, a, after)) && Fresh(log + Events(s, a, after))
  {
    var e := Wipe(a.entry.blockNumber, a.entry.blockNumber);
    assert after.chain.observed == s.chain.observed - {a.entry.blockNumber} by {
      hide HeaderStores.GetHeader, HeaderStores.StoreHeader, HeaderStores.RootsDecode;
    }
    assert Events(s, a, after) == [e];
    hide Apply, Events, Refines, Fresh, LiveMarks;
    WipeRefines(s.chain, after.chain, log, e);
    FreshExtends(log, e);
  }

  lemma ClearedMarks(s: State, after: State)
    requires H.ClearTestnetState(s) == Ok(after)
    ensures var last := s.chain.lastHeight;
      forall h: uint64 ::
        StoredMarks(after.chain, h) == if Covers(Wipe(H.ClearFrom(last), last), h) then [] else StoredMarks(s.chain, h)
  {
    hide H.ClearFrom, H.ClearedSpends;
  }

  lemma ClearRefines(keccak: Hasher, s: State, a: Action, after: State, log: seq<Event>)
    requires a.ClearTestnetState? && Apply(keccak, s, a) == Ok(after)
    requires Refines(s.chain, log) && Fresh(log)
    ensures Refines(after.chain, log + Events(s, a, after)) && Fresh(log + Events(s, a, after))
  {
    var e := Wipe(H.ClearFrom(s.chain.lastHeight), s.chain.lastHeight);
    ClearedMarks(s, after);
    var drops := SpendEvents(s, s.confirmed, ps => Drop(ps));
    assert Events(s, a, after) == drops + [e];
    hide Apply, Events, Refines, Fresh, LiveMarks, H.ClearTestnetState, H.ClearFrom;
    OthersRefine(s.chain, s.chain, log, drops);
    assert log + (drops + [e]) == (log + drops) + [e];
    WipeRefines(s.chain, after.chain, log + drops, e);
    FreshExtends(log + drops, e);
  }

  lemma StepRefines(keccak: Hasher, w: World, a: Action)
    requires Refines(w.state.chain, w.log) && Fresh(w.log)
    ensures var next := Step(keccak, w, a);
      Refines(next.state.chain, next.log) && Fresh(next.log)
  {
    hide Apply, Events, Refines, Fresh;
    if Apply(keccak, w.state, a).Ok? {
      var s, after := w.state, Apply(keccak, w.state, a).value;
      if a.MapETH? || a.MapERC20? {
        DepositRefines(keccak, s, a, after, w.log);
      } else if a.ReplaceBlock? {
        ReplaceRefines(keccak, s, a, after, w.log);
      } else if a.ClearTestnetState? {
        ClearRefines(keccak, s, a, after, w.log);
      } else {
        UnrelatedEvents(s, a, after);
        KeptMarks(keccak, s, a);
        OthersRefine(s.chain, after.chain, w.log, Events(s, a, after));
      }
    }
  }

  // ----- Every run -----

  /** Over every run the stored bytes at each height are exactly the entries of the marks credited since its last wipe. */
  lemma {:induction false} ObservedLog(keccak: Hasher, testnet: bool, chainId: uint64, self: string, actions: seq<Action>)
    ensures var w := Run(keccak, Deployed(testnet, chainId, self), actions);
      Refines(w.state.chain, w.log) && Fresh(w.log)
  {
    var init := Deployed(testnet, chainId, self);
    if actions != [] {
      hide Step, Refines, Fresh;
      var front := actions[..|actions| - 1];
      ObservedLog(keccak, testnet, chainId, self, front);
      StepRefines(keccak, Run(keccak, init, front), actions[|actions| - 1]);
    }
  }

  lemma {:induction false} LiveSince(log: seq<Event>, i: nat, j: nat)
    requires i < j <= |log| && log[i].Credit?
    requires forall k :: i < k < j ==> !Covers(log[k], log[i].height)
    ensures log[i].mark in LiveMarks(log[..j], log[i].height)
    decreases j
  {
    var h, m := log[i].height, log[i].mark;
    assert log[..j] == log[..j - 1] + [log[j - 1]];
    LiveExtends(log[..j - 1], log[j - 1], h);
    if i < j - 1 {
      LiveSince(log, i, j - 1);
      assert !Covers(log[j - 1], h);
    } else {
      assert m in LiveMarks(log[..j - 1], h) + [m];
    }
  }

  predicate WipedBetween(log: seq<Event>, i: nat, j: nat, h: uint64)
    requires i < j < |log|
  {
    exists k :: i < k < j && Covers(log[k], h)
  }

  /** Over every run, the same (height, hash, index) is credited twice only if its height was wiped in between. */
  lemma SingleCredit(keccak: Hasher, testnet: bool, chainId: uint64, self: string, actions: seq<Action>, i: nat, j: nat)
    requires var log := Run(keccak, Deployed(testnet, chainId, self), actions).log;
      i < j < |log| && log[i].Credit? && log[j].Credit? && log[i].height == log[j].height && log[i].mark == log[j].mark
    ensures var log := Run(keccak, Deployed(testnet, chainId, self), actions).log;
      WipedBetween(log, i, j, log[i].height)
  {
    hide Run, Deployed, Refines, Covers, LiveMarks;
    ObservedLog(keccak, testnet, chainId, self, actions);
    var log := Run(keccak, Deployed(testnet, chainId, self), actions).log;
    assert FreshAt(log, j);
    if !WipedBetween(log, i, j, log[i].height) {
      LiveSince(log, i, j);
    }
  }
}
