/** Every queued withdrawal is settled at most once, in order, with the fields it was queued with. */
module SettlementTheorems {
  import opened ByteStrings
  import opened Ledger
  import opened Actions
  import opened History
  import opened WithdrawalQueue
  import opened Effects
  import H = Handlers

  /** How a withdrawal left the queue. */
  datatype Settlement = Paid(spend: PendingSpend) | Refunded(spend: PendingSpend)

  function QueuedSpends(log: seq<Event>): seq<PendingSpend> {
    if log == [] then []
    else
      var before := QueuedSpends(log[..|log| - 1]);
      match log[|log| - 1]
      case Queue(ps) => before + [ps]
      case _ => before
  }

  function Settlements(log: seq<Event>): seq<Settlement> {
    if log == [] then []
    else
      var before := Settlements(log[..|log| - 1]);
      match log[|log| - 1]
      case Pay(ps) => before + [Paid(ps)]
      case Refund(ps) => before + [Settlement.Refunded(ps)]
      case _ => before
  }

  lemma {:induction false} LogConcat(log: seq<Event>, more: seq<Event>)
    ensures QueuedSpends(log + more) == QueuedSpends(log) + QueuedSpends(more)
    ensures Settlements(log + more) == Settlements(log) + Settlements(more)
    decreases more
  {
    if more == [] {
      assert log + more == log;
    } else {
      var longer := log + more;
      assert longer[..|longer| - 1] == log + more[..|more| - 1];
      LogConcat(log, more[..|more| - 1]);
    }
  }

  /**
   Settlement number k is of nonce k, and its spend is the k-th queued one in all but the unsigned
   transaction; the spends after the confirmed nonce are queued and not settled.
   */
  ghost predicate InOrder(s: State, queued: seq<PendingSpend>, settled: seq<Settlement>) {
    && |settled| == s.confirmed && |queued| == s.pending && s.confirmed <= s.pending
    && (forall k :: 0 <= k < |queued| ==> queued[k].nonce == k)
    && (forall k :: 0 <= k < |settled| ==> SameIntent(queued[k], settled[k].spend))
    && (s.confirmed in s.spends ==> s.confirmed < |queued| && SameIntent(queued[s.confirmed], s.spends[s.confirmed]))
  }

  // ----- What each call logs -----

  predicate QueueBlind(a: Action) {
    !IsUnmap(a) && !Settles(a)
  }

  lemma UnmapLogs(s: State, a: Action, after: State)
    requires IsUnmap(a) && s.pending in after.spends
    ensures QueuedSpends(Events(s, a, after)) == [after.spends[s.pending]] && Settlements(Events(s, a, after)) == []
  {
    var queue := SpendEvents(after, s.pending, ps => Queue(ps));
    var rest := Events(s, a, after)[1..];
    assert Events(s, a, after) == queue + rest;
    LogConcat(queue, rest);
  }

  lemma SettlementLogs(s: State, a: Action, after: State)
    requires Settles(a) && s.confirmed in s.spends
    requires a.ExpireWithdrawal? || a.CancelMyWithdrawal? ==> a.nonce == s.confirmed
    ensures QueuedSpends(Events(s, a, after)) == []
    ensures var ps := s.spends[s.confirmed];
      Settlements(Events(s, a, after)) == [if Pays(a) then Paid(ps) else Settlement.Refunded(ps)]
  {
  }

  predicate Blind(e: Event) {
    !e.Queue? && !e.Pay? && !e.Refund?
  }

  lemma BlindEvents(s: State, a: Action, after: State)
    requires QueueBlind(a)
    ensures forall e :: e in Events(s, a, after) ==> Blind(e)
  {
  }

  lemma {:induction false} BlindLogs(events: seq<Event>)
    requires forall e :: e in events ==> Blind(e)
    ensures QueuedSpends(events) == [] && Settlements(events) == []
  {
    if events != [] {
      assert Blind(events[|events| - 1]);
      BlindLogs(events[..|events| - 1]);
    }
  }

  // ----- One call -----

  lemma UnmapInOrder(s: State, after: State, queued: seq<PendingSpend>, settled: seq<Settlement>)
    requires QueueInv(s) && InOrder(s, queued, settled) && QueuesOne(s, after) && s.confirmed < TWO_64 - 1
    requires s.pending in after.spends
    ensures InOrder(after, queued + [after.spends[s.pending]], settled)
  {
  }

  lemma SettlementInOrder(s: State, after: State, queued: seq<PendingSpend>, settled: seq<Settlement>, x: Settlement)
    requires QueueInv(s) && InOrder(s, queued, settled) && SettlesHead(s, after) && s.confirmed < TWO_64 - 1
    requires x.spend == s.spends[s.confirmed]
    ensures InOrder(after, queued, settled + [x])
  {
  }

  lemma RepriceInOrder(s: State, after: State, queued: seq<PendingSpend>, settled: seq<Settlement>)
    requires QueueInv(s) && InOrder(s, queued, settled) && Reprices(s, after)
    ensures InOrder(after, queued, settled)
  {
  }

  lemma StepInOrder(keccak: Hasher, w: World, a: Action)
    requires QueueInv(w.state) && w.state.confirmed < TWO_64 - 1 && !a.ClearTestnetState?
    requires InOrder(w.state, QueuedSpends(w.log), Settlements(w.log))
    ensures var next := Step(keccak, w, a);
      InOrder(next.state, QueuedSpends(next.log), Settlements(next.log))
  {
    hide Apply, Events, QueueInv, QueuedSpends, Settlements, InOrder;
    if Apply(keccak, w.state, a).Ok? {
      var s, after := w.state, Apply(keccak, w.state, a).value;
      var queued, settled := QueuedSpends(w.log), Settlements(w.log);
      LogConcat(w.log, Events(s, a, after));
      if IsUnmap(a) {
        UnmapQueues(keccak, s, a);
        UnmapLogs(s, a, after);
        assert settled + [] == settled;
        UnmapInOrder(s, after, queued, settled);
      } else if Settles(a) {
        SettlementShape(keccak, s, a);
        SettlementLogs(s, a, after);
        assert queued + [] == queued;
        var ps := s.spends[s.confirmed];
        SettlementInOrder(s, after, queued, settled, if Pays(a) then Paid(ps) else Settlement.Refunded(ps));
      } else {
        BlindEvents(s, a, after);
        BlindLogs(Events(s, a, after));
        assert queued + [] == queued && settled + [] == settled;
        if a.ReplaceWithdrawal? {
          RepriceStep(keccak, s, a, after);
          RepriceInOrder(s, after, queued, settled);
        } else {
          OtherKeepsQueue(keccak, s, a);
          SameQueueInOrder(s, after, queued, settled);
        }
      }
    }
  }

  lemma RepriceStep(keccak: Hasher, s: State, a: Action, after: State)
    requires a.ReplaceWithdrawal? && QueueInv(s) && Apply(keccak, s, a) == Ok(after)
    ensures Reprices(s, after)
  {
    hide H.ReplaceWithdrawal, QueueInv, Reprices;
    ReplaceReprices(s);
  }

  lemma SameQueueInOrder(s: State, after: State, queued: seq<PendingSpend>, settled: seq<Settlement>)
    requires InOrder(s, queued, settled) && SameQueue(s, after)
    ensures InOrder(after, queued, settled)
  {
  }

  /**
   Over every run of fewer than 2^64 calls without a testnet clear, the withdrawals paid or refunded
   are exactly those of nonces 0 up to the confirmed nonce, once each and in order, with the owner,
   asset, amount and destination they were queued with, however often they were replaced.
   */
  lemma {:induction false} SettledOnce(keccak: Hasher, testnet: bool, chainId: uint64, self: string, actions: seq<Action>)
    requires |actions| < TWO_64 && forall a :: a in actions ==> !a.ClearTestnetState?
    ensures var w := Run(keccak, Deployed(testnet, chainId, self), actions);
      InOrder(w.state, QueuedSpends(w.log), Settlements(w.log))
  {
    var init := Deployed(testnet, chainId, self);
    if actions != [] {
      hide Step, InOrder, QueueInv, RunFrom;
      var front, a := actions[..|actions| - 1], actions[|actions| - 1];
      SettledOnce(keccak, testnet, chainId, self, front);
      RunIsRunFrom(keccak, init, front);
      QueueInvariant(keccak, testnet, chainId, self, front);
      assert a in actions;
      StepInOrder(keccak, Run(keccak, init, front), a);
    }
  }

  /** So no nonce is settled twice, neither as paid and refunded nor in any other combination. */
  lemma NoSecondSettlement(s: State, queued: seq<PendingSpend>, settled: seq<Settlement>, i: nat, j: nat)
    requires InOrder(s, queued, settled) && i < |settled| && j < |settled|
    ensures settled[i].spend.nonce == i
    ensures settled[i].spend.nonce == settled[j].spend.nonce ==> i == j
  {
    assert SameIntent(queued[i], settled[i].spend) && SameIntent(queued[j], settled[j].spend);
  }
}
