/** The timelock over every run of propose, execute, cancel and expire calls. */
module ProposalTheorems {
  import opened ByteStrings
  import opened Proposals

  /** An execution whose dispatched handler aborts is undone by the host. */
  datatype Action =
    | Submit(action: string, payload: Bytes, proposer: string, height: uint64)
    | Execute(id: uint64, height: uint64, dispatchAborts: bool)
    | Withdraw(id: uint64)
    | Expire(id: uint64, height: uint64)

  datatype Submission = Submission(action: string, payload: Bytes, proposer: string, height: uint64)

  datatype Acceptance = Acceptance(id: uint64, action: string, payload: Bytes, height: uint64)

  /** The book with its history: every submission, by id, and every acceptance, in order. */
  datatype World = World(book: Book, submitted: seq<Submission>, accepted: seq<Acceptance>)

  const Init := World(Book(None, map[]), [], [])

  function Step(keccak: Hasher, w: World, a: Action): World {
    match a
    case Submit(action, payload, proposer, height) => (
      match Propose(keccak, w.book, action, payload, proposer, height)
      case Err(_) => w
      case Ok((b, _)) => World(b, w.submitted + [Submission(action, payload, proposer, height)], w.accepted))
    case Execute(id, height, aborts) => (
      match ExecuteValidated(keccak, w.book, id, height)
      case Err(_) => w
      case Ok((b, p)) =>
        if aborts then w
        else World(b, w.submitted, w.accepted + [Acceptance(id, p.action, p.payload, height)]))
    case Withdraw(id) => (
      match Cancel(w.book, id)
      case Err(_) => w
      case Ok(b) => w.(book := b))
    case Expire(id, height) => (
      match ExpireProposal(w.book, id, height)
      case Err(_) => w
      case Ok(b) => w.(book := b))
  }

  function Run(keccak: Hasher, w: World, actions: seq<Action>): World
    decreases actions
  {
    if actions == [] then w else Run(keccak, Step(keccak, w, actions[0]), actions[1..])
  }

  const MAX_DELAY := TIMELOCK_LONG + EXPIRE_WINDOW

  /** Heights far enough from 2^64 that no window wraps. */
  ghost predicate LowHeights(actions: seq<Action>) {
    forall a :: a in actions && a.Submit? ==> a.height + MAX_DELAY < TWO_64
  }

  /** A stored proposal is the submission of its id, with the window its action calls for. */
  ghost predicate Faithful(keccak: Hasher, p: Proposal, id: uint64, s: Submission) {
    && p.id == id && p.action == s.action && p.proposer == s.proposer
    && p.payload == s.payload && p.payloadHash == keccak(s.payload)
    && TimelockFor(s.action).Some?
    && p.queueHeight == s.height
    && p.execHeight == s.height + TimelockFor(s.action).value
    && p.expireHeight == p.execHeight + EXPIRE_WINDOW
  }

  /** The half-open window in which a submission may be executed. */
  ghost predicate InWindow(s: Submission, height: uint64) {
    && TimelockFor(s.action).Some?
    && s.height + TimelockFor(s.action).value <= height
    && height < s.height + TimelockFor(s.action).value + EXPIRE_WINDOW
  }

  ghost predicate AcceptedRight(a: Acceptance, w: World) {
    && 1 <= a.id <= |w.submitted|
    && a.action == w.submitted[a.id - 1].action && a.payload == w.submitted[a.id - 1].payload
    && InWindow(w.submitted[a.id - 1], a.height)
    && a.id in w.book.proposals && w.book.proposals[a.id].status == Accepted
  }

  ghost predicate Inv(keccak: Hasher, w: World) {
    && |w.submitted| < TWO_64 - 1
    && NextId(w.book.counter) == |w.submitted| + 1
    && (forall id: uint64 :: id in w.book.proposals <==> 1 <= id <= |w.submitted|)
    && (forall id: uint64 :: id in w.book.proposals ==> Faithful(keccak, w.book.proposals[id], id, w.submitted[id - 1]))
    && (forall i :: 0 <= i < |w.accepted| ==> AcceptedRight(w.accepted[i], w))
    && (forall i, j :: 0 <= i < j < |w.accepted| ==> w.accepted[i].id != w.accepted[j].id)
  }

  lemma TimelockBound(action: string)
    ensures TimelockFor(action).Some? ==> TimelockFor(action).value <= TIMELOCK_LONG
  {
  }

  lemma SubmitInv(keccak: Hasher, w: World, a: Action)
    requires Inv(keccak, w) && a.Submit? && |w.submitted| + 1 < TWO_64 - 1 && a.height + MAX_DELAY < TWO_64
    ensures Inv(keccak, Step(keccak, w, a))
  {
    TimelockBound(a.action);
    var after := Step(keccak, w, a);
    hide TimelockFor;
    if after != w {
      var id: uint64 := |w.submitted| + 1;
      var p := after.book.proposals[id];
      assert Faithful(keccak, p, id, after.submitted[id - 1]);
      forall n: uint64 | n in after.book.proposals
        ensures Faithful(keccak, after.book.proposals[n], n, after.submitted[n - 1])
      {
        if n != id {
          assert after.submitted[n - 1] == w.submitted[n - 1];
        }
      }
      forall i | 0 <= i < |after.accepted|
        ensures AcceptedRight(after.accepted[i], after)
      {
        assert AcceptedRight(w.accepted[i], w);
      }
    }
  }

  /** Changing a pending proposal's status disturbs nothing already accepted. */
  lemma StatusInv(keccak: Hasher, w: World, id: uint64, status: Status)
    requires Inv(keccak, w) && FindPending(w.book, id).Ok?
    ensures Inv(keccak, w.(book := SetStatus(w.book, w.book.proposals[id], status)))
  {
    hide TimelockFor;
    var after := w.(book := SetStatus(w.book, w.book.proposals[id], status));
    assert Faithful(keccak, w.book.proposals[id], id, w.submitted[id - 1]);
    forall i | 0 <= i < |w.accepted|
      ensures AcceptedRight(w.accepted[i], after)
    {
      assert AcceptedRight(w.accepted[i], w);
    }
  }

  lemma StepInv(keccak: Hasher, w: World, a: Action)
    requires Inv(keccak, w) && |w.submitted| + 1 < TWO_64 - 1 && (a.Submit? ==> a.height + MAX_DELAY < TWO_64)
    ensures Inv(keccak, Step(keccak, w, a))
    ensures |Step(keccak, w, a).submitted| <= |w.submitted| + 1
  {
    match a
    case Submit(_, _, _, _) => SubmitInv(keccak, w, a);
    case Execute(id, height, aborts) =>
      hide TimelockFor;
      if ExecuteValidated(keccak, w.book, id, height).Ok? && !aborts {
        StatusInv(keccak, w, id, Accepted);
        var p := w.book.proposals[id];
        var after := Step(keccak, w, a);
        assert Faithful(keccak, p, id, w.submitted[id - 1]);
        assert forall i :: 0 <= i < |w.accepted| ==> AcceptedRight(w.accepted[i], w) && w.accepted[i].id != id;
        assert AcceptedRight(Acceptance(id, p.action, p.payload, height), after);
      }
    case Withdraw(id) =>
      if FindPending(w.book, id).Ok? {
        StatusInv(keccak, w, id, Cancelled);
      }
    case Expire(id, height) =>
      if FindPending(w.book, id).Ok? {
        StatusInv(keccak, w, id, Expired);
      }
  }

  lemma {:induction false} RunInv(keccak: Hasher, w: World, actions: seq<Action>)
    requires Inv(keccak, w) && LowHeights(actions) && |w.submitted| + |actions| < TWO_64 - 1
    ensures Inv(keccak, Run(keccak, w, actions))
    decreases actions
  {
    if actions != [] {
      assert actions[0] in actions && forall a :: a in actions[1..] ==> a in actions;
      StepInv(keccak, w, actions[0]);
      hide Inv, Step;
      RunInv(keccak, Step(keccak, w, actions[0]), actions[1..]);
    }
  }

  /**
   Over every run from the empty book: ids are 1, 2, 3, ... in order of submission; each id is
   accepted at most once, with the action and payload submitted under it, at a height inside
   [queue + timelock, queue + timelock + 201600).
   */
  lemma TimelockHolds(keccak: Hasher, actions: seq<Action>)
    requires LowHeights(actions) && |actions| < TWO_64 - 1
    ensures Inv(keccak, Run(keccak, Init, actions))
  {
    RunInv(keccak, Init, actions);
  }

  // ----- Status changes -----

  /** The next id is fresh: submitting never overwrites a stored proposal. */
  lemma FreshIds(keccak: Hasher, w: World, action: string, payload: Bytes, proposer: string, height: uint64)
    requires Inv(keccak, w) && Propose(keccak, w.book, action, payload, proposer, height).Ok?
    ensures var (b, id) := Propose(keccak, w.book, action, payload, proposer, height).value;
      id !in w.book.proposals && (forall n: uint64 :: n in w.book.proposals ==> n < id && b.proposals[n] == w.book.proposals[n])
  {
    hide TimelockFor, Faithful, AcceptedRight;
  }

  /** Once a proposal is no longer pending, no action touches it again. */
  lemma SettledForGood(keccak: Hasher, w: World, a: Action, id: uint64)
    requires Inv(keccak, w) && id in w.book.proposals && w.book.proposals[id].status != Pending
    ensures id in Step(keccak, w, a).book.proposals
    ensures Step(keccak, w, a).book.proposals[id] == w.book.proposals[id]
  {
    hide TimelockFor, AcceptedRight;
    assert forall n: uint64 :: n in w.book.proposals ==> w.book.proposals[n].id == n;
  }

  lemma {:induction false} SettledInRuns(keccak: Hasher, w: World, actions: seq<Action>, id: uint64)
    requires Inv(keccak, w) && LowHeights(actions) && |w.submitted| + |actions| < TWO_64 - 1
    requires id in w.book.proposals && w.book.proposals[id].status != Pending
    ensures id in Run(keccak, w, actions).book.proposals
    ensures Run(keccak, w, actions).book.proposals[id] == w.book.proposals[id]
    decreases actions
  {
    if actions != [] {
      assert actions[0] in actions && forall a :: a in actions[1..] ==> a in actions;
      StepInv(keccak, w, actions[0]);
      SettledForGood(keccak, w, actions[0], id);
      hide Inv, Step;
      SettledInRuns(keccak, Step(keccak, w, actions[0]), actions[1..], id);
    }
  }

  /** At every height a pending proposal is in exactly one of three phases: waiting, executable, expirable. */
  lemma OnePhase(keccak: Hasher, w: World, id: uint64, height: uint64)
    requires Inv(keccak, w) && FindPending(w.book, id).Ok?
    ensures var p := w.book.proposals[id];
      && (ExecuteValidated(keccak, w.book, id, height).Ok? <==> p.execHeight <= height < p.expireHeight)
      && (ExpireProposal(w.book, id, height).Ok? <==> p.expireHeight <= height)
  {
    hide TimelockFor, AcceptedRight;
    assert Faithful(keccak, w.book.proposals[id], id, w.submitted[id - 1]);
  }
}
