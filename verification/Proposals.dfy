/** The admin timelock: proposals, their windows, and the counter that numbers them. */
module Proposals {
  import opened ByteStrings

  const TIMELOCK_LONG: uint64 := 400_000
  const TIMELOCK_TACTICAL: uint64 := 28_800
  const TIMELOCK_OPERATIONAL: uint64 := 7_200
  const TIMELOCK_IMMEDIATE: uint64 := 0
  const EXPIRE_WINDOW: uint64 := 201_600

  datatype Status = Pending | Accepted | Cancelled | Expired

  datatype Proposal = Proposal(
    id: uint64, action: string, payloadHash: Hash, proposer: string,
    queueHeight: uint64, execHeight: uint64, expireHeight: uint64, payload: Bytes, status: Status)

  datatype Error =
    | UnknownAction | NotFound | NotPending | TimelockNotElapsed | ProposalExpired | HashMismatch | NotYetExpired

  /** The stored counter (absent before the first proposal) and the proposals by id. */
  datatype Book = Book(counter: Option<uint64>, proposals: map<uint64, Proposal>)

  function TimelockFor(action: string): Option<uint64> {
    if action in {"setVault", "setVerifierContract", "createKey", "renewKey"} then Some(TIMELOCK_LONG)
    else if action in {"registerPublicKey", "replaceBlock", "replaceWithdrawal", "clearNonce"} then
      Some(TIMELOCK_TACTICAL)
    else if action in {"registerToken", "registerRouter", "setGasReserve", "seedBlocks", "setOracleAccount",
                       "registerRelayer", "deregisterRelayer", "clearTestnetState"} then
      Some(TIMELOCK_OPERATIONAL)
    else if action in {"pause", "unpause"} then Some(TIMELOCK_IMMEDIATE)
    else None
  }

  /** The id the next proposal gets: an absent or zero counter counts as one. */
  function NextId(counter: Option<uint64>): uint64 {
    match counter
    case None => 1
    case Some(n) => if n == 0 then 1 else n
  }

  function NewProposal(keccak: Hasher, id: uint64, action: string, payload: Bytes, proposer: string,
                       height: uint64, timelock: uint64): Proposal
  {
    var execHeight := Wrap64(height + timelock);
    Proposal(id, action, keccak(payload), proposer, height, execHeight, Wrap64(execHeight + EXPIRE_WINDOW), payload, Pending)
  }

  function Propose(keccak: Hasher, b: Book, action: string, payload: Bytes, proposer: string, height: uint64)
    : Result<(Book, uint64), Error>
  {
    match TimelockFor(action)
    case None => Err(UnknownAction)
    case Some(timelock) =>
      var id := NextId(b.counter);
      var p := NewProposal(keccak, id, action, payload, proposer, height, timelock);
      Ok((Book(Some(Wrap64(id + 1)), b.proposals[id := p]), id))
  }

  /** A pending proposal with the given id, or the reason there is none. */
  function FindPending(b: Book, id: uint64): Result<Proposal, Error> {
    if id !in b.proposals then Err(NotFound)
    else if !b.proposals[id].status.Pending? then Err(NotPending)
    else Ok(b.proposals[id])
  }

  function SetStatus(b: Book, p: Proposal, status: Status): Book {
    b.(proposals := b.proposals[p.id := p.(status := status)])
  }

  function ExecuteValidated(keccak: Hasher, b: Book, id: uint64, height: uint64): Result<(Book, Proposal), Error> {
    match FindPending(b, id)
    case Err(e) => Err(e)
    case Ok(p) =>
      if height < p.execHeight then Err(TimelockNotElapsed)
      else if height >= p.expireHeight then Err(ProposalExpired)
      else if keccak(p.payload) != p.payloadHash then Err(HashMismatch)
      else Ok((SetStatus(b, p, Accepted), p.(status := Accepted)))
  }

  function Cancel(b: Book, id: uint64): Result<Book, Error> {
    match FindPending(b, id)
    case Err(e) => Err(e)
    case Ok(p) => Ok(SetStatus(b, p, Cancelled))
  }

  function ExpireProposal(b: Book, id: uint64, height: uint64): Result<Book, Error> {
    match FindPending(b, id)
    case Err(e) => Err(e)
    case Ok(p) => if height < p.expireHeight then Err(NotYetExpired) else Ok(SetStatus(b, p, Expired))
  }

  // ----- The stored state -----

  class ProposalBook {
    var counter: Option<uint64>
    var proposals: map<uint64, Proposal>

    constructor ()
      ensures View() == Book(None, map[])
    {
      counter, proposals := None, map[];
    }

    ghost function View(): Book
      reads this
    {
      Book(counter, proposals)
    }

    method NextProposalId() returns (id: uint64)
      modifies this`counter
      ensures id == NextId(old(counter)) && counter == Some(Wrap64(id + 1))
    {
      id := if counter.Some? then counter.value else 0;
      if id == 0 {
        id := 1;
      }
      counter := Some(Wrap64(id + 1));
    }

    method Submit(keccak: Hasher, action: string, payload: Bytes, proposer: string, height: uint64)
      returns (r: Result<uint64, Error>)
      modifies this
      ensures Propose(keccak, old(View()), action, payload, proposer, height)
        == match r case Ok(id) => Ok((View(), id)) case Err(e) => Err(e)
      ensures r.Err? ==> View() == old(View())
    {
      var timelock := TimelockFor(action);
      if timelock.None? {
        return Err(UnknownAction);
      }
      var id := NextProposalId();
      var execHeight := Wrap64(height + timelock.value);
      proposals := proposals[id := Proposal(id, action, keccak(payload), proposer, height, execHeight,
                                            Wrap64(execHeight + EXPIRE_WINDOW), payload, Pending)];
      return Ok(id);
    }

    method Execute(keccak: Hasher, id: uint64, height: uint64) returns (r: Result<Proposal, Error>)
      modifies this
      ensures ExecuteValidated(keccak, old(View()), id, height)
        == match r case Ok(p) => Ok((View(), p)) case Err(e) => Err(e)
      ensures r.Err? ==> View() == old(View())
    {
      if id !in proposals {
        return Err(NotFound);
      }
      var pp := proposals[id];
      if !pp.status.Pending? {
        return Err(NotPending);
      }
      if height < pp.execHeight {
        return Err(TimelockNotElapsed);
      }
      if height >= pp.expireHeight {
        return Err(ProposalExpired);
      }
      if keccak(pp.payload) != pp.payloadHash {
        return Err(HashMismatch);
      }
      pp := pp.(status := Accepted);
      proposals := proposals[pp.id := pp];
      return Ok(pp);
    }

    method Withdraw(id: uint64) returns (error: Option<Error>)
      modifies this
      ensures Cancel(old(View()), id) == if error.Some? then Err(error.value) else Ok(View())
      ensures error.Some? ==> View() == old(View())
    {
      if id !in proposals {
        return Some(NotFound);
      }
      var pp := proposals[id];
      if !pp.status.Pending? {
        return Some(NotPending);
      }
      proposals := proposals[pp.id := pp.(status := Cancelled)];
      return None;
    }

    method Expire(id: uint64, height: uint64) returns (error: Option<Error>)
      modifies this
      ensures ExpireProposal(old(View()), id, height) == if error.Some? then Err(error.value) else Ok(View())
      ensures error.Some? ==> View() == old(View())
    {
      if id !in proposals {
        return Some(NotFound);
      }
      var pp := proposals[id];
      if !pp.status.Pending? {
        return Some(NotPending);
      }
      if height < pp.expireHeight {
        return Some(NotYetExpired);
      }
      proposals := proposals[pp.id := pp.(status := Expired)];
      return None;
    }
  }
}
