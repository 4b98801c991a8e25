/** Calls as they are submitted: with bytes and proofs instead of verdicts. */
module Submissions {
  import opened ByteStrings
  import opened Evidence
  import opened Ledger
  import A = Actions
  import H = Handlers
  import HeaderStores
  import History

  /** What the host decides: the hash, who signed one (canonical for deposits, strict for settlements), and names. */
  datatype Host = Host(keccak: Hasher, canonical: Recover, strict: Recover, did: Address -> H.Did)

  /** The calls that carry no proof. */
  type PlainAction = a: A.Action | !TakesVerdict(a) witness A.Pause

  predicate TakesVerdict(a: A.Action) {
    a.MapETH? || a.MapERC20? || a.ConfirmSpend? || a.ClearNonce? || a.ExpireWithdrawal? || a.CancelMyWithdrawal?
  }

  datatype Submission =
    | SubmitETH(caller: string, height: uint64, req: Request, instructions: seq<string>, call: H.RouterCall)
    | SubmitERC20(token: Option<Address>, height: uint64, req: Request, instructions: seq<string>, call: H.RouterCall)
    | SubmitSpend(intent: H.Intent, height: uint64, evidence: Settlement)
    | SubmitClear(drop: DropRequest)
    | SubmitExpire(caller: string, nonce: uint64, drop: DropRequest, l2Height: uint64)
    | SubmitCancel(caller: string, nonce: uint64, drop: DropRequest)
    | Plain(action: PlainAction)

  function SpendVerdict(host: Host, s: State, height: uint64, e: Settlement): H.SpendProof {
    match HeaderStores.GetHeader(s.chain.headers, height)
    case None => H.Unproven
    case Some(header) => VerifySpend(host.keccak, host.strict, header, e)
  }

  function DropVerdict(keccak: Hasher, s: State, nonce: uint64, d: DropRequest): H.DropProof {
    match GetPendingSpend(s, nonce)
    case None => H.Refused
    case Some(ps) => VerifyDrop(keccak, s.chain.headers, ps, s.chainId, d)
  }

  /** The call with the verdicts the contract reaches on the submitted bytes, against its stored headers. */
  function Resolve(host: Host, s: State, c: Submission): A.Action {
    match c
    case SubmitETH(caller, height, req, instructions, call) =>
      var header := HeaderStores.GetHeader(s.chain.headers, height);
      A.MapETH(caller, height, host.keccak(req.raw), req.index,
               VerifyETHDeposit(host.keccak, host.canonical, host.did, header, s.vault, s.chainId, req), instructions, call)
    case SubmitERC20(token, height, req, instructions, call) =>
      var header := HeaderStores.GetHeader(s.chain.headers, height);
      A.MapERC20(token, height, host.keccak(req.raw), req.logIndex,
                 if token.None? then H.Rejected
                 else VerifyERC20Deposit(host.keccak, host.did, header, s.vault, token.value, s.chainId, req), instructions, call)
    case SubmitSpend(intent, height, e) => A.ConfirmSpend(intent, height, SpendVerdict(host, s, height, e))
    case SubmitClear(d) => A.ClearNonce(DropVerdict(host.keccak, s, s.confirmed, d))
    case SubmitExpire(caller, nonce, d, l2Height) =>
      A.ExpireWithdrawal(caller, nonce, DropVerdict(host.keccak, s, nonce, d), l2Height)
    case SubmitCancel(caller, nonce, d) => A.CancelMyWithdrawal(caller, nonce, DropVerdict(host.keccak, s, nonce, d))
    case Plain(a) => a
  }

  function SubmitAll(host: Host, init: State, calls: seq<Submission>): History.World {
    if calls == [] then History.World(init, [])
    else
      var w := SubmitAll(host, init, calls[..|calls| - 1]);
      History.Step(host.keccak, w, Resolve(host, w.state, calls[|calls| - 1]))
  }

  /** The calls of a run with the verdicts reached along the way. */
  function Resolved(host: Host, init: State, calls: seq<Submission>): (r: seq<A.Action>)
    ensures |r| == |calls|
  {
    if calls == [] then []
    else
      var front := calls[..|calls| - 1];
      Resolved(host, init, front)
      + [Resolve(host, SubmitAll(host, init, front).state, calls[|calls| - 1])]
  }

  /** So every theorem about runs speaks of submitted calls as well. */
  lemma {:induction false} SubmitAllIsRun(host: Host, init: State, calls: seq<Submission>)
    ensures SubmitAll(host, init, calls)
      == History.Run(host.keccak, init, Resolved(host, init, calls))
  {
    if calls != [] {
      hide Resolve, History.Step;
      var front := calls[..|calls| - 1];
      SubmitAllIsRun(host, init, front);
      var actions := Resolved(host, init, calls);
      assert actions[..|actions| - 1] == Resolved(host, init, front);
    }
  }
}
