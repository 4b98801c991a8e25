/** The double-entry view of a run: what the log says flowed through an asset, against its figures. */
module Books {
  import opened History
  import opened Totals

  /** Sums over the log: verified deposits, withdrawals paid or dropped, and the three kinds of drift. */
  datatype Flow = Flow(deposited: int, paid: int, dropped: int, swapTax: int, untracked: int, excess: int)

  function Book(f: Flow, e: Event, asset: string): Flow {
    match e
    case Credit(a, amount, _, _, _) => if a == asset then f.(deposited := f.deposited + amount) else f
    case Pay(ps) => f.(paid := f.paid + OwedOf(ps, asset))
    case Drop(ps) => f.(dropped := f.dropped + OwedOf(ps, asset))
    case SwapTax(a, amount) => if a == asset then f.(swapTax := f.swapTax + amount) else f
    case UntrackedFee(a, amount) => if a == asset then f.(untracked := f.untracked + amount) else f
    case Excess(a, amount) => if a == asset then f.(excess := f.excess + amount) else f
    case _ => f
  }

  function Flows(log: seq<Event>, asset: string): Flow {
    if log == [] then Flow(0, 0, 0, 0, 0, 0)
    else Book(Flows(log[..|log| - 1], asset), log[|log| - 1], asset)
  }

  /** No call logs more than two events. */
  lemma FlowsAppend(log: seq<Event>, events: seq<Event>, asset: string)
    requires |events| <= 2
    ensures Flows(log + events, asset)
      == if |events| == 0 then Flows(log, asset)
         else if |events| == 1 then Book(Flows(log, asset), events[0], asset)
         else Book(Book(Flows(log, asset), events[0], asset), events[1], asset)
  {
    hide Book;
    if events == [] {
      assert log + events == log;
    } else {
      var longer := log + events;
      assert longer[..|longer| - 1] == log + events[..|events| - 1];
      if |events| == 1 {
        assert log + events[..0] == log;
      } else {
        var middle := log + events[..1];
        assert middle[..|middle| - 1] == log;
      }
    }
  }

  /**
   Every deposit is still backing balances, queued for withdrawal, paid out, or dropped by a testnet
   clear; the user total is the sum of balances up to the recorded drift; and backing covers all balances.
   */
  predicate Balanced(f: Flow, p: Figures) {
    && f.deposited == p.active + p.owed + f.paid + f.dropped
    && p.user + f.swapTax == p.held + f.untracked + f.excess
    && p.active + f.excess == p.user + p.fee
    && 0 <= p.held <= p.active && p.user >= 0 && p.fee >= 0
    && f.untracked >= 0 && f.excess >= 0 && f.swapTax >= 0
  }

  ghost predicate LedgerInv(w: World) {
    && NonNegative(w.state.balances)
    && forall asset :: Balanced(Flows(w.log, asset), FiguresOf(w.state, asset))
  }
}
