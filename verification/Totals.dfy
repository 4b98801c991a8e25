/** Sums of balances per asset, and what each elementary change does to an asset's figures. */
module Totals {
  import opened Ledger

  function Share(k: Account, v: int, asset: string): int {
    if k.asset == asset then v else 0
  }

  /** The sum of an asset's balances. */
  ghost function Total(balances: map<Account, int>, asset: string): int
    decreases |balances|
  {
    if balances == map[] then 0
    else
      var k :| k in balances;
      Share(k, balances[k], asset) + Total(Without(balances, k), asset)
  }

  function Without(balances: map<Account, int>, k: Account): (r: map<Account, int>)
    requires k in balances
    ensures |r| < |balances|
  {
    var r := balances - {k};
    assert r.Keys == balances.Keys - {k};
    r
  }

  lemma TotalPicks(balances: map<Account, int>, asset: string) returns (k: Account)
    requires balances != map[]
    ensures k in balances
    ensures Total(balances, asset) == Share(k, balances[k], asset) + Total(Without(balances, k), asset)
  {
    k :| k in balances && Total(balances, asset) == Share(k, balances[k], asset) + Total(Without(balances, k), asset);
  }

  /** Any account may be summed first. */
  lemma {:induction false} TotalSplits(balances: map<Account, int>, k: Account, asset: string)
    requires k in balances
    ensures Total(balances, asset) == Share(k, balances[k], asset) + Total(Without(balances, k), asset)
    decreases |balances|
  {
    hide Total;
    var j := TotalPicks(balances, asset);
    if j != k {
      TotalSplits(Without(balances, j), k, asset);
      TotalSplits(Without(balances, k), j, asset);
      assert Without(Without(balances, j), k) == Without(Without(balances, k), j);
    }
  }

  lemma TotalUpdate(balances: map<Account, int>, k: Account, v: int, asset: string)
    ensures Total(balances[k := v], asset)
      == Total(balances, asset) + Share(k, v - (if k in balances then balances[k] else 0), asset)
  {
    hide Total;
    var after := balances[k := v];
    TotalSplits(after, k, asset);
    if k in balances {
      TotalSplits(balances, k, asset);
      assert Without(after, k) == Without(balances, k);
    } else {
      assert Without(after, k) == balances;
    }
  }

  /** Crediting an account moves its asset's total by the amount, and no other. */
  lemma TotalCredited(balances: map<Account, int>, owner: string, a: string, amount: int, asset: string)
    ensures Total(Credited(balances, owner, a, amount), asset) == Total(balances, asset) + (if a == asset then amount else 0)
  {
    hide Total;
    TotalUpdate(balances, Account(owner, a), BalanceOf(balances, owner, a) + amount, asset);
  }

  ghost predicate NonNegative(balances: map<Account, int>) {
    forall k :: k in balances ==> balances[k] >= 0
  }

  lemma {:induction false} TotalNonNegative(balances: map<Account, int>, asset: string)
    requires NonNegative(balances)
    ensures Total(balances, asset) >= 0
    decreases |balances|
  {
    if balances != map[] {
      var k := TotalPicks(balances, asset);
      hide Total;
      TotalNonNegative(Without(balances, k), asset);
    }
  }

  lemma TotalCovers(balances: map<Account, int>, owner: string, asset: string)
    requires NonNegative(balances)
    ensures BalanceOf(balances, owner, asset) <= Total(balances, asset)
  {
    hide Total;
    var k := Account(owner, asset);
    TotalNonNegative(balances, asset);
    if k in balances {
      TotalSplits(balances, k, asset);
      TotalNonNegative(Without(balances, k), asset);
    }
  }

  // ----- An asset's figures -----

  /** Supply totals, the sum of balances, and the amount of the withdrawal in the queue. */
  datatype Figures = Figures(active: int, user: int, fee: int, held: int, owed: int)

  function OwedOf(ps: PendingSpend, asset: string): int {
    if ps.asset == asset then ps.amount else 0
  }

  function Owed(s: State, asset: string): int {
    if s.confirmed in s.spends then OwedOf(s.spends[s.confirmed], asset) else 0
  }

  ghost function FiguresOf(s: State, asset: string): Figures {
    var supply := SupplyOf(s.supplies, asset);
    Figures(supply.active, supply.user, supply.fee, Total(s.balances, asset), Owed(s, asset))
  }

  /** An amount of one asset, as it counts for another. */
  function Part(a: string, asset: string, amount: int): int {
    if a == asset then amount else 0
  }
}
