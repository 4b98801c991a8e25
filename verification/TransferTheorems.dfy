/** Transfers and allowances: when each call is accepted, and exactly what it moves. */
module TransferTheorems {
  import opened ByteStrings
  import opened Ledger
  import opened Accounts
  import opened Actions
  import H = Handlers

  /** A transfer needs a positive amount that the caller holds and a named recipient; it moves that amount and nothing else. */
  lemma TransferExactly(keccak: Hasher, s: State, caller: string, to: string, asset: string, amount: Option<int>)
    ensures var r := Apply(keccak, s, Transfer(caller, to, asset, amount));
      && (r.Ok? <==> !s.paused && to != "" && amount.Some? && 0 < amount.value <= Held(s, caller, asset))
      && (r.Ok? ==>
            && r.value == s.(balances := r.value.balances)
            && HeldMoves(s, r.value, caller, to, asset, amount.value))
  {
  }

  /** A transferFrom needs the owner's grant as well, and lowers it by exactly what it moves. */
  lemma TransferFromExactly(keccak: Hasher, s: State, caller: string, from: string, to: string, asset: string, amount: Option<int>)
    ensures var r := Apply(keccak, s, TransferFrom(caller, from, to, asset, amount));
      && (r.Ok? <==> && !s.paused && to != "" && amount.Some?
                     && 0 < amount.value <= Held(s, from, asset) && amount.value <= Granted(s, from, caller, asset))
      && (r.Ok? ==>
            && r.value == s.(balances := r.value.balances, allowances := r.value.allowances)
            && HeldMoves(s, r.value, from, to, asset, amount.value)
            && GrantBecomes(s, r.value, from, caller, asset, Granted(s, from, caller, asset) - amount.value))
  {
  }

  /** What the caller's grant to a spender becomes. */
  ghost predicate Grants(keccak: Hasher, s: State, a: Action, accepted: bool, value: int)
    requires a.Approve? || a.IncreaseAllowance? || a.DecreaseAllowance?
  {
    var r := Apply(keccak, s, a);
    && (r.Ok? <==> !s.paused && accepted)
    && (r.Ok? ==>
          && r.value == s.(allowances := r.value.allowances)
          && GrantBecomes(s, r.value, a.caller, a.spender, a.asset, value))
  }

  lemma ApproveExactly(keccak: Hasher, s: State, caller: string, spender: string, asset: string, amount: Option<int>)
    ensures Grants(keccak, s, Approve(caller, spender, asset, amount), amount.Some? && amount.value >= 0,
                   if amount.Some? then amount.value else 0)
  {
  }

  lemma IncreaseExactly(keccak: Hasher, s: State, caller: string, spender: string, asset: string, amount: Option<int>)
    ensures Grants(keccak, s, IncreaseAllowance(caller, spender, asset, amount), amount.Some? && amount.value > 0,
                   Granted(s, caller, spender, asset) + if amount.Some? then amount.value else 0)
  {
  }

  /** A decrease below zero leaves zero. */
  lemma DecreaseExactly(keccak: Hasher, s: State, caller: string, spender: string, asset: string, amount: Option<int>)
    ensures var left := Granted(s, caller, spender, asset) - if amount.Some? then amount.value else 0;
      Grants(keccak, s, DecreaseAllowance(caller, spender, asset, amount), amount.Some? && amount.value > 0,
             if left < 0 then 0 else left)
  {
  }
}
