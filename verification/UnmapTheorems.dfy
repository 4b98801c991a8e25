/** Withdrawals: when each of the three unmaps is accepted, and exactly what it debits, uses up and queues. */
module UnmapTheorems {
  import opened ByteStrings
  import opened Blocklist
  import opened Ledger
  import opened Accounts
  import opened Actions
  import opened SpendTheorems
  import Erc20
  import Gas
  import H = Handlers
  import HeaderStores
  import Transactions

  // ----- What all three ask for -----

  /** Unpaused, the queue empty, 0.05 ether in reserve, and a price from the tip, twice its base fee plus 2 gwei, that fits. */
  predicate MayQueue(s: State) {
    && !s.paused && s.pending <= s.confirmed && s.gasReserve >= 50_000_000_000_000_000
    && TipHeader(s).Some? && 2 * TipBase(s) + 2_000_000_000 < TWO_64
  }

  function Price(s: State): uint64
    requires MayQueue(s)
  {
    2 * TipBase(s) + 2_000_000_000
  }

  /** The caller's limit on the fee, when one is given. */
  predicate FeeAccepted(maxFee: H.MaxFee, fee: int) {
    match maxFee
    case NoCap => true
    case BadCap => false
    case Cap(limit) => 0 <= limit && fee <= limit
  }

  function AtLeastZero(n: int): int {
    if n < 0 then 0 else n
  }

  predicate SomeRecipient(dest: Option<Address>) {
    dest.Some? && dest.value != Zeros(20)
  }

  /** The token is registered and the amount reaches its minimum, which is 10000000 where none is set. */
  predicate Reaches(s: State, token: Option<Address>, amount: int) {
    && token.Some? && token.value in s.tokens
    && var min := s.tokens[token.value].minWithdrawal;
    amount >= if min > 0 then min else 10_000_000
  }

  /** The amount's bytes fit the calldata buffer. */
  predicate Fits(amount: int) {
    0 <= amount && |ToBigEndian(amount)| <= 68
  }

  /** The withdrawal of ether as it is queued. */
  function ETHSpend(s: State, from: string, to: Address, amount: nat): PendingSpend
    requires MayQueue(s)
  {
    PendingSpend(s.pending, amount, from, to, "eth", None,
                 Transactions.BuildEIP1559Tx(s.chainId, s.pending, 2_000_000_000, Price(s), 21_000, to, amount, []),
                 s.chain.lastHeight, s.vault, 0)
  }

  /** The withdrawal of a token, with the gas that was taken from the reserve for it. */
  function TokenSpend(s: State, from: string, to: Address, asset: string, token: Address, amount: nat): PendingSpend
    requires MayQueue(s) && Fits(amount)
  {
    PendingSpend(s.pending, amount, from, to, asset, Some(token),
                 Transactions.BuildEIP1559Tx(s.chainId, s.pending, 2_000_000_000, Price(s), 65_000, token, 0,
                                             Erc20.TransferCalldata(to, amount)),
                 s.chain.lastHeight, s.vault, 65_000 * Price(s))
  }

  /** The withdrawal is in the queue, and outside money and queue nothing changed. */
  ghost predicate QueuesSpend(s: State, after: State, ps: PendingSpend) {
    && after == s.(balances := after.balances, allowances := after.allowances, supplies := after.supplies,
                   gasReserve := after.gasReserve, spends := s.spends[s.pending := ps], pending := Wrap64(s.pending + 1))
  }

  // ----- unmapETH -----

  predicate MayUnmapETH(s: State, caller: string, amount: Option<int>, dest: Option<Address>, maxFee: H.MaxFee,
                        deductFee: bool, tssKey: bool)
  {
    && MayQueue(s) && amount.Some? && amount.value >= 10_000_000_000_000_000 && SomeRecipient(dest) && tssKey
    && FeeAccepted(maxFee, 21_000 * Price(s))
    && Held(s, caller, "eth") >= amount.value + if deductFee then 0 else 21_000 * Price(s)
  }

  /** The caller pays amount and fee, the fee total grows by the fee, and the two totals fall, not below zero. */
  ghost predicate UnmapsETH(s: State, after: State, caller: string, amount: nat, to: Address, fee: nat)
    requires MayQueue(s)
  {
    && QueuesSpend(s, after, ETHSpend(s, caller, to, amount))
    && HeldChanges(s, after, caller, "eth", -(amount + fee))
    && TrackedBecomes(s, after, "eth", AtLeastZero(Tracked(s, "eth").active - amount),
                      AtLeastZero(Tracked(s, "eth").user - (amount + fee)), Tracked(s, "eth").fee + fee)
    && after.allowances == s.allowances && after.gasReserve == s.gasReserve
  }

  lemma UnmapETHExactly(keccak: Hasher, s: State, caller: string, amount: Option<int>, dest: Option<Address>,
                        maxFee: H.MaxFee, deductFee: bool, tssKey: bool)
    ensures var r := Apply(keccak, s, UnmapETH(caller, amount, dest, maxFee, deductFee, tssKey));
      && (r.Ok? <==> MayUnmapETH(s, caller, amount, dest, maxFee, deductFee, tssKey))
      && (r.Ok? ==>
            UnmapsETH(s, r.value, caller, amount.value, dest.value, if deductFee then 0 else 21_000 * Price(s)))
  {
    hide Apply, H.UnmapETH, MayUnmapETH, UnmapsETH, Price;
    IsUnmapETH(keccak, s, UnmapETH(caller, amount, dest, maxFee, deductFee, tssKey));
    ETHGuard(s, caller, amount, dest, maxFee, deductFee, tssKey);
    if MayUnmapETH(s, caller, amount, dest, maxFee, deductFee, tssKey) {
      ETHEffect(s, caller, amount.value, dest.value, if deductFee then 0 else 21_000 * Price(s));
    }
  }

  /** The state behind an accepted unmapETH. */
  function UnmappedETH(s: State, caller: string, amount: nat, to: Address, fee: nat): State
    requires MayQueue(s)
  {
    H.Queued(
      s.(balances := Credited(s.balances, caller, "eth", -(amount + fee)),
         supplies := WithdrawnETH(s.supplies, amount, amount + fee)),
      ETHSpend(s, caller, to, amount))
  }

  lemma ETHGuard(s: State, caller: string, amount: Option<int>, dest: Option<Address>, maxFee: H.MaxFee,
                 deductFee: bool, tssKey: bool)
    ensures MayUnmapETH(s, caller, amount, dest, maxFee, deductFee, tssKey) ==>
      MayQueue(s) && amount.Some? && dest.Some? && amount.value > 0
    ensures var r := H.UnmapETH(s, caller, amount, dest, maxFee, deductFee, tssKey);
      && (r.Ok? <==> MayUnmapETH(s, caller, amount, dest, maxFee, deductFee, tssKey))
      && (r.Ok? ==>
            r.value == UnmappedETH(s, caller, amount.value, dest.value, if deductFee then 0 else 21_000 * Price(s)))
  {
    hide HeaderStores.GetHeader, Gas.SafeGasFee, Transactions.BuildEIP1559Tx, Credited, WithdrawnETH;
    if TipHeader(s).Some? {
      PriceExactly(s, 21_000);
    }
  }

  lemma ETHEffect(s: State, caller: string, amount: nat, to: Address, fee: nat)
    requires MayQueue(s)
    ensures UnmapsETH(s, UnmappedETH(s, caller, amount, to, fee), caller, amount, to, fee)
  {
    hide HeaderStores.GetHeader, Transactions.BuildEIP1559Tx;
  }

  lemma PriceExactly(s: State, gas: uint64)
    requires TipHeader(s).Some?
    ensures var cap := 2 * TipBase(s) + 2_000_000_000;
      Gas.SafeGasFee(gas, TipBase(s), 2, H.GAS_TIP_CAP)
        == if cap >= TWO_64 then None else Some(Gas.Price(cap, gas * cap))
  {
    hide HeaderStores.GetHeader;
    Gas.SafeGasFeeExact(gas, TipBase(s), 2, H.GAS_TIP_CAP);
  }

  // ----- unmapERC20 -----

  predicate MayUnmapERC20(s: State, caller: string, amount: Option<int>, token: Option<Address>, dest: Option<Address>,
                          tssKey: bool)
  {
    && MayQueue(s) && amount.Some? && amount.value > 0 && Reaches(s, token, amount.value) && SomeRecipient(dest) && tssKey
    && Fits(amount.value)
    && var asset := s.tokens[token.value].symbol;
    && Held(s, caller, asset) >= amount.value
    && Tracked(s, asset).active >= amount.value && Tracked(s, asset).user >= amount.value
  }

  /** Balance, active and user fall by the amount, and the reserve by the gas, not below zero. */
  ghost predicate UnmapsToken(s: State, after: State, caller: string, amount: nat, asset: string, token: Address, to: Address)
    requires MayQueue(s) && Fits(amount)
  {
    && QueuesSpend(s, after, TokenSpend(s, caller, to, asset, token, amount))
    && HeldChanges(s, after, caller, asset, 0 - amount)
    && TrackedBecomes(s, after, asset, Tracked(s, asset).active - amount, Tracked(s, asset).user - amount, Tracked(s, asset).fee)
    && after.allowances == s.allowances && after.gasReserve == AtLeastZero(s.gasReserve - 65_000 * Price(s))
  }

  lemma UnmapERC20Exactly(keccak: Hasher, s: State, caller: string, amount: Option<int>, token: Option<Address>,
                          dest: Option<Address>, tssKey: bool)
    ensures var r := Apply(keccak, s, UnmapERC20(caller, amount, token, dest, tssKey));
      && (r.Ok? <==> MayUnmapERC20(s, caller, amount, token, dest, tssKey))
      && (r.Ok? ==> UnmapsToken(s, r.value, caller, amount.value, s.tokens[token.value].symbol, token.value, dest.value))
  {
    IsUnmapERC20(keccak, s, UnmapERC20(caller, amount, token, dest, tssKey));
    hide Apply, H.UnmapERC20, UnmapsToken, Price;
    TokenGuard(s, caller, amount, token, dest, tssKey);
    if MayUnmapERC20(s, caller, amount, token, dest, tssKey) {
      TokenEffect(s, caller, amount.value, s.tokens[token.value].symbol, token.value, dest.value);
    }
  }

  /** The state behind an accepted unmapERC20. */
  function UnmappedToken(s: State, caller: string, amount: nat, asset: string, token: Address, to: Address): State
    requires MayQueue(s) && Fits(amount)
  {
    H.Queued(
      s.(balances := Credited(s.balances, caller, asset, 0 - amount), supplies := Withdrawn(s.supplies, asset, amount),
         gasReserve := Clamp(s.gasReserve - 65_000 * Price(s))),
      TokenSpend(s, caller, to, asset, token, amount))
  }

  lemma TokenGuard(s: State, caller: string, amount: Option<int>, token: Option<Address>, dest: Option<Address>, tssKey: bool)
    ensures var r := H.UnmapERC20(s, caller, amount, token, dest, tssKey);
      && (r.Ok? <==> MayUnmapERC20(s, caller, amount, token, dest, tssKey))
      && (r.Ok? ==>
            r.value == UnmappedToken(s, caller, amount.value, s.tokens[token.value].symbol, token.value, dest.value))
  {
    hide HeaderStores.GetHeader, Gas.SafeGasFee, Transactions.BuildEIP1559Tx, Credited, Withdrawn, Clamp;
    if TipHeader(s).Some? {
      PriceExactly(s, 65_000);
    }
  }

  lemma TokenEffect(s: State, caller: string, amount: nat, asset: string, token: Address, to: Address)
    requires MayQueue(s) && Fits(amount)
    ensures UnmapsToken(s, UnmappedToken(s, caller, amount, asset, token, to), caller, amount, asset, token, to)
  {
    hide HeaderStores.GetHeader, Transactions.BuildEIP1559Tx;
  }

  // ----- unmapFrom -----

  predicate MayUnmapFrom(s: State, caller: string, from: string, asset: string, amount: Option<int>, token: Option<Address>,
                         dest: Option<Address>, maxFee: H.MaxFee, deductFee: bool, tssKey: bool)
  {
    && MayQueue(s) && amount.Some? && amount.value > 0 && SomeRecipient(dest) && tssKey
    && Granted(s, from, caller, asset) >= amount.value
    && Tracked(s, asset).active >= amount.value && Tracked(s, asset).user >= amount.value
    && if asset == "eth" then
         && amount.value >= 10_000_000_000_000_000 && FeeAccepted(maxFee, 21_000 * Price(s))
         && Held(s, from, asset) >= amount.value + if deductFee then 0 else 21_000 * Price(s)
       else Reaches(s, token, amount.value) && Fits(amount.value) && Held(s, from, asset) >= amount.value
  }

  /** What the owner pays on top of the amount. */
  function OnTop(s: State, asset: string, deductFee: bool): int
    requires MayQueue(s)
  {
    if asset == "eth" && !deductFee then 21_000 * Price(s) else 0
  }

  /**
   The spender needs the owner's grant of the amount and uses up exactly that much of it; the owner pays the
   amount, and for ether the fee on top unless it is to be deducted. Active and user fall by the amount.
   */
  lemma UnmapFromExactly(keccak: Hasher, s: State, a: Action)
    requires a.UnmapFrom?
    ensures var r := Apply(keccak, s, a);
      && (r.Ok? <==> MayUnmapFrom(s, a.caller, a.from, a.asset, a.amount, a.token, a.dest, a.maxFee, a.deductFee, a.tssKey))
      && (r.Ok? ==> UnmapsFrom(s, r.value, a))
  {
    hide Apply, H.UnmapFrom, UnmapsFrom;
    IsUnmapFrom(keccak, s, a);
    FromGuard(s, a);
    if MayUnmapFrom(s, a.caller, a.from, a.asset, a.amount, a.token, a.dest, a.maxFee, a.deductFee, a.tssKey) {
      UnmappedFromExactly(s, a);
    }
  }

  lemma FromGuard(s: State, a: Action)
    requires a.UnmapFrom?
    ensures var r := H.UnmapFrom(s, a.caller, a.from, a.asset, a.amount, a.token, a.dest, a.maxFee, a.deductFee, a.tssKey);
      && (r.Ok? <==> MayUnmapFrom(s, a.caller, a.from, a.asset, a.amount, a.token, a.dest, a.maxFee, a.deductFee, a.tssKey))
      && (r.Ok? ==>
            var gas := if a.asset == "eth" then 21_000 else 65_000;
            r.value == H.UnmappedFrom(s, a.caller, a.from, a.asset, a.amount.value, a.token, a.dest.value,
                                      Gas.Price(Price(s), gas * Price(s)), a.amount.value + OnTop(s, a.asset, a.deductFee)))
  {
    hide HeaderStores.GetHeader, Gas.SafeGasFee, H.UnmappedFrom;
    if TipHeader(s).Some? {
      PriceExactly(s, 21_000);
      PriceExactly(s, 65_000);
    }
  }

  ghost predicate UnmapsFrom(s: State, after: State, a: Action)
    requires a.UnmapFrom?
    requires MayUnmapFrom(s, a.caller, a.from, a.asset, a.amount, a.token, a.dest, a.maxFee, a.deductFee, a.tssKey)
  {
    var amount, supply := a.amount.value, Tracked(s, a.asset);
    && QueuesSpend(s, after, if a.asset == "eth" then ETHSpend(s, a.from, a.dest.value, amount)
                             else TokenSpend(s, a.from, a.dest.value, a.asset, a.token.value, amount))
    && HeldChanges(s, after, a.from, a.asset, -(amount + OnTop(s, a.asset, a.deductFee)))
    && GrantBecomes(s, after, a.from, a.caller, a.asset, Granted(s, a.from, a.caller, a.asset) - amount)
    && TrackedBecomes(s, after, a.asset, supply.active - amount, supply.user - amount, supply.fee)
    && after.gasReserve == if a.asset == "eth" then s.gasReserve else AtLeastZero(s.gasReserve - 65_000 * Price(s))
  }

  lemma UnmappedFromExactly(s: State, a: Action)
    requires a.UnmapFrom?
    requires MayUnmapFrom(s, a.caller, a.from, a.asset, a.amount, a.token, a.dest, a.maxFee, a.deductFee, a.tssKey)
    ensures var gas := if a.asset == "eth" then 21_000 else 65_000;
      UnmapsFrom(s, H.UnmappedFrom(s, a.caller, a.from, a.asset, a.amount.value, a.token, a.dest.value,
                                   Gas.Price(Price(s), gas * Price(s)), a.amount.value + OnTop(s, a.asset, a.deductFee)), a)
  {
    hide HeaderStores.GetHeader, Transactions.BuildEIP1559Tx;
  }
}
