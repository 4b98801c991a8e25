/** Checked gas pricing: a 64-bit price per gas and an exact total. */
module Gas {
  import opened ByteStrings

  datatype Price = Price(cap: uint64, fee: nat)

  /** None stands for the overflow error. */
  function SafeGasFee(gasUnits: uint64, baseFeePerGas: uint64, multiplier: uint64, gasTipCap: uint64): Option<Price> {
    var scaled := Wrap64(baseFeePerGas * multiplier);
    if baseFeePerGas != 0 && multiplier != 0 && scaled / multiplier != baseFeePerGas then None
    else
      var gasFeeCap := Wrap64(scaled + gasTipCap);
      if gasFeeCap < scaled then None
      else if gasUnits == 0 || gasFeeCap == 0 then Some(Price(gasFeeCap, 0))
      else Some(Price(gasFeeCap, gasUnits * gasFeeCap))
  }

  /** The checks reject exactly the prices that do not fit 64 bits; every other price and fee is exact. */
  lemma SafeGasFeeExact(gasUnits: uint64, baseFeePerGas: uint64, multiplier: uint64, gasTipCap: uint64)
    ensures var cap := baseFeePerGas * multiplier + gasTipCap;
      SafeGasFee(gasUnits, baseFeePerGas, multiplier, gasTipCap)
        == if cap >= TWO_64 then None else Some(Price(cap, gasUnits * cap))
  {
    var product := baseFeePerGas * multiplier;
    MulMonotone(0, baseFeePerGas, multiplier);
    if product < TWO_64 {
      if multiplier != 0 {
        ExactQuotient(baseFeePerGas, multiplier);
      } else {
        assert product == 0;
      }
      assert Wrap64(product) == product;
      var cap := product + gasTipCap;
      assert cap >= TWO_64 <==> Wrap64(cap) < product;
      assert cap == 0 ==> gasUnits * cap == 0;
    } else {
      WrappedQuotient(baseFeePerGas, multiplier);
    }
  }

  lemma MulMonotone(a: int, b: int, m: nat)
    requires a <= b
    ensures a * m <= b * m
  {
  }

  lemma ExactQuotient(a: nat, m: nat)
    requires m > 0
    ensures a * m / m == a
  {
    QuotientIs(a * m, m, a);
  }

  lemma QuotientIs(x: nat, m: nat, q: nat)
    requires m > 0 && q * m <= x < (q + 1) * m
    ensures x / m == q
  {
    var d := x / m;
    assert d * m <= x < (d + 1) * m;
    if d < q {
      MulMonotone(d + 1, q, m);
    } else if q < d {
      MulMonotone(q + 1, d, m);
    }
  }

  /** A product that wrapped divides back to something smaller. */
  lemma WrappedQuotient(a: nat, m: nat)
    requires a < TWO_64 && m < TWO_64 && a * m >= TWO_64
    ensures a != 0 && m != 0 && Wrap64(a * m) / m != a
  {
    Wrap64IsMod(a * m);
    var w := Wrap64(a * m);
    var q := a * m / TWO_64;
    assert a * m == q * TWO_64 + w;
    assert q >= 1;
    assert w <= a * m - TWO_64;
    var d := w / m;
    assert d * m <= w < a * m;
  }
}
