/** What the floored trade fee and its inverse mean. */
module CurveFees {
  import opened Wrappers
  import opened Uint256
  import opened Curve

  /** The floored fee on a gross amount, and what is left of the amount. */
  function Fee(gross: int, feeBPS: int): int {
    gross * feeBPS / BPS_DENOMINATOR
  }

  function Net(gross: int, feeBPS: int): int {
    gross - Fee(gross, feeBPS)
  }

  /** The protocol's floored share of a fee. */
  function ProtocolPart(fee: int, shareBPS: int): int {
    fee * shareBPS / BPS_DENOMINATOR
  }

  predicate ValidFee(feeBPS: int) {
    0 <= feeBPS < BPS_DENOMINATOR
  }

  lemma FeeBounds(gross: int, feeBPS: int)
    requires gross >= 0 && ValidFee(feeBPS)
    ensures Fee(gross, feeBPS) * BPS_DENOMINATOR <= gross * feeBPS < (Fee(gross, feeBPS) + 1) * BPS_DENOMINATOR
    ensures 0 <= Fee(gross, feeBPS) <= gross
    ensures gross > 0 ==> Net(gross, feeBPS) > 0
  {
    MulMonotone(0, gross, feeBPS);
    FloorBounds(gross * feeBPS, BPS_DENOMINATOR);
    MulMonotone(feeBPS, BPS_DENOMINATOR - 1, gross);
  }

  /** A net of at least n needs exactly a gross with gross * (10000 - fee) > (n - 1) * 10000. */
  lemma NetReaches(gross: int, feeBPS: int, n: int)
    requires gross >= 0 && ValidFee(feeBPS)
    ensures Net(gross, feeBPS) >= n <==> gross * (BPS_DENOMINATOR - feeBPS) > (n - 1) * BPS_DENOMINATOR
  {
    FeeBounds(gross, feeBPS);
    FloorIsGreatest(gross * feeBPS, BPS_DENOMINATOR, gross - n + 1);
    assert gross * (BPS_DENOMINATOR - feeBPS) == gross * BPS_DENOMINATOR - gross * feeBPS;
  }

  lemma {:induction false} NetMonotone(a: int, b: int, feeBPS: int)
    requires 0 <= a <= b && ValidFee(feeBPS)
    ensures Net(a, feeBPS) <= Net(b, feeBPS)
  {
    NetReaches(a, feeBPS, Net(a, feeBPS));
    NetReaches(b, feeBPS, Net(a, feeBPS));
    MulMonotone(a, b, BPS_DENOMINATOR - feeBPS);
  }

  /** The net moves by at most one when the gross moves by one. */
  lemma NetStep(gross: int, feeBPS: int)
    requires gross >= 1 && ValidFee(feeBPS)
    ensures Net(gross, feeBPS) <= Net(gross - 1, feeBPS) + 1
  {
    FeeBounds(gross, feeBPS);
    FeeBounds(gross - 1, feeBPS);
    assert gross * feeBPS == (gross - 1) * feeBPS + feeBPS;
  }

  /** The closed form behind ExactGrossForNet, without its overflow check. */
  function LeastGross(net: int, feeBPS: int): int
    requires net >= 1 && ValidFee(feeBPS)
  {
    (net - 1) * BPS_DENOMINATOR / (BPS_DENOMINATOR - feeBPS) + 1
  }

  /** LeastGross is the least gross amount that nets at least `net`, and it nets exactly `net`. */
  lemma LeastGrossIsLeast(net: int, feeBPS: int)
    requires net >= 1 && ValidFee(feeBPS)
    ensures forall gross :: gross >= 0 ==>
      (Net(gross, feeBPS) >= net <==> gross >= LeastGross(net, feeBPS))
    ensures LeastGross(net, feeBPS) >= net
    ensures Net(LeastGross(net, feeBPS), feeBPS) == net
  {
    var least := LeastGross(net, feeBPS);
    FloorBounds((net - 1) * BPS_DENOMINATOR, BPS_DENOMINATOR - feeBPS);
    forall gross | gross >= 0
      ensures Net(gross, feeBPS) >= net <==> gross >= least
    {
      NetReaches(gross, feeBPS, net);
      FloorIsGreatest((net - 1) * BPS_DENOMINATOR, BPS_DENOMINATOR - feeBPS, gross);
    }
    assert Net(least, feeBPS) >= net;
    NetStep(least, feeBPS);
    assert !(Net(least - 1, feeBPS) >= net);
    FeeBounds(least, feeBPS);
  }

  /** ExactGrossForNet returns that least gross amount; its only failures are a zero
      net, a fee of 100% or more, and a result beyond 256 bits. */
  lemma ExactGrossIsLeast(net: int, feeBPS: Uint16)
    requires net >= 0
    ensures
      var r := ExactGrossForNet(net, feeBPS);
      && (net == 0 ==> r == Err(ZeroInput))
      && (net > 0 && !ValidFee(feeBPS) ==> r == Err(InvalidTradeFeeBPS(feeBPS)))
      && (net > 0 && ValidFee(feeBPS) ==>
            if LeastGross(net, feeBPS) <= MAX_UINT256 then r == Ok(LeastGross(net, feeBPS))
            else r == Err(ArithmeticOverflow))
      && (r.Ok? ==> Net(r.value, feeBPS) == net
                    && forall gross :: 0 <= gross < r.value ==> Net(gross, feeBPS) < net)
  {
    if net > 0 && ValidFee(feeBPS) {
      LeastGrossIsLeast(net, feeBPS);
    }
  }

  /** The protocol's share never exceeds the fee, so SplitFees succeeds on every uint256. */
  lemma SplitSucceeds(gross: int, feeBPS: Uint16, shareBPS: Uint16)
    requires IsUint256(gross) && ValidFee(feeBPS) && shareBPS <= BPS_DENOMINATOR
    ensures
      var r := SplitFees(gross, feeBPS, shareBPS);
      && r.Ok?
      && r.value.total == Fee(gross, feeBPS)
      && r.value.protocolPart + r.value.creatorPart == r.value.total
      && r.value.protocolPart == ProtocolPart(r.value.total, shareBPS)
      && 0 <= r.value.protocolPart && 0 <= r.value.creatorPart
      && 0 <= r.value.total <= gross
  {
    FeeBounds(gross, feeBPS);
    var total := Fee(gross, feeBPS);
    MulMonotone(0, total, shareBPS);
    MulMonotone(shareBPS, BPS_DENOMINATOR, total);
    FloorBounds(total * shareBPS, BPS_DENOMINATOR);
  }

  /** The fee is the rate of the amount and the protocol's part the share of the fee, each
      rounded down, and the parts add up to the fee. */
  lemma SplitFeesSplits(gross: int, feeBPS: Uint16, shareBPS: Uint16)
    requires IsUint256(gross) && ValidFee(feeBPS) && shareBPS <= BPS_DENOMINATOR
    ensures
      var r := SplitFees(gross, feeBPS, shareBPS);
      && r.Ok?
      && r.value.total * 10_000 <= gross * feeBPS < (r.value.total + 1) * 10_000
      && r.value.protocolPart * 10_000 <= r.value.total * shareBPS < (r.value.protocolPart + 1) * 10_000
      && r.value.protocolPart + r.value.creatorPart == r.value.total <= gross
      && 0 <= r.value.protocolPart && 0 <= r.value.creatorPart
  {
    SplitSucceeds(gross, feeBPS, shareBPS);
    FeeBounds(gross, feeBPS);
    MulMonotone(0, Fee(gross, feeBPS), shareBPS);
    FloorBounds(Fee(gross, feeBPS) * shareBPS, BPS_DENOMINATOR);
  }

  /** Splitting a gross amount in two costs at most one unit of fee. */
  lemma FeeOfSum(a: int, b: int, feeBPS: int)
    requires a >= 0 && b >= 0 && ValidFee(feeBPS)
    ensures Fee(a, feeBPS) + Fee(b, feeBPS) <= Fee(a + b, feeBPS) <= Fee(a, feeBPS) + Fee(b, feeBPS) + 1
  {
    FeeBounds(a, feeBPS);
    FeeBounds(b, feeBPS);
    FeeBounds(a + b, feeBPS);
    assert (a + b) * feeBPS == a * feeBPS + b * feeBPS;
  }
}
