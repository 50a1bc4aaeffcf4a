/** The operations of the curve in plain arithmetic: which parameters are accepted, what each
    quote is and when it fails, how its fee is shared, and what the spot price is. */
module CurveMeaning {
  import opened Wrappers
  import opened Uint256
  import opened Curve
  import opened CurveFees
  import opened CurveQuotes

  // ---- parameters ------------------------------------------------------------------------

  /** A parameter set is accepted exactly when the supply is split with more for the curve
      than for the pool, the reserves and rates are in range, and the final reserves are the
      least on the curve on either side. */
  lemma ParametersAcceptedExactly(
    totalSupply: int, curveTokens: int, lpTokens: int, graduationETH: int,
    initialVirtualETH: int, initialVirtualToken: int, fee: Uint16, share: Uint16)
    requires IsUint256(totalSupply) && IsUint256(curveTokens) && IsUint256(lpTokens)
    requires IsUint256(graduationETH) && IsUint256(initialVirtualETH) && IsUint256(initialVirtualToken)
    ensures
      var product := initialVirtualETH * initialVirtualToken;
      var finalToken, finalETH := initialVirtualToken - curveTokens, initialVirtualETH + graduationETH;
      BuildParameters(totalSupply, curveTokens, lpTokens, graduationETH, initialVirtualETH, initialVirtualToken,
                      fee, share).Ok?
      <==>
        && totalSupply == curveTokens + lpTokens && 0 < lpTokens < curveTokens
        && 0 < graduationETH && 0 < initialVirtualETH && curveTokens < initialVirtualToken
        && fee < 10_000 && share <= 10_000
        && product <= MAX_UINT256 && finalETH <= MAX_UINT256
        && product <= finalETH * finalToken
        && (finalETH - 1) * finalToken < product && finalETH * (finalToken - 1) < product
  {
    hide BuildParameters, Lsh;
    BuildParametersAcceptsWellFormed(totalSupply, curveTokens, lpTokens, graduationETH,
                                     initialVirtualETH, initialVirtualToken, fee, share);
    MulMonotone(0, initialVirtualETH, initialVirtualToken);
    if 0 < initialVirtualETH && 0 < initialVirtualToken {
      MulMonotone(1, initialVirtualETH, initialVirtualToken);
    }
  }

  // ---- fees ------------------------------------------------------------------------------

  /** The total fee is the trade rate of the amount charged, rounded down, and the protocol's
      part is its share of that total, rounded down; the creator has the rest. */
  ghost predicate FeesAreShares(gross: int, protocolFee: int, creatorFee: int, p: Parameters) {
    var total := protocolFee + creatorFee;
    && total * 10_000 <= gross * p.tradeFeeBPS < (total + 1) * 10_000
    && protocolFee * 10_000 <= total * p.protocolShareBPS < (protocolFee + 1) * 10_000
  }

  lemma SplitIsShares(gross: int, p: Parameters)
    requires gross >= 0 && SplitFees(gross, p.tradeFeeBPS, p.protocolShareBPS).Ok?
    ensures
      var fees := SplitFees(gross, p.tradeFeeBPS, p.protocolShareBPS).value;
      && FeesAreShares(gross, fees.protocolPart, fees.creatorPart, p)
      && fees.total == fees.protocolPart + fees.creatorPart
  {
    MulMonotone(0, gross, p.tradeFeeBPS);
    FloorBounds(gross * p.tradeFeeBPS, 10_000);
    var total := gross * p.tradeFeeBPS / 10_000;
    MulMonotone(0, total, p.protocolShareBPS);
    FloorBounds(total * p.protocolShareBPS, 10_000);
  }

  /** Of every successful buy, in whatever state: the fee is charged on the gross that is
      used, shared, and added to the two totals, which stay within 256 bits. */
  lemma BuyFees(p: Parameters, s: State, supplied: Option<int>)
    requires Buy(s, p, supplied).Ok?
    ensures
      var q := Buy(s, p, supplied).value;
      var total := q.protocolFee + q.creatorFee;
      && total * 10_000 <= q.ethGrossUsed * p.tradeFeeBPS < (total + 1) * 10_000
      && q.protocolFee * 10_000 <= total * p.protocolShareBPS < (q.protocolFee + 1) * 10_000
      && q.nextState.protocolFees == s.protocolFees + q.protocolFee <= MAX_UINT256
      && q.nextState.creatorFees == s.creatorFees + q.creatorFee <= MAX_UINT256
  {
    hide SplitFees, ValidateState, ValidateParameters, CeilDiv, Lsh;
    SplitIsShares(Buy(s, p, supplied).value.ethGrossUsed, p);
  }

  /** And of every successful sale, on the gross that leaves the reserve. */
  lemma SellFees(p: Parameters, s: State, offered: Option<int>)
    requires Sell(s, p, offered).Ok?
    ensures
      var q := Sell(s, p, offered).value;
      var total := q.protocolFee + q.creatorFee;
      && q.ethOut == q.ethGross - total
      && total * 10_000 <= q.ethGross * p.tradeFeeBPS < (total + 1) * 10_000
      && q.protocolFee * 10_000 <= total * p.protocolShareBPS < (q.protocolFee + 1) * 10_000
      && q.nextState.protocolFees == s.protocolFees + q.protocolFee <= MAX_UINT256
      && q.nextState.creatorFees == s.creatorFees + q.creatorFee <= MAX_UINT256
  {
    hide SplitFees, ValidateState, ValidateParameters, CeilDiv, TokensSold, Lsh;
    SplitIsShares(Sell(s, p, offered).value.ethGross, p);
  }

  // ---- quotes ----------------------------------------------------------------------------

  /** A buy on the curve, in closed form. */
  lemma BuySpelledOut(p: Parameters, s: State, x: int)
    requires WellFormed(p) && OnCurve(p, s)
    ensures Buy(s, p, None) == Err(InvalidAmount("suppliedGross"))
    ensures
      var net := x - x * p.tradeFeeBPS / 10_000;
      var crosses := s.virtualETH + net > p.finalVirtualETH;
      var used := if crosses then (p.finalVirtualETH - s.virtualETH - 1) * 10_000 / (10_000 - p.tradeFeeBPS) + 1 else x;
      var total := used * p.tradeFeeBPS / 10_000;
      var protocolFee := total * p.protocolShareBPS / 10_000;
      var eth := if crosses then p.finalVirtualETH else s.virtualETH + net;
      Buy(s, p, Some(x)) ==
        if x < 0 || x > MAX_UINT256 then Err(InvalidAmount("suppliedGross"))
        else if x == 0 then Err(ZeroInput)
        else if s.virtualETH + net > MAX_UINT256 then Err(ArithmeticOverflow)
        else if p.product > (s.virtualETH + net) * (s.virtualToken - 1) then Err(ZeroOutput)
        else if s.protocolFees + protocolFee > MAX_UINT256 || s.creatorFees + (total - protocolFee) > MAX_UINT256
        then Err(ArithmeticOverflow)
        else
          var token := if eth > 0 then (p.product - 1) / eth + 1 else 0;
          Ok(BuyQuote(used, s.virtualToken - token, protocolFee, total - protocolFee, x - used, eth == p.finalVirtualETH,
                      State(if eth == p.finalVirtualETH then PHASE_GRADUATED else PHASE_CURVE, eth, token,
                            s.protocolFees + protocolFee, s.creatorFees + (total - protocolFee))))
  {
    hide WellFormed, OnCurve, Buy, Lsh;
    Bounds(p, s);
    BuyOnCurve(p, s, None);
    BuyOnCurve(p, s, Some(x));
    if x > 0 {
      FeeBounds(x, p.tradeFeeBPS);
    }
  }

  /** A sale on the curve, in closed form. */
  lemma SellSpelledOut(p: Parameters, s: State, x: int)
    requires WellFormed(p) && OnCurve(p, s)
    ensures Sell(s, p, None) == Err(InvalidAmount("tokensIn"))
    ensures
      var sold := p.initialVirtualToken - s.virtualToken;
      Sell(s, p, Some(x)) ==
        if x < 0 || x > MAX_UINT256 then Err(InvalidAmount("tokensIn"))
        else if x == 0 then Err(ZeroInput)
        else if x > sold then Err(Oversell(x, sold))
        else if p.product > (s.virtualETH - 1) * (s.virtualToken + x) then Err(ZeroOutput)
        else
          var eth := (p.product - 1) / (s.virtualToken + x) + 1;
          var gross := s.virtualETH - eth;
          var total := gross * p.tradeFeeBPS / 10_000;
          var protocolFee := total * p.protocolShareBPS / 10_000;
          if s.protocolFees + protocolFee > MAX_UINT256 || s.creatorFees + (total - protocolFee) > MAX_UINT256
          then Err(ArithmeticOverflow)
          else Ok(SellQuote(gross - total, gross, protocolFee, total - protocolFee,
                            State(PHASE_CURVE, eth, s.virtualToken + x,
                                  s.protocolFees + protocolFee, s.creatorFees + (total - protocolFee))))
  {
    hide WellFormed, OnCurve, Sell, Lsh;
    Bounds(p, s);
    SellOnCurve(p, s, None);
    SellOnCurve(p, s, Some(x));
  }

  /** The spot price is the reserve ratio in units of 10^-18, rounded down. */
  lemma SpotPriceIsFloor(s: State)
    requires SpotPriceWad(s).Ok?
    ensures
      var price := SpotPriceWad(s).value;
      price * s.virtualToken <= s.virtualETH * 1_000_000_000_000_000_000 < (price + 1) * s.virtualToken
  {
    hide ValidateState, Lsh;
    FloorBounds(s.virtualETH * 1_000_000_000_000_000_000, s.virtualToken);
  }
}
