/** Buy and Sell on states of the curve phase: which checks can fail, what a
    successful quote is worth, and which reserves it leaves. */
module CurveQuotes {
  import opened Wrappers
  import opened Uint256
  import opened Curve
  import opened CurveFees

  // ---- states ----------------------------------------------------------------------

  predicate OnCurve(p: Parameters, s: State) {
    && s.phase == PHASE_CURVE
    && IsUint256(s.protocolFees) && IsUint256(s.creatorFees)
    && p.initialVirtualETH <= s.virtualETH < p.finalVirtualETH
    && p.finalVirtualToken < s.virtualToken <= p.initialVirtualToken
    && p.product <= s.virtualETH * s.virtualToken
    && (s.virtualToken == p.initialVirtualToken ==> s.virtualETH == p.initialVirtualETH)
  }

  predicate Graduated(p: Parameters, s: State) {
    && s.phase == PHASE_GRADUATED
    && IsUint256(s.protocolFees) && IsUint256(s.creatorFees)
    && s.virtualETH == p.finalVirtualETH
    && s.virtualToken == p.finalVirtualToken
  }

  /** No smaller ETH reserve would do for this token reserve. */
  predicate EthTight(p: Parameters, s: State) {
    (s.virtualETH - 1) * s.virtualToken < p.product
  }

  /** No smaller token reserve would do for this ETH reserve. */
  predicate TokenTight(p: Parameters, s: State) {
    s.virtualETH * (s.virtualToken - 1) < p.product
  }

  predicate CurveInvariant(p: Parameters, s: State) {
    && (OnCurve(p, s) || Graduated(p, s))
    && p.product <= s.virtualETH * s.virtualToken
    && (EthTight(p, s) || TokenTight(p, s))
  }

  /** The ETH reserve above what the token reserve requires, and the converse. */
  function EthSlack(p: Parameters, s: State): int
    requires p.product >= 0 && s.virtualToken > 0
  {
    s.virtualETH - CeilQuotient(p.product, s.virtualToken)
  }

  function TokenSlack(p: Parameters, s: State): int
    requires p.product >= 0 && s.virtualETH > 0
  {
    s.virtualToken - CeilQuotient(p.product, s.virtualETH)
  }

  lemma TightIsZeroSlack(p: Parameters, s: State)
    requires WellFormed(p) && s.virtualETH > 0 && s.virtualToken > 0
    requires p.product <= s.virtualETH * s.virtualToken
    ensures EthSlack(p, s) >= 0 && TokenSlack(p, s) >= 0
    ensures EthTight(p, s) <==> EthSlack(p, s) == 0
    ensures TokenTight(p, s) <==> TokenSlack(p, s) == 0
  {
    hide WellFormed, CeilQuotient, Lsh;
    ProductPositive(p);
    LeastOnBothSides(p.product, s.virtualETH, s.virtualToken);
  }

  lemma ProductPositive(p: Parameters)
    requires WellFormed(p)
    ensures p.product > 0
  {
  }

  lemma LeastOnBothSides(product: int, eth: int, token: int)
    requires product > 0 && eth > 0 && token > 0 && product <= eth * token
    ensures CeilQuotient(product, token) <= eth && CeilQuotient(product, eth) <= token
    ensures CeilQuotient(product, token) == eth <==> (eth - 1) * token < product
    ensures CeilQuotient(product, eth) == token <==> eth * (token - 1) < product
  {
    hide CeilQuotient;
    CeilIsLeast(product, token, eth);
    CeilIsLeast(product, token, eth - 1);
    CeilIsLeast(product, eth, token);
    CeilIsLeast(product, eth, token - 1);
  }

  // ---- buying ----------------------------------------------------------------------

  /** Whether a buy of `gross` would carry the ETH reserve past its final value. */
  predicate Crosses(p: Parameters, s: State, gross: int) {
    s.virtualETH + Net(gross, p.tradeFeeBPS) > p.finalVirtualETH
  }

  /** A buy succeeds only if it moves the token reserve: K <= (E + net) * (T - 1). */
  predicate BuyMovesToken(p: Parameters, s: State, gross: int) {
    p.product <= (s.virtualETH + Net(gross, p.tradeFeeBPS)) * (s.virtualToken - 1)
  }

  lemma CeilingPoint(product: int, eth: int)
    requires product > 0 && eth > 0
    ensures
      var token := CeilQuotient(product, eth);
      0 < token && product <= eth * token && eth * (token - 1) < product
  {
    var token := CeilQuotient(product, eth);
    CeilNonNegative(product, eth);
    CeilIsLeast(product, eth, token);
    CeilIsLeast(product, eth, token - 1);
  }

  lemma LeastCeiling(product: int, token: int)
    requires product > 0 && token > 0
    ensures
      var eth := CeilQuotient(product, token);
      0 < eth && product <= eth * token && (eth - 1) * token < product
  {
    CeilingPoint(product, token);
  }

  /** Against the reserves bought from. */
  lemma CeilingBelow(product: int, oldETH: int, oldToken: int, eth: int)
    requires product > 0 && eth >= oldETH > 0 && oldToken > 0 && product <= oldETH * oldToken
    ensures CeilQuotient(product, eth) <= oldToken
    ensures CeilQuotient(product, eth) < oldToken <==> product <= eth * (oldToken - 1)
  {
    MulMonotone(oldETH, eth, oldToken);
    CeilIsLeast(product, eth, oldToken);
    CeilIsLeast(product, eth, oldToken - 1);
  }

  /** Against the final reserves. */
  lemma CeilingAtBoundary(product: int, finalETH: int, finalToken: int, eth: int, oldToken: int)
    requires product > 0 && eth > 0 && finalETH > 0 && 0 < finalToken < oldToken
    requires product <= finalETH * finalToken
    requires (finalETH - 1) * finalToken < product && finalETH * (finalToken - 1) < product
    ensures eth < finalETH ==> CeilQuotient(product, eth) > finalToken
    ensures eth == finalETH ==> CeilQuotient(product, eth) == finalToken
    ensures eth >= finalETH ==> product <= eth * (oldToken - 1)
  {
    hide CeilQuotient;
    CeilIsLeast(product, eth, finalToken - 1);
    CeilIsLeast(product, eth, finalToken);
    if eth < finalETH {
      MulMonotone(eth, finalETH - 1, finalToken);
    } else {
      MulMonotone(finalETH, eth, finalToken);
      MulMonotone(finalToken, oldToken - 1, eth);
    }
  }

  lemma CandidateToken(p: Parameters, s: State, eth: int)
    requires WellFormed(p) && OnCurve(p, s) && eth > s.virtualETH
    ensures
      var token := CeilQuotient(p.product, eth);
      && 0 < token <= s.virtualToken
      && (token < s.virtualToken <==> p.product <= eth * (s.virtualToken - 1))
      && (eth < p.finalVirtualETH ==> token > p.finalVirtualToken)
      && (eth == p.finalVirtualETH ==> token == p.finalVirtualToken)
      && (eth >= p.finalVirtualETH ==> p.product <= eth * (s.virtualToken - 1))
      && p.product <= eth * token && eth * (token - 1) < p.product
  {
    CeilingPoint(p.product, eth);
    CeilingBelow(p.product, s.virtualETH, s.virtualToken, eth);
    CeilingAtBoundary(p.product, p.finalVirtualETH, p.finalVirtualToken, eth, s.virtualToken);
  }

  lemma FinalETHIsCeiling(p: Parameters)
    requires WellFormed(p)
    ensures CeilDiv(p.product, p.finalVirtualToken) == Ok(p.finalVirtualETH)
  {
    BoundaryChecks(p.product, p.finalVirtualToken, p.finalVirtualETH);
  }

  /** The fill that a buy makes, without any check. */
  function IdealFill(p: Parameters, s: State, gross: int): Fill
    requires WellFormed(p) && OnCurve(p, s) && gross > 0
  {
    var used := if Crosses(p, s, gross) then LeastGross(p.finalVirtualETH - s.virtualETH, p.tradeFeeBPS) else gross;
    var fee := Fee(used, p.tradeFeeBPS);
    var protocolFee := ProtocolPart(fee, p.protocolShareBPS);
    var newETH := if Crosses(p, s, gross) then p.finalVirtualETH else s.virtualETH + Net(gross, p.tradeFeeBPS);
    assert newETH > 0 by { FeeBounds(gross, p.tradeFeeBPS); }
    Fill(used, protocolFee, fee - protocolFee, newETH,
         CeilQuotient(p.product, newETH), gross - used, newETH == p.finalVirtualETH)
  }

  /** What the fill is worth: everything supplied is used or refunded, what is used
      is the reserve's growth plus the fees, the new reserves lie on the curve
      rounded up, and graduation happens at exactly the final reserves. A clipped
      fill uses the least gross that reaches them and leaves a positive refund. */
  lemma IdealFillProperties(p: Parameters, s: State, gross: int)
    requires WellFormed(p) && OnCurve(p, s) && gross > 0 && BuyMovesToken(p, s, gross)
    ensures
      var f := IdealFill(p, s, gross);
      && f.ethGrossUsed + f.refund == gross
      && f.ethGrossUsed == (f.newVirtualETH - s.virtualETH) + f.protocolFee + f.creatorFee
      && 0 <= f.protocolFee && 0 <= f.creatorFee
      && (Crosses(p, s, gross) ==> f.refund > 0)
      && (!Crosses(p, s, gross) ==> f.refund == 0)
      && (forall g :: 0 <= g < f.ethGrossUsed && Crosses(p, s, gross) ==>
            s.virtualETH + Net(g, p.tradeFeeBPS) < p.finalVirtualETH)
      && s.virtualETH < f.newVirtualETH <= p.finalVirtualETH
      && p.finalVirtualToken <= f.newVirtualToken < s.virtualToken
      && (f.graduates <==> f.newVirtualETH == p.finalVirtualETH)
      && (f.graduates <==> f.newVirtualToken == p.finalVirtualToken)
      && p.product <= f.newVirtualETH * f.newVirtualToken
      && f.newVirtualETH * (f.newVirtualToken - 1) < p.product
  {
    IdealFillFees(p, s, gross);
    IdealFillReserves(p, s, gross);
  }

  lemma Bounds(p: Parameters, s: State)
    requires WellFormed(p) && OnCurve(p, s)
    ensures 0 < s.virtualETH < p.finalVirtualETH && p.product > 0
    ensures 0 < p.finalVirtualToken < s.virtualToken <= p.initialVirtualToken
    ensures ValidFee(p.tradeFeeBPS) && 0 <= p.protocolShareBPS <= BPS_DENOMINATOR
  {
  }

  lemma Products(p: Parameters, s: State)
    requires WellFormed(p) && OnCurve(p, s)
    ensures p.product <= s.virtualETH * s.virtualToken == s.virtualToken * s.virtualETH
    ensures p.product == p.initialVirtualETH * p.initialVirtualToken && p.initialVirtualETH > 0
  {
  }

  lemma IdealFillFees(p: Parameters, s: State, gross: int)
    requires WellFormed(p) && OnCurve(p, s) && gross > 0
    ensures
      var f := IdealFill(p, s, gross);
      && f.ethGrossUsed + f.refund == gross
      && f.ethGrossUsed == (f.newVirtualETH - s.virtualETH) + f.protocolFee + f.creatorFee
      && 0 <= f.protocolFee && 0 <= f.creatorFee
      && (Crosses(p, s, gross) ==> f.refund > 0)
      && (!Crosses(p, s, gross) ==> f.refund == 0)
      && (forall g :: 0 <= g < f.ethGrossUsed && Crosses(p, s, gross) ==>
            s.virtualETH + Net(g, p.tradeFeeBPS) < p.finalVirtualETH)
  {
    hide WellFormed, OnCurve, Fee, ProtocolPart, CeilQuotient, LeastGross;
    Bounds(p, s);
    if Crosses(p, s, gross) {
      ClippedFillRefunds(p, s, gross);
    }
    var used := IdealFill(p, s, gross).ethGrossUsed;
    FeeBounds(used, p.tradeFeeBPS);
    ShareOfFee(Fee(used, p.tradeFeeBPS), p.protocolShareBPS);
  }

  lemma IdealFillReserves(p: Parameters, s: State, gross: int)
    requires WellFormed(p) && OnCurve(p, s) && gross > 0 && BuyMovesToken(p, s, gross)
    ensures
      var f := IdealFill(p, s, gross);
      && s.virtualETH < f.newVirtualETH <= p.finalVirtualETH
      && p.finalVirtualToken <= f.newVirtualToken < s.virtualToken
      && (f.graduates <==> f.newVirtualETH == p.finalVirtualETH)
      && (f.graduates <==> f.newVirtualToken == p.finalVirtualToken)
      && p.product <= f.newVirtualETH * f.newVirtualToken
      && f.newVirtualETH * (f.newVirtualToken - 1) < p.product
  {
    hide WellFormed, OnCurve, Fee, ProtocolPart, CeilQuotient, LeastGross;
    Bounds(p, s);
    FeeBounds(gross, p.tradeFeeBPS);
    CandidateToken(p, s, IdealFill(p, s, gross).newVirtualETH);
  }

  lemma ShareOfFee(fee: int, share: int)
    requires fee >= 0 && 0 <= share <= BPS_DENOMINATOR
    ensures 0 <= ProtocolPart(fee, share) <= fee
  {
    MulMonotone(0, fee, share);
    MulMonotone(share, BPS_DENOMINATOR, fee);
    FloorBounds(fee * share, BPS_DENOMINATOR);
  }

  lemma ClippedFillRefunds(p: Parameters, s: State, gross: int)
    requires WellFormed(p) && OnCurve(p, s) && gross > 0 && Crosses(p, s, gross)
    ensures
      var needed := p.finalVirtualETH - s.virtualETH;
      var used := LeastGross(needed, p.tradeFeeBPS);
      && 0 < used < gross
      && Net(used, p.tradeFeeBPS) == needed
      && forall g :: 0 <= g < used ==> Net(g, p.tradeFeeBPS) < needed
  {
    var needed := p.finalVirtualETH - s.virtualETH;
    LeastGrossIsLeast(needed, p.tradeFeeBPS);
    LeastGrossIsLeast(needed + 1, p.tradeFeeBPS);
    assert Net(gross, p.tradeFeeBPS) >= needed + 1;
    assert gross >= LeastGross(needed, p.tradeFeeBPS);
  }

  predicate FeesFit(s: State, protocolFee: int, creatorFee: int) {
    s.protocolFees + protocolFee <= MAX_UINT256 && s.creatorFees + creatorFee <= MAX_UINT256
  }

  function QuoteOfFill(s: State, f: Fill): BuyQuote {
    BuyQuote(f.ethGrossUsed, s.virtualToken - f.newVirtualToken, f.protocolFee, f.creatorFee, f.refund, f.graduates,
             State(if f.graduates then PHASE_GRADUATED else PHASE_CURVE, f.newVirtualETH, f.newVirtualToken,
                   s.protocolFees + f.protocolFee, s.creatorFees + f.creatorFee))
  }

  lemma ClippedFillSucceeds(p: Parameters, s: State, gross: int)
    requires WellFormed(p) && OnCurve(p, s) && gross > 0 && IsUint256(gross) && Crosses(p, s, gross)
    ensures ClippedFill(s, p, gross, p.finalVirtualETH) == Ok(IdealFill(p, s, gross))
  {
    var needed := p.finalVirtualETH - s.virtualETH;
    ClippedFillRefunds(p, s, gross);
    ExactGrossIsLeast(needed, p.tradeFeeBPS);
    SplitSucceeds(LeastGross(needed, p.tradeFeeBPS), p.tradeFeeBPS, p.protocolShareBPS);
    CandidateToken(p, s, p.finalVirtualETH);
  }

  /** The outcome of a buy in the curve phase: the checks that can fail, and the fill. */
  function BuyOutcome(p: Parameters, s: State, supplied: Option<int>): Result<BuyQuote, Error>
    requires WellFormed(p) && OnCurve(p, s)
  {
    if supplied.None? || !IsUint256(supplied.value) then Err(InvalidAmount("suppliedGross"))
    else if supplied.value == 0 then Err(ZeroInput)
    else if s.virtualETH + Net(supplied.value, p.tradeFeeBPS) > MAX_UINT256 then Err(ArithmeticOverflow)
    else if !BuyMovesToken(p, s, supplied.value) then Err(ZeroOutput)
    else
      var fill := IdealFill(p, s, supplied.value);
      if !FeesFit(s, fill.protocolFee, fill.creatorFee) then Err(ArithmeticOverflow)
      else Ok(QuoteOfFill(s, fill))
  }

  /** On every state of the curve phase and for every input, Buy has that outcome: its
      internal-invariant error, divisions by zero and subtraction underflows are
      unreachable, and overflow comes only from the ETH reserve or a fee total. */
  lemma BuyOnCurve(p: Parameters, s: State, supplied: Option<int>)
    requires WellFormed(p) && OnCurve(p, s)
    ensures Buy(s, p, supplied) == BuyOutcome(p, s, supplied)
  {
    hide WellFormed, OnCurve, Net, CeilQuotient, BuyMovesToken, ValidateState, ValidateParameters, IdealFill,
         Lsh, Buy;
    if supplied.Some? && IsUint256(supplied.value) && supplied.value > 0 {
      BuyOfAmount(p, s, supplied.value);
    } else {
      BuyOfNothing(p, s, supplied);
    }
  }

  lemma BuyOfNothing(p: Parameters, s: State, supplied: Option<int>)
    requires WellFormed(p) && OnCurve(p, s)
    requires supplied.None? || !IsUint256(supplied.value) || supplied.value == 0
    ensures Buy(s, p, supplied) == BuyOutcome(p, s, supplied)
  {
    hide WellFormed, OnCurve, ValidateState, ValidateParameters, Lsh, IdealFill, SplitFees, Net;
    ValidOnCurve(p, s);
  }

  lemma CandidateMoves(p: Parameters, s: State, gross: int)
    requires WellFormed(p) && OnCurve(p, s) && gross > 0
    ensures s.virtualETH + Net(gross, p.tradeFeeBPS) > 0
    ensures BuyMovesToken(p, s, gross)
       <==> CeilQuotient(p.product, s.virtualETH + Net(gross, p.tradeFeeBPS)) < s.virtualToken
  {
    hide WellFormed, OnCurve, CeilQuotient, Fee;
    Bounds(p, s);
    FeeBounds(gross, p.tradeFeeBPS);
    CandidateToken(p, s, s.virtualETH + Net(gross, p.tradeFeeBPS));
  }

  lemma FillFacts(p: Parameters, s: State, gross: int)
    requires WellFormed(p) && OnCurve(p, s) && gross > 0 && BuyMovesToken(p, s, gross)
    ensures
      var f := IdealFill(p, s, gross);
      && f.newVirtualToken < s.virtualToken
      && (f.graduates <==> f.newVirtualToken == p.finalVirtualToken)
      && (Crosses(p, s, gross) ==> f.graduates)
      && 0 <= f.protocolFee && 0 <= f.creatorFee
  {
    hide WellFormed, OnCurve, CeilQuotient, Fee, ProtocolPart, LeastGross;
    IdealFillReserves(p, s, gross);
    IdealFillFees(p, s, gross);
  }

  lemma BuyOfAmount(p: Parameters, s: State, gross: int)
    requires WellFormed(p) && OnCurve(p, s) && IsUint256(gross) && gross > 0
    ensures Buy(s, p, Some(gross)) == BuyOutcome(p, s, Some(gross))
  {
    hide WellFormed, OnCurve, Fee, ProtocolPart, CeilQuotient, SplitFees, LeastGross, BuyMovesToken,
         ValidateState, ValidateParameters, ClippedFill, Lsh, IsUint256, ValidFee;
    ValidOnCurve(p, s);
    Bounds(p, s);
    SplitSucceeds(gross, p.tradeFeeBPS, p.protocolShareBPS);
    FinalETHIsCeiling(p);
    CandidateMoves(p, s, gross);
    if BuyMovesToken(p, s, gross) {
      FillFacts(p, s, gross);
      if Crosses(p, s, gross) {
        ClippedFillSucceeds(p, s, gross);
      }
    }
  }

  // ---- selling ---------------------------------------------------------------------

  /** A sale changes the ETH reserve exactly when K <= (E - 1) * (T + tokens). */
  predicate SaleMovesETH(p: Parameters, s: State, tokens: int) {
    p.product <= (s.virtualETH - 1) * (s.virtualToken + tokens)
  }

  lemma SaleMovesMeans(p: Parameters, s: State, tokens: int)
    ensures SaleMovesETH(p, s, tokens) <==> p.product <= (s.virtualToken + tokens) * (s.virtualETH - 1)
  {
  }

  lemma SoldETH(p: Parameters, s: State, tokens: int)
    requires WellFormed(p) && OnCurve(p, s) && 0 < tokens <= p.initialVirtualToken - s.virtualToken
    ensures
      var token := s.virtualToken + tokens;
      var eth := CeilQuotient(p.product, token);
      && p.initialVirtualETH <= eth <= s.virtualETH
      && (eth < s.virtualETH <==> SaleMovesETH(p, s, tokens))
      && p.product <= eth * token
      && (eth - 1) * token < p.product
      && (token == p.initialVirtualToken <==> eth == p.initialVirtualETH)
  {
    hide WellFormed, OnCurve, CeilQuotient, Lsh, SaleMovesETH;
    Bounds(p, s);
    Products(p, s);
    SaleMovesMeans(p, s, tokens);
    var token := s.virtualToken + tokens;
    LeastCeiling(p.product, token);
    CeilingBelow(p.product, s.virtualToken, s.virtualETH, token);
    CeilingFromLaunch(p.initialVirtualETH, p.initialVirtualToken, token);
  }

  lemma CeilingFromLaunch(launchETH: int, launchToken: int, token: int)
    requires launchETH > 0 && 0 < token <= launchToken && launchETH * launchToken > 0
    ensures CeilQuotient(launchETH * launchToken, token) >= launchETH
    ensures CeilQuotient(launchETH * launchToken, token) == launchETH <==> token == launchToken
  {
    MulMonotone(token, launchToken, launchETH - 1);
    CeilIsLeast(launchETH * launchToken, token, launchETH - 1);
    CeilIsLeast(launchETH * launchToken, token, launchETH);
    if token < launchToken {
      MulMonotone(token, launchToken - 1, launchETH);
    }
  }

  /** The quote of a sale, without any check. */
  function IdealSale(p: Parameters, s: State, tokens: int): SellQuote
    requires WellFormed(p) && OnCurve(p, s) && tokens > 0
  {
    var newToken := s.virtualToken + tokens;
    var newETH := CeilQuotient(p.product, newToken);
    var ethGross := s.virtualETH - newETH;
    var fee := Fee(ethGross, p.tradeFeeBPS);
    var protocolFee := ProtocolPart(fee, p.protocolShareBPS);
    SellQuote(ethGross - fee, ethGross, protocolFee, fee - protocolFee,
              State(PHASE_CURVE, newETH, newToken, s.protocolFees + protocolFee, s.creatorFees + fee - protocolFee))
  }

  /** What leaves the reserve is what the seller gets plus the fees, and a sale that
      moves the reserve always pays the seller something. */
  lemma IdealSaleProperties(p: Parameters, s: State, tokens: int)
    requires WellFormed(p) && OnCurve(p, s) && 0 < tokens <= p.initialVirtualToken - s.virtualToken
    ensures
      var q := IdealSale(p, s, tokens);
      && q.ethOut + q.protocolFee + q.creatorFee == q.ethGross == s.virtualETH - q.nextState.virtualETH
      && 0 <= q.ethGross && 0 <= q.protocolFee && 0 <= q.creatorFee
      && (q.ethGross > 0 <==> SaleMovesETH(p, s, tokens))
      && (q.ethGross > 0 <==> q.ethOut > 0)
      && p.initialVirtualETH <= q.nextState.virtualETH
      && p.product <= q.nextState.virtualETH * q.nextState.virtualToken
      && EthTight(p, q.nextState)
      && (q.nextState.virtualToken == p.initialVirtualToken <==> q.nextState.virtualETH == p.initialVirtualETH)
  {
    var q := IdealSale(p, s, tokens);
    SoldETH(p, s, tokens);
    FeeBounds(q.ethGross, p.tradeFeeBPS);
    ShareOfFee(Fee(q.ethGross, p.tradeFeeBPS), p.protocolShareBPS);
  }

  /** The outcome of a sale in the curve phase. */
  function SellOutcome(p: Parameters, s: State, offered: Option<int>): Result<SellQuote, Error>
    requires WellFormed(p) && OnCurve(p, s)
  {
    if offered.None? || !IsUint256(offered.value) then Err(InvalidAmount("tokensIn"))
    else if offered.value == 0 then Err(ZeroInput)
    else if offered.value > p.initialVirtualToken - s.virtualToken then
      Err(Oversell(offered.value, p.initialVirtualToken - s.virtualToken))
    else if !SaleMovesETH(p, s, offered.value) then Err(ZeroOutput)
    else
      var quote := IdealSale(p, s, offered.value);
      if !FeesFit(s, quote.protocolFee, quote.creatorFee) then Err(ArithmeticOverflow)
      else Ok(quote)
  }

  /** On every state of the curve phase and for every input, Sell has that outcome:
      overflow comes only from a fee total, and the zero-output check after fees is
      unreachable. */
  lemma SellOnCurve(p: Parameters, s: State, offered: Option<int>)
    requires WellFormed(p) && OnCurve(p, s)
    ensures Sell(s, p, offered) == SellOutcome(p, s, offered)
  {
    hide WellFormed, OnCurve, Fee, ProtocolPart, CeilQuotient, SplitFees, SaleMovesETH, TokensSold, EthTight,
         ValidateState, ValidateParameters, Lsh, ValidFee;
    ValidOnCurve(p, s);
    Bounds(p, s);
    if offered.Some? && 0 < offered.value <= p.initialVirtualToken - s.virtualToken {
      var q := IdealSale(p, s, offered.value);
      SaleFacts(p, s, offered.value);
      SplitSucceeds(q.ethGross, p.tradeFeeBPS, p.protocolShareBPS);
    }
  }

  lemma SaleFacts(p: Parameters, s: State, tokens: int)
    requires WellFormed(p) && OnCurve(p, s) && 0 < tokens <= p.initialVirtualToken - s.virtualToken
    ensures
      var q := IdealSale(p, s, tokens);
      && 0 <= q.ethGross == s.virtualETH - q.nextState.virtualETH <= s.virtualETH
      && (q.ethGross > 0 <==> SaleMovesETH(p, s, tokens))
      && (q.ethGross > 0 <==> q.ethOut > 0)
      && 0 <= q.protocolFee && 0 <= q.creatorFee
  {
    hide WellFormed, OnCurve, SaleMovesETH, EthTight, IdealSale, Lsh;
    IdealSaleProperties(p, s, tokens);
    ValidOnCurve(p, s);
  }

  /** On the curve no validation fails, and the supply that may come back is known. */
  lemma ValidOnCurve(p: Parameters, s: State)
    requires WellFormed(p) && OnCurve(p, s)
    ensures ValidateState(s).Pass? && ValidateParameters(p).Pass?
    ensures TokensSold(p, s) == Ok(p.initialVirtualToken - s.virtualToken)
    ensures IsUint256(s.virtualETH) && IsUint256(p.initialVirtualToken) && s.phase == PHASE_CURVE
    ensures p.initialVirtualETH > 0
  {
    hide Lsh, FirstInvalid, StateFields, ParameterFields, ValidField;
  }
}
