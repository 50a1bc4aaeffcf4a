/** Whole runs of successful trades from the launch state: safety, exact graduation
    and conservation. */
module CurveRuns {
  import opened Wrappers
  import opened Uint256
  import opened Curve
  import opened CurveQuotes

  datatype Trade = BuyTrade(supplied: int) | SellTrade(offered: int)

  /** A state together with what all trades so far moved in and out. */
  datatype Book = Book(state: State, ethUsed: int, ethPaid: int, tokensBought: int, tokensReturned: int)

  function Launch(p: Parameters): State {
    State(PHASE_CURVE, p.initialVirtualETH, p.initialVirtualToken, 0, 0)
  }

  function Opening(p: Parameters): Book {
    Book(Launch(p), 0, 0, 0, 0)
  }

  function Execute(p: Parameters, b: Book, trade: Trade): Result<Book, Error> {
    match trade
    case BuyTrade(supplied) =>
      var q :- Buy(b.state, p, Some(supplied));
      Ok(b.(state := q.nextState, ethUsed := b.ethUsed + q.ethGrossUsed, tokensBought := b.tokensBought + q.tokensOut))
    case SellTrade(offered) =>
      var q :- Sell(b.state, p, Some(offered));
      Ok(b.(state := q.nextState, ethPaid := b.ethPaid + q.ethOut, tokensReturned := b.tokensReturned + offered))
  }

  /** The book after a run, or the error of the first trade that fails. */
  function Run(p: Parameters, b: Book, trades: seq<Trade>): Result<Book, Error>
    decreases |trades|
  {
    if trades == [] then Ok(b)
    else
      var next :- Execute(p, b, trades[0]);
      Run(p, next, trades[1..])
  }

  // ---- the invariant of a run --------------------------------------------------------

  /** ETH and tokens are conserved: what went in and did not come out is in the
      reserve or in the fee totals, and every token bought is returned or still out. */
  predicate Conserved(p: Parameters, b: Book) {
    && b.ethUsed - b.ethPaid
         == (b.state.virtualETH - p.initialVirtualETH) + b.state.protocolFees + b.state.creatorFees
    && b.tokensBought - b.tokensReturned == p.initialVirtualToken - b.state.virtualToken
  }

  lemma BuyKeepsInvariant(p: Parameters, s: State, supplied: int)
    requires WellFormed(p) && OnCurve(p, s) && Buy(s, p, Some(supplied)).Ok?
    ensures
      var q := Buy(s, p, Some(supplied)).value;
      && CurveInvariant(p, q.nextState)
      && TokenTight(p, q.nextState)
      && q.graduates == Graduated(p, q.nextState)
      && q.ethGrossUsed == (q.nextState.virtualETH - s.virtualETH) + q.protocolFee + q.creatorFee
      && q.nextState.protocolFees == s.protocolFees + q.protocolFee
      && q.nextState.creatorFees == s.creatorFees + q.creatorFee
      && q.tokensOut == s.virtualToken - q.nextState.virtualToken > 0
      && s.virtualETH < q.nextState.virtualETH
      && 0 <= q.protocolFee && 0 <= q.creatorFee
      && q.nextState.virtualToken > 0
  {
    BuyOnCurve(p, s, Some(supplied));
    IdealFillProperties(p, s, supplied);
  }

  lemma SellKeepsInvariant(p: Parameters, s: State, offered: int)
    requires WellFormed(p) && OnCurve(p, s) && Sell(s, p, Some(offered)).Ok?
    ensures
      var q := Sell(s, p, Some(offered)).value;
      && CurveInvariant(p, q.nextState)
      && OnCurve(p, q.nextState)
      && EthTight(p, q.nextState)
      && q.ethOut == (s.virtualETH - q.nextState.virtualETH) - q.protocolFee - q.creatorFee
      && q.nextState.protocolFees == s.protocolFees + q.protocolFee
      && q.nextState.creatorFees == s.creatorFees + q.creatorFee
      && offered == q.nextState.virtualToken - s.virtualToken > 0
      && q.ethGross == s.virtualETH - q.nextState.virtualETH > 0
      && 0 <= q.protocolFee && 0 <= q.creatorFee
  {
    SellOnCurve(p, s, Some(offered));
    IdealSaleProperties(p, s, offered);
  }

  lemma LaunchInvariant(p: Parameters)
    requires WellFormed(p)
    ensures CurveInvariant(p, Launch(p)) && OnCurve(p, Launch(p))
    ensures EthTight(p, Launch(p)) && TokenTight(p, Launch(p))
    ensures Conserved(p, Opening(p))
  {
    LaunchIsTight(p);
    hide Lsh, EthTight, TokenTight;
  }

  lemma LaunchIsTight(p: Parameters)
    requires WellFormed(p)
    ensures EthTight(p, Launch(p)) && TokenTight(p, Launch(p))
  {
    hide WellFormed, Lsh;
    LaunchProduct(p);
    OneLess(p.initialVirtualETH, p.initialVirtualToken);
  }

  lemma LaunchProduct(p: Parameters)
    requires WellFormed(p)
    ensures p.product == p.initialVirtualETH * p.initialVirtualToken
    ensures p.initialVirtualETH > 0 && p.initialVirtualToken > 0
  {
  }

  lemma OneLess(a: int, b: int)
    ensures (a - 1) * b == a * b - b && a * (b - 1) == a * b - a
  {
  }

  lemma ExecuteKeepsInvariant(p: Parameters, b: Book, trade: Trade)
    requires WellFormed(p) && CurveInvariant(p, b.state) && Conserved(p, b)
    requires Execute(p, b, trade).Ok?
    ensures CurveInvariant(p, Execute(p, b, trade).value.state)
    ensures Conserved(p, Execute(p, b, trade).value)
  {
    match trade {
      case BuyTrade(supplied) => BuyKeepsInvariant(p, b.state, supplied);
      case SellTrade(offered) => SellKeepsInvariant(p, b.state, offered);
    }
  }

  lemma {:induction false} RunKeepsInvariant(p: Parameters, b: Book, trades: seq<Trade>)
    requires WellFormed(p) && CurveInvariant(p, b.state) && Conserved(p, b)
    requires Run(p, b, trades).Ok?
    ensures CurveInvariant(p, Run(p, b, trades).value.state)
    ensures Conserved(p, Run(p, b, trades).value)
    decreases |trades|
  {
    if trades != [] {
      ExecuteKeepsInvariant(p, b, trades[0]);
      RunKeepsInvariant(p, Execute(p, b, trades[0]).value, trades[1..]);
    }
  }

  // ---- main results ------------------------------------------------------------------

  /** Every reachable state respects the rounded product and the reserve bounds, and
      is graduated exactly when its reserves are the final ones; then the curve has
      collected exactly graduationETH and sold exactly curveTokens. */
  lemma ReachableStates(p: Parameters, trades: seq<Trade>)
    requires WellFormed(p) && Run(p, Opening(p), trades).Ok?
    ensures
      var s := Run(p, Opening(p), trades).value.state;
      && s.virtualETH * s.virtualToken >= p.product
      && s.phase in {PHASE_CURVE, PHASE_GRADUATED}
      && (s.phase == PHASE_CURVE ==>
            && p.initialVirtualETH <= s.virtualETH < p.finalVirtualETH
            && p.finalVirtualToken < s.virtualToken <= p.initialVirtualToken)
      && (s.phase == PHASE_GRADUATED <==> s.virtualETH == p.finalVirtualETH)
      && (s.phase == PHASE_GRADUATED <==> s.virtualToken == p.finalVirtualToken)
      && RealCurveETH(p, s) == Ok(s.virtualETH - p.initialVirtualETH)
      && TokensSold(p, s) == Ok(p.initialVirtualToken - s.virtualToken)
      && (s.phase == PHASE_GRADUATED <==> RealCurveETH(p, s) == Ok(p.graduationETH))
      && (s.phase == PHASE_GRADUATED <==> TokensSold(p, s) == Ok(p.curveTokens))
  {
    hide Run, WellFormed, CurveInvariant, RealCurveETH, TokensSold, Conserved;
    LaunchInvariant(p);
    RunKeepsInvariant(p, Opening(p), trades);
    InvariantMeaning(p, Run(p, Opening(p), trades).value.state);
  }

  lemma InvariantMeaning(p: Parameters, s: State)
    requires WellFormed(p) && CurveInvariant(p, s)
    ensures s.virtualETH * s.virtualToken >= p.product && s.phase in {PHASE_CURVE, PHASE_GRADUATED}
    ensures s.phase == PHASE_CURVE ==>
              && p.initialVirtualETH <= s.virtualETH < p.finalVirtualETH
              && p.finalVirtualToken < s.virtualToken <= p.initialVirtualToken
    ensures s.phase == PHASE_GRADUATED ==> s.virtualETH == p.finalVirtualETH && s.virtualToken == p.finalVirtualToken
    ensures p.finalVirtualETH - p.initialVirtualETH == p.graduationETH
    ensures p.initialVirtualToken - p.finalVirtualToken == p.curveTokens
    ensures RealCurveETH(p, s) == Ok(s.virtualETH - p.initialVirtualETH)
    ensures TokensSold(p, s) == Ok(p.initialVirtualToken - s.virtualToken)
  {
    hide EthTight, TokenTight, Lsh, FirstInvalid, StateFields, ParameterFields, ValidField;
  }

  /** Conservation over any run, no trader profit in total, and the launch reserves
      exactly when every bought token has been returned. */
  lemma RunConserves(p: Parameters, trades: seq<Trade>)
    requires WellFormed(p) && Run(p, Opening(p), trades).Ok?
    ensures
      var b := Run(p, Opening(p), trades).value;
      && RealCurveETH(p, b.state).Ok? && TokensSold(p, b.state).Ok?
      && b.ethUsed - b.ethPaid == RealCurveETH(p, b.state).value + b.state.protocolFees + b.state.creatorFees
      && b.tokensBought - b.tokensReturned == TokensSold(p, b.state).value
      && b.ethPaid <= b.ethUsed
      && (b.tokensBought == b.tokensReturned <==>
            b.state.virtualETH == p.initialVirtualETH && b.state.virtualToken == p.initialVirtualToken)
  {
    hide Run, WellFormed, CurveInvariant, RealCurveETH, TokensSold;
    LaunchInvariant(p);
    RunKeepsInvariant(p, Opening(p), trades);
    var s := Run(p, Opening(p), trades).value.state;
    InvariantMeaning(p, s);
    LaunchReserves(p, s);
  }

  /** The reserves are the launch ones on both sides or on neither. */
  lemma LaunchReserves(p: Parameters, s: State)
    requires WellFormed(p) && CurveInvariant(p, s)
    ensures s.virtualToken == p.initialVirtualToken ==> s.virtualETH == p.initialVirtualETH
    ensures s.virtualETH >= p.initialVirtualETH && s.protocolFees >= 0 && s.creatorFees >= 0
  {
    hide EthTight, TokenTight, Lsh;
  }

  /** Selling everything back from any reachable curve-phase state with tokens out
      restores exactly the launch reserves; only a fee total can overflow. */
  lemma SellingEverythingBack(p: Parameters, trades: seq<Trade>)
    requires WellFormed(p) && Run(p, Opening(p), trades).Ok?
    requires Run(p, Opening(p), trades).value.state.phase == PHASE_CURVE
    requires Run(p, Opening(p), trades).value.state.virtualToken < p.initialVirtualToken
    ensures
      var s := Run(p, Opening(p), trades).value.state;
      var sold := TokensSold(p, s);
      && sold.Ok?
      && var r := Sell(s, p, Some(sold.value));
         if r.Ok? then
           r.value.nextState.virtualETH == p.initialVirtualETH
           && r.value.nextState.virtualToken == p.initialVirtualToken
         else r.error == ArithmeticOverflow
  {
    hide Run, WellFormed, EthTight, TokenTight, RealCurveETH, TokensSold, Conserved, Sell;
    ReachableStates(p, trades);
    LaunchInvariant(p);
    RunKeepsInvariant(p, Opening(p), trades);
    ReturningAllTokens(p, Run(p, Opening(p), trades).value.state);
  }

  lemma ReturningAllTokens(p: Parameters, s: State)
    requires WellFormed(p) && OnCurve(p, s) && s.virtualToken < p.initialVirtualToken
    ensures
      var r := Sell(s, p, Some(p.initialVirtualToken - s.virtualToken));
      if r.Ok? then
        r.value.nextState.virtualETH == p.initialVirtualETH
        && r.value.nextState.virtualToken == p.initialVirtualToken
      else r.error == ArithmeticOverflow
  {
    var tokens := p.initialVirtualToken - s.virtualToken;
    SellOnCurve(p, s, Some(tokens));
    IdealSaleProperties(p, s, tokens);
    AboveLaunchETH(p, s);
  }

  lemma AboveLaunchETH(p: Parameters, s: State)
    requires WellFormed(p) && OnCurve(p, s) && s.virtualToken < p.initialVirtualToken
    ensures s.virtualETH > p.initialVirtualETH
  {
    hide WellFormed, OnCurve, Lsh;
    Bounds(p, s);
    Products(p, s);
    FewerTokensMoreETH(p.initialVirtualETH, p.initialVirtualToken, s.virtualETH, s.virtualToken);
  }

  lemma FewerTokensMoreETH(launchETH: int, launchToken: int, eth: int, token: int)
    requires launchETH > 0 && 0 < token < launchToken && launchETH * launchToken <= eth * token
    ensures eth > launchETH
  {
    MulMonotone(token, launchToken - 1, launchETH);
    OneLess(launchETH, launchToken);
    if eth <= launchETH {
      MulMonotone(eth, launchETH, token);
    }
  }

  /** In every reachable state and for every input: after graduation both quotes report
      the wrong phase, and before it they have exactly the outcomes BuyOutcome and
      SellOutcome, so nothing else can go wrong. */
  lemma ReachableErrors(p: Parameters, trades: seq<Trade>, amount: Option<int>)
    requires WellFormed(p) && Run(p, Opening(p), trades).Ok?
    ensures
      var s := Run(p, Opening(p), trades).value.state;
      if s.phase == PHASE_GRADUATED then
        && Buy(s, p, amount) == Err(WrongPhase(PHASE_CURVE, PHASE_GRADUATED))
        && Sell(s, p, amount) == Err(WrongPhase(PHASE_CURVE, PHASE_GRADUATED))
      else
        && OnCurve(p, s)
        && Buy(s, p, amount) == BuyOutcome(p, s, amount)
        && Sell(s, p, amount) == SellOutcome(p, s, amount)
  {
    LaunchInvariant(p);
    RunKeepsInvariant(p, Opening(p), trades);
    var s := Run(p, Opening(p), trades).value.state;
    if s.phase == PHASE_CURVE {
      BuyOnCurve(p, s, amount);
      SellOnCurve(p, s, amount);
    }
  }

  /** The quoted price, floor(E * 10^18 / T), never falls on a buy and never rises on a sale. */
  lemma PriceFollowsTrades(p: Parameters, s: State, amount: int)
    requires WellFormed(p) && OnCurve(p, s)
    ensures
      var buy := Buy(s, p, Some(amount));
      buy.Ok? && SpotPriceWad(s).Ok? && SpotPriceWad(buy.value.nextState).Ok? ==>
        SpotPriceWad(s).value <= SpotPriceWad(buy.value.nextState).value
    ensures
      var sale := Sell(s, p, Some(amount));
      sale.Ok? && SpotPriceWad(s).Ok? && SpotPriceWad(sale.value.nextState).Ok? ==>
        SpotPriceWad(sale.value.nextState).value <= SpotPriceWad(s).value
  {
    hide WellFormed, OnCurve, Buy, Sell, CurveInvariant, Graduated, EthTight, TokenTight, ValidateState;
    var buy := Buy(s, p, Some(amount));
    var sale := Sell(s, p, Some(amount));
    Bounds(p, s);
    if buy.Ok? {
      BuyKeepsInvariant(p, s, amount);
      PriceMonotone(s.virtualETH, s.virtualToken, buy.value.nextState.virtualETH, buy.value.nextState.virtualToken);
    }
    if sale.Ok? {
      SellKeepsInvariant(p, s, amount);
      Bounds(p, sale.value.nextState);
      PriceMonotone(sale.value.nextState.virtualETH, sale.value.nextState.virtualToken, s.virtualETH, s.virtualToken);
    }
  }

  lemma PriceMonotone(lowETH: int, highToken: int, highETH: int, lowToken: int)
    requires 0 <= lowETH <= highETH && 0 < lowToken <= highToken
    ensures lowETH * WAD / highToken <= highETH * WAD / lowToken
  {
    var price := lowETH * WAD / highToken;
    FloorBounds(lowETH * WAD, highToken);
    MulMonotone(lowToken, highToken, price);
    FloorIsGreatest(highETH * WAD, lowToken, price);
  }
}
