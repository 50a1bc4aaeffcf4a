/** How trades compose: splitting a trade into pieces, and trading there and back. */
module CurveTrades {
  import opened Wrappers
  import opened Uint256
  import opened Curve
  import opened CurveFees
  import opened CurveQuotes
  import opened CurveRuns

  function Sum(pieces: seq<int>): int {
    if pieces == [] then 0 else pieces[0] + Sum(pieces[1..])
  }

  function TotalFees(s: State): int {
    s.protocolFees + s.creatorFees
  }

  function SellPieces(p: Parameters, s: State, pieces: seq<int>): Result<State, Error>
    decreases |pieces|
  {
    if pieces == [] then Ok(s)
    else
      var q :- Sell(s, p, Some(pieces[0]));
      SellPieces(p, q.nextState, pieces[1..])
  }

  function BuyPieces(p: Parameters, s: State, pieces: seq<int>): Result<State, Error>
    decreases |pieces|
  {
    if pieces == [] then Ok(s)
    else
      var q :- Buy(s, p, Some(pieces[0]));
      BuyPieces(p, q.nextState, pieces[1..])
  }

  // ---- splitting a sale --------------------------------------------------------------

  lemma SaleReserve(p: Parameters, s: State, offered: int)
    requires WellFormed(p) && OnCurve(p, s) && Sell(s, p, Some(offered)).Ok?
    ensures
      var next := Sell(s, p, Some(offered)).value.nextState;
      && offered > 0
      && OnCurve(p, next)
      && next.virtualToken == s.virtualToken + offered
      && next.virtualETH == CeilQuotient(p.product, next.virtualToken)
      && next.virtualETH < s.virtualETH
      && TotalFees(next) == TotalFees(s) + Fee(s.virtualETH - next.virtualETH, p.tradeFeeBPS)
  {
    SellKeepsInvariant(p, s, offered);
    SellOnCurve(p, s, Some(offered));
    IdealSaleProperties(p, s, offered);
  }

  /** The reserves after a sequence of sales depend only on the total sold, and the
      fees fall short of the fee on the total gross by at most one unit per split. */
  lemma {:induction false} SalePiecesAddUp(p: Parameters, s: State, pieces: seq<int>)
    requires WellFormed(p) && OnCurve(p, s) && pieces != []
    requires SellPieces(p, s, pieces).Ok?
    ensures
      var end := SellPieces(p, s, pieces).value;
      && OnCurve(p, end)
      && Sum(pieces) > 0
      && end.virtualToken == s.virtualToken + Sum(pieces)
      && end.virtualETH == CeilQuotient(p.product, end.virtualToken)
      && end.virtualETH < s.virtualETH
      && var fees := TotalFees(end) - TotalFees(s);
         fees <= Fee(s.virtualETH - end.virtualETH, p.tradeFeeBPS) <= fees + |pieces| - 1
    decreases |pieces|
  {
    hide WellFormed, OnCurve, Sell, Fee, CeilQuotient, ValidFee;
    Bounds(p, s);
    var next := Sell(s, p, Some(pieces[0])).value.nextState;
    SaleReserve(p, s, pieces[0]);
    if |pieces| > 1 {
      SalePiecesAddUp(p, next, pieces[1..]);
      var end := SellPieces(p, s, pieces).value;
      FeeOfSum(s.virtualETH - next.virtualETH, next.virtualETH - end.virtualETH, p.tradeFeeBPS);
    } else {
      assert pieces[1..] == [];
    }
  }

  /** A sale within the supply that would move the ETH reserve fails by fee overflow only. */
  lemma SaleFailure(p: Parameters, s: State, offered: int)
    requires WellFormed(p) && OnCurve(p, s) && 0 < offered <= p.initialVirtualToken - s.virtualToken
    requires CeilQuotient(p.product, s.virtualToken + offered) < s.virtualETH && Sell(s, p, Some(offered)).Err?
    ensures Sell(s, p, Some(offered)).error == ArithmeticOverflow
  {
    hide WellFormed, OnCurve, Sell, CeilQuotient, SaleMovesETH, IdealSale;
    ValidOnCurve(p, s);
    Bounds(p, s);
    SellOnCurve(p, s, Some(offered));
    SoldETH(p, s, offered);
  }

  /** Selling in n successful pieces against selling once: the same reserves, and total
      fees lower by at most n - 1. The single sale can only fail by a fee overflow. */
  lemma SplitSale(p: Parameters, s: State, pieces: seq<int>)
    requires WellFormed(p) && OnCurve(p, s) && pieces != []
    requires SellPieces(p, s, pieces).Ok?
    ensures
      var split := SellPieces(p, s, pieces).value;
      var single := Sell(s, p, Some(Sum(pieces)));
      if single.Err? then single.error == ArithmeticOverflow
      else
        var once := single.value.nextState;
        && once.virtualETH == split.virtualETH
        && once.virtualToken == split.virtualToken
        && TotalFees(split) <= TotalFees(once) <= TotalFees(split) + |pieces| - 1
  {
    hide *;
    SalePiecesAddUp(p, s, pieces);
    var split, total := SellPieces(p, s, pieces).value, Sum(pieces);
    Bounds(p, split);
    ValidOnCurve(p, s);
    if Sell(s, p, Some(total)).Ok? {
      SaleReserve(p, s, total);
    } else {
      SaleFailure(p, s, total);
    }
  }

  // ---- splitting a buy ---------------------------------------------------------------

  lemma BuyReserve(p: Parameters, s: State, supplied: int)
    requires WellFormed(p) && OnCurve(p, s) && Buy(s, p, Some(supplied)).Ok?
    ensures supplied > 0
    ensures Buy(s, p, Some(supplied)).value.nextState.virtualETH
         == Min(p.finalVirtualETH, s.virtualETH + Net(supplied, p.tradeFeeBPS)) > 0
    ensures
      var next := Buy(s, p, Some(supplied)).value.nextState;
      next.virtualToken == CeilQuotient(p.product, next.virtualETH)
  {
    BuyOnCurve(p, s, Some(supplied));
    FeeBounds(supplied, p.tradeFeeBPS);
  }

  lemma NetOfSum(a: int, b: int, feeBPS: int)
    requires a >= 0 && b >= 0 && ValidFee(feeBPS)
    ensures Net(a + b, feeBPS) <= Net(a, feeBPS) + Net(b, feeBPS) <= Net(a + b, feeBPS) + 1
  {
    FeeOfSum(a, b, feeBPS);
  }

  lemma WrongPhaseFails(p: Parameters, s: State, supplied: int)
    requires Buy(s, p, Some(supplied)).Ok? && CurveInvariant(p, s)
    ensures OnCurve(p, s)
  {
  }

  lemma {:induction false} BuyPiecesAddUp(p: Parameters, s: State, pieces: seq<int>)
    requires WellFormed(p) && OnCurve(p, s) && pieces != []
    requires BuyPieces(p, s, pieces).Ok?
    ensures
      var end := BuyPieces(p, s, pieces).value;
      && 0 < pieces[0] <= Sum(pieces)
      && Min(p.finalVirtualETH, s.virtualETH + Net(Sum(pieces), p.tradeFeeBPS)) <= end.virtualETH
      && end.virtualETH <= p.finalVirtualETH
      && end.virtualETH <= s.virtualETH + Net(Sum(pieces), p.tradeFeeBPS) + |pieces| - 1
      && end.virtualETH > 0 && end.virtualToken == CeilQuotient(p.product, end.virtualETH)
    decreases |pieces|
  {
    hide WellFormed, OnCurve, Buy, Net, CeilQuotient, TokenTight, EthTight, CurveInvariant, Graduated, ValidFee;
    Bounds(p, s);
    var next := Buy(s, p, Some(pieces[0])).value.nextState;
    BuyReserve(p, s, pieces[0]);
    BuyKeepsInvariant(p, s, pieces[0]);
    if |pieces| > 1 {
      assert pieces[1..] != [] && Buy(next, p, Some(pieces[1..][0])).Ok?;
      WrongPhaseFails(p, next, pieces[1..][0]);
      BuyPiecesAddUp(p, next, pieces[1..]);
      NetOfSum(pieces[0], Sum(pieces[1..]), p.tradeFeeBPS);
    } else {
      assert pieces[1..] == [];
    }
  }

  /** A buy of more than one that succeeds fails only because the amount does not fit 256
      bits, or because the ETH reserve or a fee total would not. */
  lemma LargerBuyFails(p: Parameters, s: State, less: int, more: int)
    requires WellFormed(p) && OnCurve(p, s) && Buy(s, p, Some(less)).Ok? && less <= more
    ensures 0 < less
    ensures Buy(s, p, Some(more)) ==
              if more > MAX_UINT256 then Err(InvalidAmount("suppliedGross"))
              else if BuyOverflows(p, s, more) then Err(ArithmeticOverflow)
              else Ok(QuoteOfFill(s, IdealFill(p, s, more)))
  {
    hide WellFormed, OnCurve, Buy, Lsh, Net, IdealFill;
    Bounds(p, s);
    BuyOnCurve(p, s, Some(less));
    BuyOnCurve(p, s, Some(more));
    LargerBuyMoves(p, s, less, more);
  }

  /** The overflows that a buy may meet: of the ETH reserve before it is clipped, and of
      either fee total. */
  predicate BuyOverflows(p: Parameters, s: State, gross: int)
    requires WellFormed(p) && OnCurve(p, s) && gross > 0
  {
    var fill := IdealFill(p, s, gross);
    s.virtualETH + Net(gross, p.tradeFeeBPS) > MAX_UINT256 || !FeesFit(s, fill.protocolFee, fill.creatorFee)
  }

  lemma LargerBuyMoves(p: Parameters, s: State, less: int, more: int)
    requires WellFormed(p) && OnCurve(p, s) && 0 < less <= more && BuyMovesToken(p, s, less)
    ensures BuyMovesToken(p, s, more)
  {
    hide WellFormed, OnCurve, Net, Lsh;
    Bounds(p, s);
    NetMonotone(less, more, p.tradeFeeBPS);
    MulMonotone(s.virtualETH + Net(less, p.tradeFeeBPS), s.virtualETH + Net(more, p.tradeFeeBPS), s.virtualToken - 1);
  }

  /** Buying in n successful pieces against buying once: the split ends with an ETH
      reserve at most n - 1 higher, and never lower, whether or not the single buy is
      clipped, so it never leaves more tokens on the curve. The single buy fails exactly
      when the sum does not fit 256 bits or the ETH reserve or a fee total overflows. */
  lemma SplitBuy(p: Parameters, s: State, pieces: seq<int>)
    requires WellFormed(p) && OnCurve(p, s) && pieces != []
    requires BuyPieces(p, s, pieces).Ok?
    ensures
      var split := BuyPieces(p, s, pieces).value;
      var single := Buy(s, p, Some(Sum(pieces)));
      && Sum(pieces) > 0
      && (single == Err(InvalidAmount("suppliedGross")) <==> Sum(pieces) > MAX_UINT256)
      && (single == Err(ArithmeticOverflow) <==> Sum(pieces) <= MAX_UINT256 && BuyOverflows(p, s, Sum(pieces)))
      && (single.Err? ==> single.error in {InvalidAmount("suppliedGross"), ArithmeticOverflow})
      && (single.Ok? ==>
            var once := single.value.nextState;
            && once.virtualETH <= split.virtualETH <= once.virtualETH + |pieces| - 1
            && split.virtualToken <= once.virtualToken)
  {
    hide BuyPieces, Buy, Sum, Net, CeilQuotient, WellFormed, OnCurve, IsUint256, ValidFee, CurveInvariant, BuyOverflows,
         IdealFill, QuoteOfFill, Lsh;
    Bounds(p, s);
    BuyPiecesAddUp(p, s, pieces);
    FirstPieceSucceeds(p, s, pieces);
    LargerBuyFails(p, s, pieces[0], Sum(pieces));
    if Buy(s, p, Some(Sum(pieces))).Ok? {
      BuyReserve(p, s, Sum(pieces));
      CeilingAntitone(p.product, Buy(s, p, Some(Sum(pieces))).value.nextState.virtualETH,
                      BuyPieces(p, s, pieces).value.virtualETH);
    }
  }

  lemma FirstPieceSucceeds(p: Parameters, s: State, pieces: seq<int>)
    requires pieces != [] && BuyPieces(p, s, pieces).Ok?
    ensures Buy(s, p, Some(pieces[0])).Ok?
  {
  }

  // ---- there and back ----------------------------------------------------------------

  lemma NetAtMostGross(gross: int, feeBPS: int)
    requires gross >= 0 && ValidFee(feeBPS)
    ensures Net(gross, feeBPS) <= gross
  {
    FeeBounds(gross, feeBPS);
  }

  lemma BuyGraduatesAtFinal(p: Parameters, s: State, supplied: int)
    requires WellFormed(p) && OnCurve(p, s) && Buy(s, p, Some(supplied)).Ok?
    ensures
      var buy := Buy(s, p, Some(supplied)).value;
      !buy.graduates ==> OnCurve(p, buy.nextState) && buy.nextState.virtualETH < p.finalVirtualETH
  {
    hide WellFormed, Buy, EthTight, TokenTight;
    BuyKeepsInvariant(p, s, supplied);
  }

  /** A buy that does not graduate, then the sale of its whole output, pays at most what
      entered the reserve plus the ETH slack of the state bought from. */
  lemma BuyThenSell(p: Parameters, s: State, supplied: int)
    requires WellFormed(p) && OnCurve(p, s)
    requires Buy(s, p, Some(supplied)).Ok? && !Buy(s, p, Some(supplied)).value.graduates
    requires
      var buy := Buy(s, p, Some(supplied)).value;
      Sell(buy.nextState, p, Some(buy.tokensOut)).Ok?
    ensures
      var buy := Buy(s, p, Some(supplied)).value;
      var sale := Sell(buy.nextState, p, Some(buy.tokensOut)).value;
      var effective := buy.nextState.virtualETH - s.virtualETH;
      && effective == Net(supplied, p.tradeFeeBPS)
      && sale.ethGross == effective + EthSlack(p, s)
      && sale.ethOut <= effective + EthSlack(p, s)
      && (EthTight(p, s) ==> sale.ethOut <= effective <= supplied)
      && sale.nextState.virtualToken == s.virtualToken
  {
    hide WellFormed, OnCurve, Buy, Sell, Net, Fee, CeilQuotient, EthTight, TokenTight, CurveInvariant, Graduated,
         ValidFee;
    var buy := Buy(s, p, Some(supplied)).value;
    Bounds(p, s);
    BuyKeepsInvariant(p, s, supplied);
    BuyReserve(p, s, supplied);
    BuyGraduatesAtFinal(p, s, supplied);
    NetAtMostGross(supplied, p.tradeFeeBPS);
    SellKeepsInvariant(p, buy.nextState, buy.tokensOut);
    SaleReserve(p, buy.nextState, buy.tokensOut);
    Products(p, s);
    TightIsZeroSlack(p, s);
  }

  /** A sale, then a buy with no more than its proceeds, brings back at most the tokens
      sold plus the token slack of the state sold from. */
  lemma SellThenBuy(p: Parameters, s: State, offered: int, supplied: int)
    requires WellFormed(p) && OnCurve(p, s)
    requires Sell(s, p, Some(offered)).Ok? && supplied <= Sell(s, p, Some(offered)).value.ethOut
    requires Buy(Sell(s, p, Some(offered)).value.nextState, p, Some(supplied)).Ok?
    ensures
      var sale := Sell(s, p, Some(offered)).value;
      var buy := Buy(sale.nextState, p, Some(supplied)).value;
      && buy.tokensOut <= offered + TokenSlack(p, s)
      && (TokenTight(p, s) ==> buy.tokensOut <= offered)
      && buy.nextState.virtualETH <= s.virtualETH
  {
    var sale := Sell(s, p, Some(offered)).value;
    var next := sale.nextState;
    SellKeepsInvariant(p, s, offered);
    SellOnCurve(p, s, Some(offered));
    IdealSaleProperties(p, s, offered);
    BuyReserve(p, next, supplied);
    FeeBounds(supplied, p.tradeFeeBPS);
    BuyOnCurve(p, next, Some(supplied));
    var buy := Buy(next, p, Some(supplied)).value;
    assert buy.nextState.virtualToken == CeilQuotient(p.product, buy.nextState.virtualETH);
    CeilingAntitone(p.product, buy.nextState.virtualETH, s.virtualETH);
    TightIsZeroSlack(p, s);
  }

  lemma CeilingAntitone(product: int, low: int, high: int)
    requires product > 0 && 0 < low <= high
    ensures CeilQuotient(product, high) <= CeilQuotient(product, low)
  {
    var token := CeilQuotient(product, low);
    CeilNonNegative(product, low);
    CeilIsLeast(product, low, token);
    MulMonotone(low, high, token);
    CeilIsLeast(product, high, token);
  }

  /** Where the slack is zero: at launch, after any sale for ETH, after any buy for
      tokens. So a round trip that starts at launch or after a sale never profits. */
  lemma ZeroSlackStates(p: Parameters, trades: seq<Trade>)
    requires WellFormed(p) && Run(p, Opening(p), trades).Ok?
    requires Run(p, Opening(p), trades).value.state.phase == PHASE_CURVE
    ensures
      var s := Run(p, Opening(p), trades).value.state;
      && s.virtualToken > 0 && s.virtualETH > 0
      && (trades == [] || trades[|trades| - 1].SellTrade? ==> EthSlack(p, s) == 0)
      && (trades == [] || trades[|trades| - 1].BuyTrade? ==> TokenSlack(p, s) == 0)
  {
    LaunchInvariant(p);
    RunKeepsInvariant(p, Opening(p), trades);
    var s := Run(p, Opening(p), trades).value.state;
    TightIsZeroSlack(p, s);
    if trades != [] {
      LastTradeTightens(p, Opening(p), trades);
    }
  }

  lemma {:induction false} LastTradeTightens(p: Parameters, b: Book, trades: seq<Trade>)
    requires WellFormed(p) && CurveInvariant(p, b.state) && Conserved(p, b) && trades != []
    requires Run(p, b, trades).Ok?
    ensures trades[|trades| - 1].SellTrade? ==> EthTight(p, Run(p, b, trades).value.state)
    ensures trades[|trades| - 1].BuyTrade? ==> TokenTight(p, Run(p, b, trades).value.state)
    decreases |trades|
  {
    var next := Execute(p, b, trades[0]).value;
    ExecuteKeepsInvariant(p, b, trades[0]);
    if |trades| > 1 {
      assert trades[|trades| - 1] == trades[1..][|trades| - 2];
      LastTradeTightens(p, next, trades[1..]);
    } else {
      assert trades[1..] == [];
      match trades[0] {
        case BuyTrade(supplied) => BuyKeepsInvariant(p, b.state, supplied);
        case SellTrade(offered) => SellKeepsInvariant(p, b.state, offered);
      }
    }
  }
}
