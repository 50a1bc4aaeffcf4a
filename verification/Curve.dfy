/** The bonding curve of backend/internal/curve/math.go: parameters, states, and the
    buy and sell quotes, with the same checks in the same order. */
module Curve {
  import opened Wrappers
  import opened Uint256

  const BPS_DENOMINATOR: int := 10_000
  const WAD: int := 1_000_000_000_000_000_000

  type Phase = p: int | 0 <= p < 256
  const PHASE_CURVE: Phase := 0
  const PHASE_GRADUATED: Phase := 1

  type Uint16 = x: int | 0 <= x < 0x1_0000

  /** `product` is the field the source calls invariant. */
  datatype Parameters = Parameters(
    totalSupply: int,
    curveTokens: int,
    lpTokens: int,
    graduationETH: int,
    initialVirtualETH: int,
    initialVirtualToken: int,
    tradeFeeBPS: Uint16,
    protocolShareBPS: Uint16,
    product: int,
    finalVirtualToken: int,
    finalVirtualETH: int)

  datatype State = State(phase: Phase, virtualETH: int, virtualToken: int, protocolFees: int, creatorFees: int)

  datatype BuyQuote = BuyQuote(
    ethGrossUsed: int,
    tokensOut: int,
    protocolFee: int,
    creatorFee: int,
    refund: int,
    graduates: bool,
    nextState: State)

  datatype SellQuote = SellQuote(ethOut: int, ethGross: int, protocolFee: int, creatorFee: int, nextState: State)

  // ---- validation ------------------------------------------------------------------

  datatype Field = Field(name: string, value: Option<int>)

  predicate ValidField(field: Field) {
    field.value.Some? && IsUint256(field.value.value)
  }

  /** The error for the first field that is not a uint256. */
  function FirstInvalid(fields: seq<Field>): (r: Outcome<Error>)
    ensures r.Pass? <==> forall i :: 0 <= i < |fields| ==> ValidField(fields[i])
    ensures r.Fail? ==> exists i :: 0 <= i < |fields| && !ValidField(fields[i])
                                    && r.error == InvalidAmount(fields[i].name)
                                    && forall j :: 0 <= j < i ==> ValidField(fields[j])
  {
    if fields == [] then Pass
    else if !ValidField(fields[0]) then Fail(InvalidAmount(fields[0].name))
    else
      var rest := FirstInvalid(fields[1..]);
      assert forall i :: 1 <= i < |fields| ==> fields[i] == fields[1..][i - 1];
      rest
  }

  /** The loop shared by validateState and validateParameters. */
  method ValidateFields(fields: seq<Field>) returns (r: Outcome<Error>)
    ensures r == FirstInvalid(fields)
  {
    for i := 0 to |fields|
      invariant FirstInvalid(fields) == FirstInvalid(fields[i..])
    {
      assert fields[i..][0] == fields[i] && fields[i..][1..] == fields[i + 1..];
      var copy := CopyUint256(fields[i].name, fields[i].value);
      if copy.Err? {
        return Fail(copy.error);
      }
    }
    return Pass;
  }

  function ParameterFields(p: Parameters): seq<Field> {
    [Field("totalSupply", Some(p.totalSupply)),
     Field("curveTokens", Some(p.curveTokens)),
     Field("lpTokens", Some(p.lpTokens)),
     Field("graduationETH", Some(p.graduationETH)),
     Field("initialVirtualETH", Some(p.initialVirtualETH)),
     Field("initialVirtualToken", Some(p.initialVirtualToken)),
     Field("invariant", Some(p.product)),
     Field("finalVirtualToken", Some(p.finalVirtualToken)),
     Field("finalVirtualETH", Some(p.finalVirtualETH))]
  }

  function StateFields(s: State): seq<Field> {
    [Field("virtualETH", Some(s.virtualETH)),
     Field("virtualToken", Some(s.virtualToken)),
     Field("protocolFees", Some(s.protocolFees)),
     Field("creatorFees", Some(s.creatorFees))]
  }

  predicate Uint256State(s: State) {
    IsUint256(s.virtualETH) && IsUint256(s.virtualToken) && IsUint256(s.protocolFees) && IsUint256(s.creatorFees)
  }

  predicate Uint256Parameters(p: Parameters) {
    && IsUint256(p.totalSupply) && IsUint256(p.curveTokens) && IsUint256(p.lpTokens)
    && IsUint256(p.graduationETH) && IsUint256(p.initialVirtualETH) && IsUint256(p.initialVirtualToken)
    && IsUint256(p.product) && IsUint256(p.finalVirtualToken) && IsUint256(p.finalVirtualETH)
  }

  function ValidateState(s: State): (r: Outcome<Error>)
    ensures r.Pass? <==> Uint256State(s)
  {
    assert forall i :: 0 <= i < 4 ==> StateFields(s)[i] in StateFields(s);
    assert (forall i :: 0 <= i < |StateFields(s)| ==> ValidField(StateFields(s)[i])) <==> Uint256State(s) by {
      var f := StateFields(s);
      if forall i :: 0 <= i < |f| ==> ValidField(f[i]) {
        assert ValidField(f[0]) && ValidField(f[1]) && ValidField(f[2]) && ValidField(f[3]);
      }
    }
    FirstInvalid(StateFields(s))
  }

  function ValidateParameters(p: Parameters): (r: Outcome<Error>)
    ensures r.Pass? <==> Uint256Parameters(p)
  {
    assert (forall i :: 0 <= i < |ParameterFields(p)| ==> ValidField(ParameterFields(p)[i])) <==> Uint256Parameters(p) by {
      var f := ParameterFields(p);
      if forall i :: 0 <= i < |f| ==> ValidField(f[i]) {
        assert ValidField(f[0]) && ValidField(f[1]) && ValidField(f[2]) && ValidField(f[3]) && ValidField(f[4]);
        assert ValidField(f[5]) && ValidField(f[6]) && ValidField(f[7]) && ValidField(f[8]);
      }
    }
    FirstInvalid(ParameterFields(p))
  }

  // ---- parameters ------------------------------------------------------------------

  /** What NewParameters does once its six amounts are copied. */
  function BuildParameters(
    totalSupply: int, curveTokens: int, lpTokens: int, graduationETH: int,
    initialVirtualETH: int, initialVirtualToken: int, tradeFeeBPS: Uint16, protocolShareBPS: Uint16)
    : (r: Result<Parameters, Error>)
    requires IsUint256(totalSupply) && IsUint256(curveTokens) && IsUint256(lpTokens)
    requires IsUint256(graduationETH) && IsUint256(initialVirtualETH) && IsUint256(initialVirtualToken)
  {
    var allocatedSupply :- CheckedAdd(curveTokens, lpTokens);
    if totalSupply != allocatedSupply then
      Err(InvalidSupplyAllocation(totalSupply, curveTokens, lpTokens))
    else if lpTokens == 0 || curveTokens <= lpTokens then
      Err(InvalidCurveAllocation(curveTokens, lpTokens))
    else if graduationETH == 0 then
      Err(InvalidGraduationETH)
    else if initialVirtualETH == 0 || initialVirtualToken <= curveTokens then
      Err(InvalidVirtualReserves(initialVirtualETH, initialVirtualToken, curveTokens))
    else if tradeFeeBPS >= BPS_DENOMINATOR then
      Err(InvalidTradeFeeBPS(tradeFeeBPS))
    else if protocolShareBPS > BPS_DENOMINATOR then
      Err(InvalidProtocolShareBPS(protocolShareBPS))
    else
      var product :- CheckedMul(initialVirtualETH, initialVirtualToken);
      var finalVirtualToken :- CheckedSub(initialVirtualToken, curveTokens);
      var finalVirtualETH :- CheckedAdd(initialVirtualETH, graduationETH);
      assert product >= 0 by { MulMonotone(0, initialVirtualETH, initialVirtualToken); }
      var roundTripETH :- CeilDiv(product, finalVirtualToken);
      var roundTripToken :- CeilDiv(product, finalVirtualETH);
      if roundTripETH != finalVirtualETH || roundTripToken != finalVirtualToken then
        Err(InvalidCurveBoundary(product, finalVirtualToken, finalVirtualETH))
      else
        Ok(Parameters(totalSupply, curveTokens, lpTokens, graduationETH, initialVirtualETH, initialVirtualToken,
                      tradeFeeBPS, protocolShareBPS, product, finalVirtualToken, finalVirtualETH))
  }

  /** The arithmetic meaning of a parameter set that NewParameters accepts. The last
      three lines say that (finalVirtualETH, finalVirtualToken) sits on the curve
      rounded up from either side. */
  predicate WellFormed(p: Parameters) {
    && Uint256Parameters(p)
    && p.totalSupply == p.curveTokens + p.lpTokens
    && 0 < p.lpTokens < p.curveTokens
    && 0 < p.graduationETH && 0 < p.initialVirtualETH
    && p.tradeFeeBPS < BPS_DENOMINATOR && p.protocolShareBPS <= BPS_DENOMINATOR
    && 0 < p.product == p.initialVirtualETH * p.initialVirtualToken
    && p.finalVirtualToken == p.initialVirtualToken - p.curveTokens
    && p.finalVirtualToken > 0
    && p.finalVirtualETH == p.initialVirtualETH + p.graduationETH
    && p.product <= p.finalVirtualETH * p.finalVirtualToken
    && (p.finalVirtualETH - 1) * p.finalVirtualToken < p.product
    && p.finalVirtualETH * (p.finalVirtualToken - 1) < p.product
  }

  /** Both boundary checks together are the three boundary inequalities. */
  lemma BoundaryChecks(product: int, token: int, eth: int)
    requires product > 0 && token > 0 && eth > 0
    ensures CeilQuotient(product, token) == eth && CeilQuotient(product, eth) == token
       <==> product <= eth * token && (eth - 1) * token < product && eth * (token - 1) < product
  {
    CeilIsLeast(product, token, eth);
    CeilIsLeast(product, token, eth - 1);
    CeilIsLeast(product, eth, token);
    CeilIsLeast(product, eth, token - 1);
  }

  /** BuildParameters accepts exactly the well-formed parameter sets, and never fails
      on its subtraction or its divisions. */
  lemma BuildParametersAcceptsWellFormed(
    totalSupply: int, curveTokens: int, lpTokens: int, graduationETH: int,
    initialVirtualETH: int, initialVirtualToken: int, fee: Uint16, share: Uint16)
    requires IsUint256(totalSupply) && IsUint256(curveTokens) && IsUint256(lpTokens)
    requires IsUint256(graduationETH) && IsUint256(initialVirtualETH) && IsUint256(initialVirtualToken)
    ensures
      var r := BuildParameters(totalSupply, curveTokens, lpTokens, graduationETH,
                               initialVirtualETH, initialVirtualToken, fee, share);
      var p := Parameters(totalSupply, curveTokens, lpTokens, graduationETH, initialVirtualETH,
                          initialVirtualToken, fee, share, initialVirtualETH * initialVirtualToken,
                          initialVirtualToken - curveTokens, initialVirtualETH + graduationETH);
      && (r.Ok? <==> WellFormed(p))
      && (r.Ok? ==> r.value == p)
      && (r.Err? ==> r.error != DivisionByZero)
  {
    var product := initialVirtualETH * initialVirtualToken;
    if 0 < initialVirtualETH && curveTokens < initialVirtualToken {
      MulMonotone(1, initialVirtualETH, initialVirtualToken);
      BoundaryChecks(product, initialVirtualToken - curveTokens, initialVirtualETH + graduationETH);
    }
  }

  /** The loop that copies the six amounts, stopping at the first invalid one. */
  method CopyFields(inputs: seq<Field>) returns (r: Result<seq<int>, Error>)
    ensures r.Ok? <==> FirstInvalid(inputs).Pass?
    ensures r.Err? ==> FirstInvalid(inputs) == Fail(r.error)
    ensures r.Ok? ==> |r.value| == |inputs|
                      && forall i :: 0 <= i < |inputs| ==> ValidField(inputs[i]) && r.value[i] == inputs[i].value.value
  {
    var values: seq<int> := [];
    for index := 0 to |inputs|
      invariant |values| == index
      invariant forall i :: 0 <= i < index ==> ValidField(inputs[i]) && values[i] == inputs[i].value.value
      invariant FirstInvalid(inputs) == FirstInvalid(inputs[index..])
    {
      assert inputs[index..][0] == inputs[index] && inputs[index..][1..] == inputs[index + 1..];
      var value := CopyUint256(inputs[index].name, inputs[index].value);
      if value.Err? {
        return Err(value.error);
      }
      values := values + [value.value];
    }
    return Ok(values);
  }

  function ParameterInputs(
    totalSupply: Option<int>, curveTokens: Option<int>, lpTokens: Option<int>, graduationETH: Option<int>,
    initialVirtualETH: Option<int>, initialVirtualToken: Option<int>): seq<Field>
  {
    [Field("totalSupply", totalSupply),
     Field("curveTokens", curveTokens),
     Field("lpTokens", lpTokens),
     Field("graduationETH", graduationETH),
     Field("initialVirtualETH", initialVirtualETH),
     Field("initialVirtualToken", initialVirtualToken)]
  }

  method NewParameters(
    totalSupply: Option<int>, curveTokens: Option<int>, lpTokens: Option<int>, graduationETH: Option<int>,
    initialVirtualETH: Option<int>, initialVirtualToken: Option<int>, tradeFeeBPS: Uint16, protocolShareBPS: Uint16)
    returns (r: Result<Parameters, Error>)
    ensures
      var first := FirstInvalid(ParameterInputs(totalSupply, curveTokens, lpTokens, graduationETH,
                                                initialVirtualETH, initialVirtualToken));
      if first.Fail? then r == Err(first.error)
      else
        && totalSupply.Some? && IsUint256(totalSupply.value) && curveTokens.Some? && IsUint256(curveTokens.value)
        && lpTokens.Some? && IsUint256(lpTokens.value) && graduationETH.Some? && IsUint256(graduationETH.value)
        && initialVirtualETH.Some? && IsUint256(initialVirtualETH.value)
        && initialVirtualToken.Some? && IsUint256(initialVirtualToken.value)
        && r == BuildParameters(totalSupply.value, curveTokens.value, lpTokens.value, graduationETH.value,
                                initialVirtualETH.value, initialVirtualToken.value, tradeFeeBPS, protocolShareBPS)
    ensures r.Ok? ==> WellFormed(r.value)
  {
    var inputs := ParameterInputs(totalSupply, curveTokens, lpTokens, graduationETH,
                                  initialVirtualETH, initialVirtualToken);
    var values :- CopyFields(inputs);
    assert ValidField(inputs[0]) && ValidField(inputs[1]) && ValidField(inputs[2]);
    assert ValidField(inputs[3]) && ValidField(inputs[4]) && ValidField(inputs[5]);
    r := BuildParameters(values[0], values[1], values[2], values[3], values[4], values[5],
                         tradeFeeBPS, protocolShareBPS);
    BuildParametersAcceptsWellFormed(values[0], values[1], values[2], values[3], values[4], values[5],
                                     tradeFeeBPS, protocolShareBPS);
  }

  // ---- fees ------------------------------------------------------------------------

  datatype Fees = Fees(total: int, protocolPart: int, creatorPart: int)

  function SplitFees(gross: int, feeBPS: Uint16, protocolShareBPS: Uint16): Result<Fees, Error>
    requires gross >= 0
  {
    if feeBPS >= BPS_DENOMINATOR then Err(InvalidTradeFeeBPS(feeBPS))
    else if protocolShareBPS > BPS_DENOMINATOR then Err(InvalidProtocolShareBPS(protocolShareBPS))
    else
      assert gross * feeBPS >= 0 by { MulMonotone(0, gross, feeBPS); }
      var totalFee :- MulDiv(gross, feeBPS, BPS_DENOMINATOR);
      var protocolFee :- MulDiv(totalFee, protocolShareBPS, BPS_DENOMINATOR);
      var creatorFee :- CheckedSub(totalFee, protocolFee);
      Ok(Fees(totalFee, protocolFee, creatorFee))
  }

  function ExactGrossForNet(net: int, feeBPS: Uint16): (r: Result<int, Error>)
    ensures r.Ok? ==> r.value >= 1
  {
    if net == 0 then Err(ZeroInput)
    else if feeBPS >= BPS_DENOMINATOR then Err(InvalidTradeFeeBPS(feeBPS))
    else
      var netMinusOne :- CheckedSub(net, 1);
      var grossMinusOne :- MulDiv(netMinusOne, BPS_DENOMINATOR, BPS_DENOMINATOR - feeBPS);
      CheckedAdd(grossMinusOne, 1)
  }

  // ---- quotes ----------------------------------------------------------------------

  /** The locals that Buy reassigns in its clip branch. */
  datatype Fill = Fill(ethGrossUsed: int, protocolFee: int, creatorFee: int,
                       newVirtualETH: int, newVirtualToken: int, refund: int, graduates: bool)

  /** The clip branch of Buy: the last fill stops at the final reserves. */
  function ClippedFill(s: State, p: Parameters, gross: int, finalVirtualETH: int): Result<Fill, Error> {
    if s.virtualETH >= finalVirtualETH then Err(InternalInvariant)
    else
      var netNeeded := CheckedSub(finalVirtualETH, s.virtualETH);
      if netNeeded.Err? || netNeeded.value <= 0 then Err(InternalInvariant)
      else
        var ethGrossUsed :- ExactGrossForNet(netNeeded.value, p.tradeFeeBPS);
        var fees :- SplitFees(ethGrossUsed, p.tradeFeeBPS, p.protocolShareBPS);
        var refund :- CheckedSub(gross, ethGrossUsed);
        Ok(Fill(ethGrossUsed, fees.protocolPart, fees.creatorPart, finalVirtualETH, p.finalVirtualToken, refund, true))
  }

  function Buy(s: State, p: Parameters, suppliedGross: Option<int>): Result<BuyQuote, Error> {
    if s.phase != PHASE_CURVE then Err(WrongPhase(PHASE_CURVE, s.phase))
    else
      :- ValidateState(s);
      :- ValidateParameters(p);
      var gross :- CopyUint256("suppliedGross", suppliedGross);
      if gross == 0 then Err(ZeroInput)
      else
        var fees :- SplitFees(gross, p.tradeFeeBPS, p.protocolShareBPS);
        var effectiveETH :- CheckedSub(gross, fees.total);
        var candidateVirtualETH :- CheckedAdd(s.virtualETH, effectiveETH);
        var candidateVirtualToken :- CeilDiv(p.product, candidateVirtualETH);
        var finalVirtualETH :- CeilDiv(p.product, p.finalVirtualToken);
        if candidateVirtualToken >= s.virtualToken then Err(ZeroOutput)
        else
          var fill :-
            if candidateVirtualETH > finalVirtualETH then ClippedFill(s, p, gross, finalVirtualETH)
            else Ok(Fill(gross, fees.protocolPart, fees.creatorPart, candidateVirtualETH, candidateVirtualToken, 0,
                         candidateVirtualToken == p.finalVirtualToken));
          var tokensOut :- CheckedSub(s.virtualToken, fill.newVirtualToken);
          if tokensOut == 0 then Err(ZeroOutput)
          else
            var nextProtocolFees :- CheckedAdd(s.protocolFees, fill.protocolFee);
            var nextCreatorFees :- CheckedAdd(s.creatorFees, fill.creatorFee);
            var nextPhase := if fill.graduates then PHASE_GRADUATED else PHASE_CURVE;
            Ok(BuyQuote(fill.ethGrossUsed, tokensOut, fill.protocolFee, fill.creatorFee, fill.refund, fill.graduates,
                        State(nextPhase, fill.newVirtualETH, fill.newVirtualToken, nextProtocolFees, nextCreatorFees)))
  }

  function TokensSold(p: Parameters, s: State): Result<int, Error> {
    var valid := ValidateParameters(p);
    :- valid;
    :- ValidateState(s);
    CheckedSub(p.initialVirtualToken, s.virtualToken)
  }

  function RealCurveETH(p: Parameters, s: State): Result<int, Error> {
    var valid := ValidateParameters(p);
    :- valid;
    :- ValidateState(s);
    CheckedSub(s.virtualETH, p.initialVirtualETH)
  }

  function SpotPriceWad(s: State): Result<int, Error> {
    var valid := ValidateState(s);
    :- valid;
    MulDiv(s.virtualETH, WAD, s.virtualToken)
  }

  function Sell(s: State, p: Parameters, tokensIn: Option<int>): Result<SellQuote, Error> {
    if s.phase != PHASE_CURVE then Err(WrongPhase(PHASE_CURVE, s.phase))
    else
      :- ValidateState(s);
      :- ValidateParameters(p);
      var tokens :- CopyUint256("tokensIn", tokensIn);
      if tokens == 0 then Err(ZeroInput)
      else
        var soldTokens :- TokensSold(p, s);
        if tokens > soldTokens then Err(Oversell(tokens, soldTokens))
        else
          var newVirtualToken :- CheckedAdd(s.virtualToken, tokens);
          var newVirtualETH :- CeilDiv(p.product, newVirtualToken);
          var ethGross :- CheckedSub(s.virtualETH, newVirtualETH);
          if ethGross == 0 then Err(ZeroOutput)
          else
            var fees :- SplitFees(ethGross, p.tradeFeeBPS, p.protocolShareBPS);
            var ethOut :- CheckedSub(ethGross, fees.total);
            if ethOut == 0 then Err(ZeroOutput)
            else
              var nextProtocolFees :- CheckedAdd(s.protocolFees, fees.protocolPart);
              var nextCreatorFees :- CheckedAdd(s.creatorFees, fees.creatorPart);
              Ok(SellQuote(ethOut, ethGross, fees.protocolPart, fees.creatorPart,
                           State(PHASE_CURVE, newVirtualETH, newVirtualToken, nextProtocolFees, nextCreatorFees)))
  }
}
