/** Witnesses that the assumptions of the curve results are met: the published parameters
    and states (contracts/vectors/v1/curve-v1.json), and one published quote of each kind. */
module CurveVectors {
  import opened Wrappers
  import opened Uint256
  import opened Curve
  import opened CurveQuotes
  import opened CurveRuns

  const VECTOR: Parameters := Parameters(
    1_000_000_000_000_000_000_000_000_000, 800_000_000_000_000_000_000_000_000,
    200_000_000_000_000_000_000_000_000, 4_200_000_000_000_000_000,
    1_400_000_000_000_000_000, 1_066_666_666_666_666_666_666_666_667, 100, 5000,
    1_400_000_000_000_000_000 * 1_066_666_666_666_666_666_666_666_667,
    266_666_666_666_666_666_666_666_667, 5_600_000_000_000_000_000)

  lemma VectorsFit()
    ensures MAX_UINT256 > 1_000_000_000_000_000_000_000_000_000_000_000_000_000_000_000_000_000_000
  {
    MaxUint256IsTwoTo256MinusOne();
  }

  /** The parameters are accepted, and the launch state is on the curve. */
  lemma VectorParameters()
    ensures WellFormed(VECTOR) && OnCurve(VECTOR, Launch(VECTOR))
    ensures VECTOR.product == 1_493_333_333_333_333_333_333_333_333_800_000_000_000_000_000
  {
    VectorsFit();
  }

  /** A published state in mid-curve. */
  const MID_CURVE: State :=
    State(PHASE_CURVE, 2_390_000_000_000_000_000, 624_825_662_482_566_248_256_624_826,
          5_000_000_000_000_000, 5_000_000_000_000_000)

  lemma MidCurveState()
    ensures OnCurve(VECTOR, MID_CURVE)
  {
    VectorsFit();
  }

  /** A buy that graduates the curve and is refunded the rest. */
  lemma BuyFinalRefundAndGraduation()
    ensures
      var s := Launch(VECTOR);
      Buy(s, VECTOR, Some(10_000_000_000_000_000_000))
        == Ok(BuyQuote(4_242_424_242_424_242_424, 800_000_000_000_000_000_000_000_000,
          21_212_121_212_121_212, 21_212_121_212_121_212,
          5_757_575_757_575_757_576, true,
          State(PHASE_GRADUATED, 5_600_000_000_000_000_000, 266_666_666_666_666_666_666_666_667,
            21_212_121_212_121_212, 21_212_121_212_121_212)))
  {
    hide Lsh, Buy, WellFormed, OnCurve;
    VectorsFit();
    VectorParameters();
    BuyOnCurve(VECTOR, Launch(VECTOR), Some(10_000_000_000_000_000_000));
  }

  /** A sale in mid-curve. */
  lemma SellNormal()
    ensures
      var s := MID_CURVE;
      Sell(s, VECTOR, Some(220_920_502_092_050_209_205_020_920))
        == Ok(SellQuote(618_057_783_641_160_950, 624_300_791_556_728_232,
          3_121_503_957_783_641, 3_121_503_957_783_641,
          State(PHASE_CURVE, 1_765_699_208_443_271_768, 845_746_164_574_616_457_461_645_746,
            8_121_503_957_783_641, 8_121_503_957_783_641)))
  {
    hide Lsh, Sell, WellFormed, OnCurve;
    VectorsFit();
    VectorParameters();
    MidCurveState();
    SellOnCurve(VECTOR, MID_CURVE, Some(220_920_502_092_050_209_205_020_920));
  }
}
