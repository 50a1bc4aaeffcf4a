/** The aggregate of one token (backend/internal/stats/calculator.go). A nil big.Int is
    None; instants are nanoseconds. */
module TokenStats {
  import opened Wrappers
  import opened Chain
  import Uint256
  import Curve

  const DAY: int := 86_400_000_000_000
  const DEAD_ADDRESS := Address(0xdEaD)
  const MAX_SAFE_BPS: int := 0x1F_FFFF_FFFF_FFFF
  const MIN_SAFE_BPS: int := -MAX_SAFE_BPS

  datatype Holder = Holder(address: Address, balance: Option<int>)

  datatype Candle = Candle(
    start: int, open: Option<int>, high: Option<int>, low: Option<int>, close: Option<int>, volume: Option<int>,
    trades: int)

  datatype Input = Input(
    token: Address, curve: Address, pair: Address, launchPrice: Option<int>, launchAt: int,
    reserveETH: Option<int>, reserveToken: Option<int>, totalSupply: Option<int>,
    candles: seq<Candle>, holders: seq<Holder>, previousATH: Option<int>, previousATHAt: int)

  datatype Stats = Stats(
    token: Address, spotPrice: int, marketCap: int, fdv: int, liquidity: int, ath: int, volume24H: int,
    athAt: int, priceChange24hBPS: int, holderCount: int)

  /** PriceChangeRangeError, with the value that is out of range. */
  datatype RangeError = OutsideSafeRange(value: int)

  predicate Positive(value: Option<int>) {
    value.Some? && value.value > 0
  }

  function NonNegativeCopy(value: Option<int>): (r: int)
    ensures r >= 0
  {
    if value.None? || value.value < 0 then 0 else value.value
  }

  predicate SupplyExcluded(address: Address, curve: Address) {
    address == ZERO_ADDRESS || address == DEAD_ADDRESS || address == curve
  }

  predicate HolderExcluded(address: Address, curve: Address, pair: Address) {
    SupplyExcluded(address, curve) || address == pair
  }

  /** big.Int.Quo: truncates towards zero, unlike the division of Dafny. */
  function Quo(x: int, y: int): int
    requires y > 0
  {
    if x >= 0 then x / y else -((-x) / y)
  }

  // ---- the specification -----------------------------------------------------------------

  function Total<T>(s: seq<T>, weight: T -> int): int {
    if s == [] then 0 else Total(s[..|s| - 1], weight) + weight(s[|s| - 1])
  }

  function ExcludedBalance(curve: Address): Holder -> int {
    (h: Holder) => if Positive(h.balance) && SupplyExcluded(h.address, curve) then h.balance.value else 0
  }

  function CountedHolder(curve: Address, pair: Address): Holder -> int {
    (h: Holder) => if Positive(h.balance) && !HolderExcluded(h.address, curve, pair) then 1 else 0
  }

  function RecentVolume(cutoff: int): Candle -> int {
    (c: Candle) => if c.start >= cutoff && Positive(c.volume) then c.volume.value else 0
  }

  function SpotPrice(input: Input): int {
    if Positive(input.reserveETH) && Positive(input.reserveToken)
    then input.reserveETH.value * Curve.WAD / input.reserveToken.value else 0
  }

  predicate HasSupply(input: Input) {
    input.totalSupply.Some? && input.totalSupply.value >= 0
  }

  function Circulating(input: Input): int
    requires HasSupply(input)
  {
    input.totalSupply.value - Total(input.holders, ExcludedBalance(input.curve))
  }

  /** The ATH to beat. */
  datatype High = High(value: int, at: int)

  function BaseHigh(input: Input): (r: High)
    ensures r.value >= 0
  {
    if input.previousATH.Some? && input.previousATH.value >= 0 then High(input.previousATH.value, input.previousATHAt)
    else High(NonNegativeCopy(input.launchPrice), input.launchAt)
  }

  /** The highest of the base and the candle highs; when a candle is above the base, its
      time is the earliest start of a candle that reaches it. */
  predicate IsHighest(base: High, candles: seq<Candle>, h: High) {
    && h.value >= base.value
    && (forall c :: c in candles && c.high.Some? ==> c.high.value <= h.value)
    && (h.value == base.value ==> h == base)
    && (h.value > base.value ==> exists c :: c in candles && c.high == Some(h.value) && c.start == h.at)
    && (h.value > base.value ==> forall c :: c in candles && c.high == Some(h.value) ==> h.at <= c.start)
  }

  /** The candle with the latest start among those with a close up to an instant. */
  predicate IsLatest(candles: seq<Candle>, upTo: Option<int>, latest: Option<Candle>) {
    && (latest.None? ==> forall c :: c in candles ==> !Eligible(c, upTo))
    && (latest.Some? ==> latest.value in candles && Eligible(latest.value, upTo))
    && (latest.Some? ==> forall c :: c in candles && Eligible(c, upTo) ==> c.start <= latest.value.start)
  }

  predicate Eligible(c: Candle, upTo: Option<int>) {
    c.close.Some? && (upTo.Some? ==> c.start <= upTo.value)
  }

  /** The change from the baseline to the latest close, or the range error. */
  function PriceChange(baseline: Option<Candle>, latest: Option<Candle>): Result<int, RangeError>
    requires baseline.Some? ==> baseline.value.close.Some?
    requires latest.Some? ==> latest.value.close.Some?
  {
    if baseline.None? || latest.None? || baseline.value.close.value <= 0 then Ok(0)
    else
      var change := Quo((latest.value.close.value - baseline.value.close.value) * 10_000, baseline.value.close.value);
      if change < MIN_SAFE_BPS || change > MAX_SAFE_BPS then Err(OutsideSafeRange(change)) else Ok(change)
  }

  /** The aggregate of an input, given the two candles of the price change. */
  ghost predicate AggregateWith(
    input: Input, now: int, baseline: Option<Candle>, latest: Option<Candle>, r: Result<Stats, RangeError>)
  {
    && IsLatest(input.candles, Some(now - DAY), baseline) && IsLatest(input.candles, None, latest)
    && var change := PriceChange(baseline, latest);
    if change.Err? then r == Err(change.error)
    else
      && r.Ok? && r.value.priceChange24hBPS == change.value
      && IsHighest(BaseHigh(input), input.candles, High(r.value.ath, r.value.athAt))
      && r.value.token == input.token
      && r.value.spotPrice == SpotPrice(input)
      && r.value.fdv == (if HasSupply(input) then SpotPrice(input) * input.totalSupply.value / Curve.WAD else 0)
      && r.value.marketCap == (if HasSupply(input) && Circulating(input) > 0
                               then SpotPrice(input) * Circulating(input) / Curve.WAD else 0)
      && r.value.holderCount == (if HasSupply(input)
                                 then Total(input.holders, CountedHolder(input.curve, input.pair)) else 0)
      && r.value.liquidity == (if Positive(input.reserveETH) then input.reserveETH.value else 0)
      && r.value.volume24H == Total(input.candles, RecentVolume(now - DAY))
  }

  ghost predicate IsAggregate(input: Input, now: int, r: Result<Stats, RangeError>) {
    exists baseline, latest :: AggregateWith(input, now, baseline, latest, r)
  }

  // ---- the computation -------------------------------------------------------------------

  /** The loop over the holders. */
  method SumHolders(holders: seq<Holder>, curve: Address, pair: Address, supply: int)
    returns (circulating: int, count: int)
    ensures circulating == supply - Total(holders, ExcludedBalance(curve))
    ensures count == Total(holders, CountedHolder(curve, pair))
  {
    circulating, count := supply, 0;
    for i := 0 to |holders|
      invariant circulating == supply - Total(holders[..i], ExcludedBalance(curve))
      invariant count == Total(holders[..i], CountedHolder(curve, pair))
    {
      assert holders[..i + 1][..i] == holders[..i];
      var holder := holders[i];
      if !Positive(holder.balance) {
        continue;
      }
      if SupplyExcluded(holder.address, curve) {
        circulating := circulating - holder.balance.value;
      }
      if !HolderExcluded(holder.address, curve, pair) {
        count := count + 1;
      }
    }
    assert holders[..|holders|] == holders;
  }

  /** The loop over the candles, in the order given. */
  method ScanCandles(candles: seq<Candle>, base: High, cutoff: int)
    returns (high: High, volume: int, baseline: Option<Candle>, latest: Option<Candle>)
    requires base.value >= 0
    ensures IsHighest(base, candles, high)
    ensures volume == Total(candles, RecentVolume(cutoff))
    ensures IsLatest(candles, Some(cutoff), baseline) && IsLatest(candles, None, latest)
  {
    hide IsLatest, IsHighest;
    high, volume, baseline, latest := base, 0, None, None;
    NothingScanned(base, cutoff);
    var fromCandle := false;
    for i := 0 to |candles|
      invariant IsHighest(base, candles[..i], high) && high.value >= base.value
      invariant fromCandle <==> high.value > base.value
      invariant volume == Total(candles[..i], RecentVolume(cutoff))
      invariant IsLatest(candles[..i], Some(cutoff), baseline) && IsLatest(candles[..i], None, latest)
    {
      var candle := candles[i];
      assert candles[..i + 1] == candles[..i] + [candle] && candles[..i + 1][..i] == candles[..i];
      ghost var before := high;
      if Positive(candle.high) && (candle.high.value > high.value
                                   || (fromCandle && candle.high.value == high.value && candle.start < high.at)) {
        high := High(candle.high.value, candle.start);
        fromCandle := true;
      }
      HighestExtends(base, candles[..i], before, candle, high);
      LatestExtends(candles[..i], Some(cutoff), baseline, candle);
      LatestExtends(candles[..i], None, latest, candle);
      if candle.start >= cutoff && Positive(candle.volume) {
        volume := volume + candle.volume.value;
      }
      if candle.close.Some? && candle.start <= cutoff && (baseline.None? || candle.start > baseline.value.start) {
        baseline := Some(candle);
      }
      if candle.close.Some? && (latest.None? || candle.start > latest.value.start) {
        latest := Some(candle);
      }
    }
    assert candles[..|candles|] == candles;
  }

  lemma NothingScanned(base: High, cutoff: int)
    ensures IsHighest(base, [], base) && IsLatest([], Some(cutoff), None) && IsLatest([], None, None)
  {
  }

  lemma HighestExtends(base: High, candles: seq<Candle>, before: High, candle: Candle, after: High)
    requires base.value >= 0 && IsHighest(base, candles, before)
    requires after == if Positive(candle.high)
                         && (candle.high.value > before.value
                             || (before.value > base.value && candle.high.value == before.value
                                 && candle.start < before.at))
                      then High(candle.high.value, candle.start) else before
    ensures IsHighest(base, candles + [candle], after) && after.value >= before.value
  {
    if after.value > base.value {
      if after == before {
        var c :| c in candles && c.high == Some(after.value) && c.start == after.at;
        assert c in candles + [candle];
      } else {
        assert candle in candles + [candle];
      }
    }
  }

  lemma LatestExtends(candles: seq<Candle>, upTo: Option<int>, before: Option<Candle>, candle: Candle)
    requires IsLatest(candles, upTo, before)
    ensures
      var after := if Eligible(candle, upTo) && (before.None? || candle.start > before.value.start)
                   then Some(candle) else before;
      IsLatest(candles + [candle], upTo, after)
  {
    assert candle in candles + [candle];
  }

  /** The valuation part: spot price, fully diluted valuation, market cap and holders. */
  method ValueToken(input: Input) returns (spotPrice: int, fdv: int, marketCap: int, holderCount: int)
    ensures spotPrice == SpotPrice(input)
    ensures fdv == if HasSupply(input) then SpotPrice(input) * input.totalSupply.value / Curve.WAD else 0
    ensures marketCap == if HasSupply(input) && Circulating(input) > 0
                         then SpotPrice(input) * Circulating(input) / Curve.WAD else 0
    ensures holderCount == if HasSupply(input) then Total(input.holders, CountedHolder(input.curve, input.pair)) else 0
  {
    hide Total, ExcludedBalance, CountedHolder;
    spotPrice, fdv, marketCap, holderCount := 0, 0, 0, 0;
    if Positive(input.reserveETH) && Positive(input.reserveToken) {
      spotPrice := input.reserveETH.value * Curve.WAD;
      spotPrice := spotPrice / input.reserveToken.value;
    }
    if input.totalSupply.Some? && input.totalSupply.value >= 0 {
      fdv := spotPrice * input.totalSupply.value;
      fdv := fdv / Curve.WAD;
      var circulating;
      circulating, holderCount := SumHolders(input.holders, input.curve, input.pair, input.totalSupply.value);
      if circulating > 0 {
        marketCap := spotPrice * circulating;
        marketCap := marketCap / Curve.WAD;
      }
    }
  }

  /** ComputeTokenStats. */
  method ComputeTokenStats(input: Input, now: int) returns (r: Result<Stats, RangeError>)
    ensures IsAggregate(input, now, r)
  {
    hide Total, IsHighest, ExcludedBalance, CountedHolder, RecentVolume, SpotPrice, Circulating;
    var base := High(NonNegativeCopy(input.launchPrice), input.launchAt);
    if input.previousATH.Some? && input.previousATH.value >= 0 {
      base := High(input.previousATH.value, input.previousATHAt);
    }
    var spotPrice, fdv, marketCap, holderCount := ValueToken(input);
    var liquidity := if Positive(input.reserveETH) then input.reserveETH.value else 0;
    var high, volume, baseline, latest := ScanCandles(input.candles, base, now - DAY);
    var priceChange := 0;
    if baseline.Some? && Positive(baseline.value.close) && latest.Some? {
      var delta := latest.value.close.value - baseline.value.close.value;
      priceChange := Quo(delta * 10_000, baseline.value.close.value);
      if priceChange < MIN_SAFE_BPS || priceChange > MAX_SAFE_BPS {
        r := Err(OutsideSafeRange(priceChange));
        assert AggregateWith(input, now, baseline, latest, r);
        return;
      }
    }
    r := Ok(Stats(input.token, spotPrice, marketCap, fdv, liquidity, high.value, volume, high.at, priceChange,
                  holderCount));
    assert AggregateWith(input, now, baseline, latest, r);
  }

  // ---- order independence ------------------------------------------------------------------

  /** A sum over a sequence depends only on the multiset of its elements. */
  lemma {:induction false} TotalIgnoresOrder<T>(a: seq<T>, b: seq<T>, weight: T -> int)
    requires multiset(a) == multiset(b)
    ensures Total(a, weight) == Total(b, weight)
    decreases |a|
  {
    if a == [] {
      assert |multiset(b)| == 0;
    } else {
      var last := a[|a| - 1];
      assert last in multiset(a);
      assert last in b;
      var j :| 0 <= j < |b| && b[j] == last;
      var rest := b[..j] + b[j + 1..];
      assert a == a[..|a| - 1] + [last];
      assert b == b[..j] + [last] + b[j + 1..];
      assert multiset(a[..|a| - 1]) == multiset(a) - multiset{last};
      assert multiset(rest) == multiset(b) - multiset{last};
      TotalIgnoresOrder(a[..|a| - 1], rest, weight);
      TotalSplits(b[..j], last, b[j + 1..], weight);
    }
  }

  lemma {:induction false} TotalSplits<T>(a: seq<T>, x: T, b: seq<T>, weight: T -> int)
    ensures Total(a + [x] + b, weight) == Total(a + b, weight) + weight(x)
    decreases |b|
  {
    if b == [] {
      assert (a + [x] + b)[..|a|] == a && a + b == a;
    } else {
      var front := b[..|b| - 1];
      TotalSplits(a, x, front, weight);
      assert (a + [x] + b)[..|a + [x] + b| - 1] == a + [x] + front;
      assert (a + b)[..|a + b| - 1] == a + front;
    }
  }

  lemma SameMembers<T>(a: seq<T>, b: seq<T>, x: T)
    requires multiset(a) == multiset(b)
    ensures x in a <==> x in b
  {
    assert x in a <==> x in multiset(a);
    assert x in b <==> x in multiset(b);
  }

  /** The highest value and its time are determined by the candles as a set. */
  lemma HighestIsUnique(base: High, a: seq<Candle>, b: seq<Candle>, h: High, k: High)
    requires IsHighest(base, a, h) && IsHighest(base, b, k)
    requires forall c :: c in a <==> c in b
    ensures h == k
  {
  }

  predicate DistinctStarts(candles: seq<Candle>) {
    forall i, j :: 0 <= i < j < |candles| ==> candles[i].start != candles[j].start
  }

  lemma LatestIsUnique(a: seq<Candle>, b: seq<Candle>, upTo: Option<int>, x: Option<Candle>, y: Option<Candle>)
    requires DistinctStarts(a) && (forall c :: c in a <==> c in b)
    requires IsLatest(a, upTo, x) && IsLatest(b, upTo, y)
    ensures x == y
  {
    if x.Some? && y.Some? {
      assert x.value in a && y.value in a;
    }
  }

  /** The aggregate does not depend on the order of the holders or, when their starts are
      distinct, of the candles. */
  lemma OrderDoesNotMatter(a: Input, b: Input, now: int, r: Result<Stats, RangeError>, q: Result<Stats, RangeError>)
    requires b == a.(candles := b.candles, holders := b.holders)
    requires multiset(a.candles) == multiset(b.candles) && multiset(a.holders) == multiset(b.holders)
    requires DistinctStarts(a.candles)
    requires IsAggregate(a, now, r) && IsAggregate(b, now, q)
    ensures r == q
  {
    hide Total, IsHighest;
    var ba, la :| AggregateWith(a, now, ba, la, r);
    var bb, lb :| AggregateWith(b, now, bb, lb, q);
    forall c ensures c in a.candles <==> c in b.candles {
      SameMembers(a.candles, b.candles, c);
    }
    LatestIsUnique(a.candles, b.candles, Some(now - DAY), ba, bb);
    LatestIsUnique(a.candles, b.candles, None, la, lb);
    TotalIgnoresOrder(a.candles, b.candles, RecentVolume(now - DAY));
    TotalIgnoresOrder(a.holders, b.holders, ExcludedBalance(a.curve));
    TotalIgnoresOrder(a.holders, b.holders, CountedHolder(a.curve, a.pair));
    if r.Ok? && q.Ok? {
      HighestIsUnique(BaseHigh(a), a.candles, b.candles, High(r.value.ath, r.value.athAt),
                      High(q.value.ath, q.value.athAt));
    }
  }

  // ---- the aggregate in plain terms ----------------------------------------------------------

  lemma {:induction false} SameWeights<T>(s: seq<T>, f: T -> int, g: T -> int)
    requires forall x :: f(x) == g(x)
    ensures Total(s, f) == Total(s, g)
  {
    if s != [] {
      SameWeights(s[..|s| - 1], f, g);
    }
  }

  /** The spot price is the reserve ratio in units of 10^-18, and the valuation, the market
      cap and the liquidity follow from it, all rounded down. The zero address, 0xdEaD and the
      curve hold nothing that circulates; they and the pair are no holders. */
  lemma ValuationSpelledOut(input: Input, now: int, r: Result<Stats, RangeError>)
    requires IsAggregate(input, now, r) && r.Ok?
    ensures
      if input.reserveETH.Some? && input.reserveETH.value > 0 && input.reserveToken.Some? && input.reserveToken.value > 0
      then r.value.spotPrice * input.reserveToken.value <= input.reserveETH.value * 1_000_000_000_000_000_000
             < (r.value.spotPrice + 1) * input.reserveToken.value
      else r.value.spotPrice == 0
    ensures r.value.liquidity ==
              if input.reserveETH.Some? && input.reserveETH.value > 0 then input.reserveETH.value else 0
    ensures
      if input.totalSupply.Some? && input.totalSupply.value >= 0 then
        var supply, held := input.totalSupply.value,
          Total(input.holders, (h: Holder) =>
            if h.balance.Some? && h.balance.value > 0
               && (h.address == Address(0) || h.address == Address(0xdEaD) || h.address == input.curve)
            then h.balance.value else 0);
        && IsFloor(r.value.spotPrice * supply, r.value.fdv)
        && (if supply - held > 0 then IsFloor(r.value.spotPrice * (supply - held), r.value.marketCap)
            else r.value.marketCap == 0)
        && r.value.holderCount ==
             Total(input.holders, (h: Holder) =>
               if h.balance.Some? && h.balance.value > 0
                  && h.address != Address(0) && h.address != Address(0xdEaD)
                  && h.address != input.curve && h.address != input.pair
               then 1 else 0)
      else r.value.fdv == 0 && r.value.marketCap == 0 && r.value.holderCount == 0
  {
    hide Total, IsHighest, IsLatest, PriceChange;
    if Positive(input.reserveETH) && Positive(input.reserveToken) {
      Uint256.FloorBounds(input.reserveETH.value * Curve.WAD, input.reserveToken.value);
    }
    if HasSupply(input) {
      var held := (h: Holder) =>
        if h.balance.Some? && h.balance.value > 0
           && (h.address == Address(0) || h.address == Address(0xdEaD) || h.address == input.curve)
        then h.balance.value else 0;
      var counted := (h: Holder) =>
        if h.balance.Some? && h.balance.value > 0
           && h.address != Address(0) && h.address != Address(0xdEaD)
           && h.address != input.curve && h.address != input.pair
        then 1 else 0;
      SameWeights(input.holders, held, ExcludedBalance(input.curve));
      SameWeights(input.holders, counted, CountedHolder(input.curve, input.pair));
      MarketCapWithinFDV(input, now, r);
      ValueIsFloor(r.value.spotPrice, input.totalSupply.value);
      ValueIsFloor(r.value.spotPrice, Circulating(input));
    }
  }

  /** A value in units of 10^-18, rounded down. */
  predicate IsFloor(value: int, q: int) {
    q * 1_000_000_000_000_000_000 <= value < (q + 1) * 1_000_000_000_000_000_000
  }

  lemma ValueIsFloor(price: int, amount: int)
    requires price >= 0
    ensures amount >= 0 ==> IsFloor(price * amount, price * amount / Curve.WAD)
  {
    if amount >= 0 {
      Uint256.MulMonotone(0, amount, price);
      Uint256.FloorBounds(price * amount, Curve.WAD);
    }
  }

  /** What one more holder does: a positive balance at the zero address, at 0xdEaD or at the
      curve leaves the circulating supply, and only one elsewhere that is not the pair's
      counts as a holder. Without holders all of the supply circulates. */
  lemma OneMoreHolder(input: Input, h: Holder, now: int, r: Result<Stats, RangeError>, q: Result<Stats, RangeError>)
    returns (circulating: int)
    requires IsAggregate(input, now, r) && IsAggregate(input.(holders := input.holders + [h]), now, q)
    requires r.Ok? && q.Ok? && input.totalSupply.Some? && input.totalSupply.value >= 0
    ensures input.holders == [] ==> circulating == input.totalSupply.value && r.value.holderCount == 0
    ensures q.value.spotPrice == r.value.spotPrice && q.value.fdv == r.value.fdv
    ensures if circulating > 0 then IsFloor(r.value.spotPrice * circulating, r.value.marketCap) else r.value.marketCap == 0
    ensures
      var some := h.balance.Some? && h.balance.value > 0;
      var left := if some && (h.address == Address(0) || h.address == Address(0xdEaD) || h.address == input.curve)
                  then circulating - h.balance.value else circulating;
      && (if left > 0 then IsFloor(r.value.spotPrice * left, q.value.marketCap) else q.value.marketCap == 0)
      && q.value.holderCount - r.value.holderCount ==
           if some && h.address != Address(0) && h.address != Address(0xdEaD)
              && h.address != input.curve && h.address != input.pair
           then 1 else 0
  {
    hide IsHighest, IsLatest, PriceChange;
    circulating := Circulating(input);
    var longer := input.holders + [h];
    assert longer[..|longer| - 1] == input.holders;
    MarketCapWithinFDV(input, now, r);
    ValueIsFloor(r.value.spotPrice, circulating);
    ValueIsFloor(r.value.spotPrice, Circulating(input.(holders := longer)));
  }

  /** The rest of the aggregate: the volume of the candles that start within the last 24
      hours, and the ATH over the one on record, or over the launch price without one. */
  lemma HistorySpelledOut(input: Input, now: int, r: Result<Stats, RangeError>)
    requires IsAggregate(input, now, r) && r.Ok?
    ensures r.value.volume24H ==
              Total(input.candles, (c: Candle) =>
                if c.start >= now - 24 * 3_600 * 1_000_000_000 && c.volume.Some? && c.volume.value > 0
                then c.volume.value else 0)
    ensures
      var recorded := input.previousATH.Some? && input.previousATH.value >= 0;
      var base := if recorded then input.previousATH.value
                  else if input.launchPrice.Some? && input.launchPrice.value >= 0 then input.launchPrice.value else 0;
      var high := r.value.ath;
      && high >= base
      && (forall c :: c in input.candles && c.high.Some? ==> c.high.value <= high)
      && (if high == base then r.value.athAt == if recorded then input.previousATHAt else input.launchAt
          else (exists c :: c in input.candles && c.high == Some(high) && c.start == r.value.athAt)
               && (forall c :: c in input.candles && c.high == Some(high) ==> r.value.athAt <= c.start))
  {
    hide Total, IsLatest, PriceChange;
    var recent := (c: Candle) =>
      if c.start >= now - 24 * 3_600 * 1_000_000_000 && c.volume.Some? && c.volume.value > 0 then c.volume.value else 0;
    SameWeights(input.candles, recent, RecentVolume(now - DAY));
  }

  /** The price change compares the closes of the latest candle and of the latest one that
      starts at least 24 hours ago, in hundredths of a percent, truncated towards zero; it is
      0 if either is missing or the earlier close is not positive. */
  lemma PriceChangeSpelledOut(input: Input, now: int, r: Result<Stats, RangeError>)
    returns (earlier: Option<Candle>, latest: Option<Candle>)
    requires IsAggregate(input, now, r)
    ensures earlier.Some? ==> earlier.value in input.candles && earlier.value.close.Some?
                              && earlier.value.start <= now - 24 * 3_600 * 1_000_000_000
    ensures latest.Some? ==> latest.value in input.candles && latest.value.close.Some?
    ensures forall c :: c in input.candles && c.close.Some? ==> latest.Some? && c.start <= latest.value.start
    ensures forall c :: c in input.candles && c.close.Some? && c.start <= now - 24 * 3_600 * 1_000_000_000 ==>
              earlier.Some? && c.start <= earlier.value.start
    ensures
      if earlier.None? || latest.None? || earlier.value.close.value <= 0 then r.Ok? && r.value.priceChange24hBPS == 0
      else
        var base := earlier.value.close.value;
        var move := (latest.value.close.value - base) * 10_000;
        var change := if r.Ok? then r.value.priceChange24hBPS else r.error.value;
        && (if move >= 0 then change * base <= move < (change + 1) * base
            else change <= 0 && (change - 1) * base < move <= change * base)
        && (r.Ok? <==> -9_007_199_254_740_991 <= change <= 9_007_199_254_740_991)
  {
    hide Total, IsHighest, Circulating, SpotPrice;
    earlier, latest :| AggregateWith(input, now, earlier, latest, r);
    if earlier.Some? && latest.Some? && earlier.value.close.value > 0 {
      PriceChangeTruncates(earlier.value, latest.value);
    }
  }

  // ---- other consequences --------------------------------------------------------------------

  lemma {:induction false} ExcludedNonNegative(holders: seq<Holder>, curve: Address)
    ensures Total(holders, ExcludedBalance(curve)) >= 0
  {
    if holders != [] {
      ExcludedNonNegative(holders[..|holders| - 1], curve);
    }
  }

  lemma FloorMonotone(x: int, y: int, d: int)
    requires 0 <= x <= y && d > 0
    ensures 0 <= x / d <= y / d
  {
    Uint256.FloorBounds(x, d);
    Uint256.FloorIsGreatest(y, d, x / d);
  }

  /** The market cap is at most the fully diluted valuation. */
  lemma MarketCapWithinFDV(input: Input, now: int, r: Result<Stats, RangeError>)
    requires IsAggregate(input, now, r) && r.Ok?
    ensures 0 <= r.value.marketCap <= r.value.fdv && r.value.spotPrice >= 0
  {
    hide IsHighest, IsLatest, PriceChange, Total;
    ExcludedNonNegative(input.holders, input.curve);
    var price := SpotPrice(input);
    if Positive(input.reserveETH) && Positive(input.reserveToken) {
      FloorMonotone(0, input.reserveETH.value * Curve.WAD, input.reserveToken.value);
    }
    if HasSupply(input) {
      var supply, circulating := input.totalSupply.value, Circulating(input);
      Uint256.MulMonotone(0, supply, price);
      FloorMonotone(0, price * supply, Curve.WAD);
      if circulating > 0 {
        Uint256.MulMonotone(0, circulating, price);
        Uint256.MulMonotone(circulating, supply, price);
        FloorMonotone(price * circulating, price * supply, Curve.WAD);
      }
    }
  }

  // ---- the ATH over many aggregations --------------------------------------------------------

  datatype Round = Round(input: Input, now: int, result: Result<Stats, RangeError>)

  /** The ATH on record after these rounds; one that fails leaves it as it was. */
  function HighAfter(base: High, rounds: seq<Round>): High {
    if rounds == [] then base
    else
      var last := rounds[|rounds| - 1];
      if last.result.Ok? then High(last.result.value.ath, last.result.value.athAt)
      else HighAfter(base, rounds[..|rounds| - 1])
  }

  /** Ordinary aggregation: the first round starts from the base, and every later one is
      supplied with the ATH on record. */
  ghost predicate FedBack(base: High, rounds: seq<Round>) {
    rounds != [] ==>
      var front, last := rounds[..|rounds| - 1], rounds[|rounds| - 1];
      && FedBack(base, front)
      && IsAggregate(last.input, last.now, last.result)
      && if front == [] then BaseHigh(last.input) == base
         else last.input.previousATH == Some(HighAfter(base, front).value)
              && last.input.previousATHAt == HighAfter(base, front).at
  }

  predicate Reaches(r: Round, value: int) {
    r.result.Ok? && exists c :: c in r.input.candles && c.high.Some? && c.high.value >= value
  }

  /** In this round the high was set: it is its highest candle, at the earliest start of
      such a candle, and no earlier round had one as high. */
  ghost predicate FirstReachedIn(rounds: seq<Round>, i: int, h: High)
    requires 0 <= i < |rounds|
  {
    && rounds[i].result.Ok?
    && (exists c :: c in rounds[i].input.candles && c.high == Some(h.value) && c.start == h.at)
    && (forall c :: c in rounds[i].input.candles && c.high == Some(h.value) ==> h.at <= c.start)
    && (forall j :: 0 <= j < i ==> !Reaches(rounds[j], h.value))
  }

  lemma AggregateIsHighest(input: Input, now: int, r: Result<Stats, RangeError>)
    requires IsAggregate(input, now, r) && r.Ok?
    ensures IsHighest(BaseHigh(input), input.candles, High(r.value.ath, r.value.athAt))
  {
  }

  /** However often the aggregate is recomputed, the ATH on record is the highest of the base
      and of all candle highs that any round ever saw, even if later rounds no longer see
      them. Its time is the earliest start of such a candle in the round that first saw one,
      or that of the base if none was above it. */
  lemma {:induction false} ATHOverAggregations(base: High, rounds: seq<Round>)
    requires FedBack(base, rounds)
    ensures
      var h := HighAfter(base, rounds);
      && h.value >= base.value
      && (forall i :: 0 <= i < |rounds| ==> !Reaches(rounds[i], h.value + 1))
      && (h.value == base.value ==> h == base)
      && (h.value > base.value ==> exists i :: 0 <= i < |rounds| && FirstReachedIn(rounds, i, h))
    ensures rounds != [] ==> base.value >= 0
  {
    hide IsAggregate;
    if rounds != [] {
      var front, last := rounds[..|rounds| - 1], rounds[|rounds| - 1];
      ATHOverAggregations(base, front);
      if last.result.Ok? {
        AggregateIsHighest(last.input, last.now, last.result);
      }
      var before, after := HighAfter(base, front), HighAfter(base, rounds);
      assert BaseHigh(last.input) == before;
      if last.result.Ok? && after.value > before.value {
        forall j | 0 <= j < |front| ensures !Reaches(rounds[j], after.value) {
          assert rounds[j] == front[j] && !Reaches(front[j], before.value + 1);
        }
        assert FirstReachedIn(rounds, |front|, after);
      } else if after.value > base.value {
        var i :| 0 <= i < |front| && FirstReachedIn(front, i, before);
        assert FirstReachedIn(rounds, i, after);
      }
      forall i | 0 <= i < |rounds| ensures !Reaches(rounds[i], after.value + 1) {
        if i < |front| {
          assert rounds[i] == front[i] && !Reaches(front[i], before.value + 1);
        }
      }
    }
  }

  /** The change is truncated towards zero: it never overstates a move. */
  lemma PriceChangeTruncates(baseline: Candle, latest: Candle)
    requires baseline.close.Some? && latest.close.Some? && baseline.close.value > 0
    ensures
      var base, move := baseline.close.value, (latest.close.value - baseline.close.value) * 10_000;
      var r := PriceChange(Some(baseline), Some(latest));
      var change := if r.Ok? then r.value else r.error.value;
      && (move >= 0 ==> change >= 0 && change * base <= move < (change + 1) * base)
      && (move <= 0 ==> change <= 0 && (change - 1) * base < move <= change * base)
      && (r.Ok? <==> MIN_SAFE_BPS <= change <= MAX_SAFE_BPS)
  {
    var base, move := baseline.close.value, (latest.close.value - baseline.close.value) * 10_000;
    Uint256.FloorBounds(if move >= 0 then move else -move, base);
  }
}
