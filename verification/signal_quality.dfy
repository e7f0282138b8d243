/** The signal quality rater: six factor ratings, each a step function of
    one field of the signal (two are fixed placeholders), combined with
    fixed weights into a total that selects a level, an emoji and the
    premium flag. Anything that raises while rating yields the fixed
    fallback rating. */
module SignalQuality {
  import opened Common

  // -------------------------------------------------------------- weights

  const TimeframeWeight: real := 0.25
  const VolumeWeight: real := 0.20
  const RiskRewardWeight: real := 0.15
  const StructureWeight: real := 0.15
  const VolatilityWeight: real := 0.10
  const ConfidenceWeight: real := 0.15

  /** The six factor weights form a convex combination. */
  lemma WeightsSumToOne()
    ensures TimeframeWeight + VolumeWeight + RiskRewardWeight + StructureWeight
            + VolatilityWeight + ConfidenceWeight == 1.0
  {
  }

  const HighThreshold: real := 0.75
  const MediumThreshold: real := 0.60
  const LowThreshold: real := 0.45

  // -------------------------------------------------------- factor ratings

  /** `rate_timeframe_consensus`: 0.5 without timeframes; otherwise a third
      per timeframe up to 1, plus 0.2 when "4h" is among them, capped at 1. */
  function RateTimeframeConsensus(timeframes: seq<string>): (r: real)
    ensures timeframes == [] ==> r == 0.5
    ensures timeframes != [] ==> 1.0 / 3.0 <= r <= 1.0
    ensures |timeframes| >= 3 ==> r == 1.0
    ensures timeframes != [] && "4h" !in timeframes ==> r == Min(|timeframes| as real / 3.0, 1.0)
    ensures timeframes != [] && "4h" in timeframes ==> r == Min(Min(|timeframes| as real / 3.0, 1.0) + 0.2, 1.0)
  {
    if timeframes == [] then 0.5
    else
      var base := Min(|timeframes| as real / 3.0, 1.0);
      var score := if "4h" in timeframes then base + 0.2 else base;
      Min(score, 1.0)
  }

  /** `rate_volume_confirmation` and `rate_market_structure` are fixed
      placeholders. */
  const VolumeConfirmation: real := 0.7
  const MarketStructure: real := 0.6

  /** `rate_risk_reward`: a step function with breakpoints 1, 1.5, 2, 3. */
  function RateRiskReward(rr: real): (r: real)
    ensures r == 0.2 || r == 0.4 || r == 0.6 || r == 0.8 || r == 1.0
    ensures r == 1.0 <==> rr >= 3.0
    ensures r == 0.2 <==> rr < 1.0
    ensures 1.0 <= rr < 1.5 ==> r == 0.4
    ensures 1.5 <= rr < 2.0 ==> r == 0.6
    ensures 2.0 <= rr < 3.0 ==> r == 0.8
  {
    if rr >= 3.0 then 1.0
    else if rr >= 2.0 then 0.8
    else if rr >= 1.5 then 0.6
    else if rr >= 1.0 then 0.4
    else 0.2
  }

  /** A better reward-to-risk ratio never rates lower. */
  lemma RiskRewardMonotone(a: real, b: real)
    requires a <= b
    ensures RateRiskReward(a) <= RateRiskReward(b)
  {
  }

  /** The `volatility` field: absent (defaults to "0%"), text that `float`
      rejects after stripping '%', or a percentage. */
  datatype VolatilityField = Absent | Unparsable | Percent(p: real)

  /** `rate_volatility`: 2–5% is best, 1–2% and 5–8% next, below 1% low,
      above 8% lowest; unparsable text gives 0.5. */
  function RateVolatility(field: VolatilityField): (r: real)
    ensures field.Unparsable? ==> r == 0.5
    ensures field.Absent? ==> r == 0.4
    ensures field.Percent? ==>
      var v := field.p / 100.0;
      && (r == 0.9 <==> 0.02 <= v <= 0.05)
      && (r == 0.7 <==> (0.01 <= v < 0.02 || 0.05 < v <= 0.08))
      && (r == 0.4 <==> v < 0.01)
      && (r == 0.3 <==> v > 0.08)
  {
    match field
    case Unparsable => 0.5
    case Absent => RateVolatilityValue(0.0)
    case Percent(p) => RateVolatilityValue(p / 100.0)
  }

  function RateVolatilityValue(v: real): real
  {
    if 0.02 <= v <= 0.05 then 0.9
    else if (0.01 <= v < 0.02) || (0.05 < v <= 0.08) then 0.7
    else if v < 0.01 then 0.4
    else 0.3
  }

  // ----------------------------------------------------------------- level

  /** `determine_signal_level`. */
  function DetermineSignalLevel(rating: real): (level: string)
    ensures level == "HIGH" <==> rating >= HighThreshold
    ensures level == "MEDIUM" <==> MediumThreshold <= rating < HighThreshold
    ensures level == "LOW" <==> LowThreshold <= rating < MediumThreshold
    ensures level == "WEAK" <==> rating < LowThreshold
  {
    if rating >= HighThreshold then "HIGH"
    else if rating >= MediumThreshold then "MEDIUM"
    else if rating >= LowThreshold then "LOW"
    else "WEAK"
  }

  /** The rank of a level, weakest first. */
  function Rank(level: string): nat
  {
    if level == "HIGH" then 3 else if level == "MEDIUM" then 2 else if level == "LOW" then 1 else 0
  }

  /** A higher rating never gives a lower level. */
  lemma LevelMonotone(a: real, b: real)
    requires a <= b
    ensures Rank(DetermineSignalLevel(a)) <= Rank(DetermineSignalLevel(b))
  {
  }

  /** `get_level_emoji`: unknown levels get the star. */
  function LevelEmoji(level: string): (emoji: string)
    ensures level !in {"HIGH", "MEDIUM", "LOW", "WEAK"} ==> emoji == "⭐"
    ensures level == "HIGH" ==> emoji == "🔥"
    ensures level == "MEDIUM" ==> emoji == "✅"
    ensures level == "LOW" ==> emoji == "⚠️"
    ensures level == "WEAK" ==> emoji == "❌"
  {
    if level == "HIGH" then "🔥"
    else if level == "MEDIUM" then "✅"
    else if level == "LOW" then "⚠️"
    else if level == "WEAK" then "❌"
    else "⭐"
  }

  /** `get_recommendation`: the advice for each of the five known levels
      names the symbol at its end; any other level gets the generic advice. */
  function Recommendation(level: string, symbol: string): (r: string)
    ensures level in {"HIGH", "MEDIUM", "LOW", "WEAK", "STANDARD"} ==>
      |symbol| < |r| && r[|r| - |symbol|..] == symbol
    ensures level !in {"HIGH", "MEDIUM", "LOW", "WEAK", "STANDARD"} ==>
      r == "Сигнал требует дополнительного анализа"
  {
    if level == "HIGH" then "Сильный сигнал! Рекомендуется открывать позицию по " + symbol
    else if level == "MEDIUM" then "Хороший сигнал. Можно рассматривать сделку по " + symbol
    else if level == "LOW" then "Сигнал требует осторожности. Уменьшите размер позиции по " + symbol
    else if level == "WEAK" then "Слабый сигнал. Рекомендуется пропустить сделку по " + symbol
    else if level == "STANDARD" then "Стандартный сигнал по " + symbol
    else "Сигнал требует дополнительного анализа"
  }

  // ----------------------------------------------------------- rate_signal

  /** The fields of the signal dict that the rater reads; `None` is a
      missing key. */
  datatype QualityInput = QualityInput(
    timeframes: Option<seq<string>>,
    symbol: Option<string>,
    riskReward: Option<real>,
    volatility: VolatilityField,
    confidence: Option<real>)

  /** The six factor ratings, in the order the `ratings` dict is filled. */
  datatype Factors = Factors(
    timeframe: real, volume: real, riskReward: real, structure: real, volatility: real, confidence: real)

  datatype QualityRating =
    | Rated(total: real, level: string, emoji: string, factors: Factors,
            recommendation: string, isPremium: bool)
    | Fallback(total: real, level: string, emoji: string)

  function FactorsOf(input: QualityInput): Factors
  {
    Factors(
      RateTimeframeConsensus(if input.timeframes.Some? then input.timeframes.value else []),
      VolumeConfirmation,
      RateRiskReward(if input.riskReward.Some? then input.riskReward.value else 1.0),
      MarketStructure,
      RateVolatility(input.volatility),
      if input.confidence.Some? then input.confidence.value else 0.5)
  }

  /** The weighted sum of the factor ratings. */
  function Total(f: Factors): real
  {
    f.timeframe * TimeframeWeight + f.volume * VolumeWeight + f.riskReward * RiskRewardWeight
    + f.structure * StructureWeight + f.volatility * VolatilityWeight + f.confidence * ConfidenceWeight
  }

  /** `rate_signal`. The only failure modelled is the missing `symbol` key,
      which makes `get_recommendation` raise; the fallback is then total 0.5,
      level STANDARD and the star. */
  function RateSignal(input: QualityInput): (r: QualityRating)
    ensures input.symbol.None? <==> r == Fallback(0.5, "STANDARD", "⭐")
    ensures input.symbol.Some? ==> r.Rated? && r.recommendation == Recommendation(r.level, input.symbol.value)
    ensures r.Rated? ==>
      && r.factors == FactorsOf(input) && r.total == Total(r.factors)
      && r.level == DetermineSignalLevel(r.total)
      && r.emoji == LevelEmoji(r.level)
      && (r.isPremium <==> r.total >= MediumThreshold)
  {
    var factors := FactorsOf(input);
    var total := Total(factors);
    var level := DetermineSignalLevel(total);
    match input.symbol
    case None => Fallback(0.5, "STANDARD", "⭐")
    case Some(symbol) =>
      Rated(total, level, LevelEmoji(level), factors, Recommendation(level, symbol),
            level == "HIGH" || level == "MEDIUM")
  }

  /** Every factor but the confidence lies in [0, 1]. */
  lemma FactorsInUnitInterval(input: QualityInput)
    ensures var f := FactorsOf(input);
      && 0.0 <= f.timeframe <= 1.0 && 0.0 <= f.volume <= 1.0 && 0.0 <= f.riskReward <= 1.0
      && 0.0 <= f.structure <= 1.0 && 0.0 <= f.volatility <= 1.0
  {
  }

  /** Because the weights sum to one, the total lies in [0, 1] whenever the
      confidence supplied with the signal does. */
  lemma TotalInUnitInterval(input: QualityInput)
    requires input.confidence.Some? ==> 0.0 <= input.confidence.value <= 1.0
    ensures 0.0 <= Total(FactorsOf(input)) <= 1.0
  {
    FactorsInUnitInterval(input);
    var f := FactorsOf(input);
    ConvexBound(f.timeframe, f.volume, f.riskReward, f.structure, f.volatility, f.confidence);
  }

  lemma ConvexBound(a: real, b: real, c: real, d: real, e: real, g: real)
    requires 0.0 <= a <= 1.0 && 0.0 <= b <= 1.0 && 0.0 <= c <= 1.0
    requires 0.0 <= d <= 1.0 && 0.0 <= e <= 1.0 && 0.0 <= g <= 1.0
    ensures 0.0 <= a * 0.25 + b * 0.20 + c * 0.15 + d * 0.15 + e * 0.10 + g * 0.15 <= 1.0
  {
  }

  /** A confidence outside [0, 1] is taken unchecked and can push the total
      above 1 and the level to HIGH. */
  lemma UncheckedConfidence()
    ensures var r := RateSignal(QualityInput(Some(["1h"]), Some("BTC/USDT"), None, Absent, Some(5.0)));
      r.Rated? && r.total > 1.0 && r.level == "HIGH"
  {
  }

  /** The defaults of a bare signal: no timeframes (0.5), risk/reward 1
      (0.4), volatility "0%" (0.4), confidence 0.5 give a total of 0.53,
      a LOW signal that is not premium. */
  lemma BareSignalRating()
    ensures var r := RateSignal(QualityInput(None, Some("BTC/USDT"), None, Absent, None));
      r.Rated? && r.total == 0.53 && r.level == "LOW" && !r.isPremium
  {
  }
}
