/** The message formatter: the percentage distance of a level from the
    entry, the wording chosen by the direction, the rating defaults of the
    signal card, the classification of a result status and the empty case
    of the statistics message. The HTML templates themselves are not
    modelled; the values that go into them are. */
module SignalFormatter {
  import opened Common
  import opened Text
  import SignalQuality

  // ------------------------------------------------------------ percentage

  /** `calculate_percentage`: (target − entry) / entry · 100; a zero entry
      raises ZeroDivisionError. The contract states the percentage by the
      equation it solves rather than by the division. */
  function CalculatePercentage(entry: real, target: real): (r: Result<real>)
    ensures r.Raised? <==> entry == 0.0
    ensures r.Ok? ==> r.value * entry == (target - entry) * 100.0
  {
    if entry == 0.0 then Raised("ZeroDivisionError")
    else
      var p := ((target - entry) / entry) * 100.0;
      QuotientTimesDivisor(target - entry, entry);
      Ok(p)
  }

  lemma QuotientTimesDivisor(a: real, e: real)
    requires e != 0.0
    ensures ((a / e) * 100.0) * e == a * 100.0
  {
    var q := a / e;
    assert q * e == a;
  }

  lemma SignOfProduct(p: real, e: real)
    requires e > 0.0
    ensures p * e > 0.0 <==> p > 0.0
    ensures p * e < 0.0 <==> p < 0.0
  {
  }

  /** The percentage is zero exactly when the target is the entry. */
  lemma PercentageZeroIff(entry: real, target: real)
    requires entry != 0.0
    ensures CalculatePercentage(entry, target).value == 0.0 <==> target == entry
  {
    var p := CalculatePercentage(entry, target).value;
    assert p * entry == (target - entry) * 100.0;
    if p != 0.0 {
      assert p * entry != 0.0;
    }
  }

  /** For a positive entry the percentage has the sign of target − entry. */
  lemma PercentageSign(entry: real, target: real)
    requires entry > 0.0
    ensures CalculatePercentage(entry, target).value > 0.0 <==> target > entry
    ensures CalculatePercentage(entry, target).value < 0.0 <==> target < entry
  {
    var p := CalculatePercentage(entry, target).value;
    SignOfProduct(p, entry);
  }

  /** Moving the entry by the percentage gives the target back. */
  lemma PercentageRoundTrip(entry: real, target: real)
    requires entry != 0.0
    ensures entry + entry * CalculatePercentage(entry, target).value / 100.0 == target
  {
    var p := CalculatePercentage(entry, target).value;
    assert p * entry == (target - entry) * 100.0;
    assert entry * p / 100.0 == target - entry;
  }

  // ------------------------------------------------------------- direction

  /** The words that depend on the direction of the signal. */
  datatype Wording = Wording(emoji: string, arrow: string, text: string, verb: string, trend: string)

  const BuyWording := Wording("🟢", "📈", "ПОКУПКА (LONG)", "Покупайте", "роста")
  const SellWording := Wording("🔴", "📉", "ПРОДАЖА (SHORT)", "Продавайте", "падения")

  /** Only the exact direction "LONG" selects the buy wording; every other
      value, "long" and "BUY" included, selects the sell wording. */
  function DirectionWording(direction: string): (w: Wording)
    ensures w == BuyWording <==> direction == "LONG"
    ensures w == SellWording <==> direction != "LONG"
  {
    if direction == "LONG" then BuyWording else SellWording
  }

  // ---------------------------------------------------------------- rating

  /** The three keys of the rating dict the card reads. A missing rating,
      `None` or an empty dict, is `None` here: both take the defaults. */
  datatype RatingKeys = RatingKeys(emoji: Option<string>, status: Option<string>, confidence: Option<real>)

  /** The rating line of the card: emoji, level text and confidence in percent. */
  datatype Header = Header(emoji: string, text: string, confidence: real)

  const DefaultHeader := Header("⭐", "STANDARD", 50.0)

  function RatingHeader(rating: Option<RatingKeys>): (h: Header)
    ensures rating.None? ==> h == DefaultHeader
    ensures rating.Some? && rating.value.emoji.Some? ==> h.emoji == rating.value.emoji.value
    ensures rating.None? || rating.value.emoji.None? ==> h.emoji == "⭐"
    ensures rating.None? || rating.value.status.None? ==> h.text == "STANDARD"
    ensures rating.Some? && rating.value.status.Some? ==> h.text == rating.value.status.value
    ensures rating.None? || rating.value.confidence.None? ==> h.confidence == 50.0
    ensures rating.Some? && rating.value.confidence.Some? ==> h.confidence == rating.value.confidence.value * 100.0
  {
    match rating
    case None => DefaultHeader
    case Some(keys) =>
      Header(
        if keys.emoji.Some? then keys.emoji.value else "⭐",
        if keys.status.Some? then keys.status.value else "STANDARD",
        (if keys.confidence.Some? then keys.confidence.value else 0.5) * 100.0)
  }

  /** The keys the quality rater's dict offers the card: the emoji only, for
      a full rating and for the fallback alike. */
  function KeysOfQualityRating(r: SignalQuality.QualityRating): RatingKeys
  {
    RatingKeys(Some(r.emoji), None, None)
  }

  /** A card rated by the quality rater always reads STANDARD at 50%, whatever
      level and total the rater computed; only the emoji carries over. */
  lemma QualityRatingShowsStandard(input: SignalQuality.QualityInput)
    ensures var r := SignalQuality.RateSignal(input);
      RatingHeader(Some(KeysOfQualityRating(r))) == Header(r.emoji, "STANDARD", 50.0)
  {
  }

  // ---------------------------------------------------------------- levels

  /** The percentages shown next to the three take-profit levels and the
      stop-loss. */
  datatype LevelPercents = LevelPercents(tp1: real, tp2: real, tp3: real, sl: real)

  /** `signal.get(key, 0)`. */
  function OrZero(x: Option<real>): real
  {
    if x.Some? then x.value else 0.0
  }

  /** The four percentages of the card; the first division by a zero entry
      raises. A missing optional level counts as 0. */
  function LevelPercentages(entry: real, tp1: real, tp2: Option<real>, tp3: Option<real>, sl: Option<real>)
    : (r: Result<LevelPercents>)
    ensures r.Raised? <==> entry == 0.0
    ensures r.Ok? ==> r.value.tp1 * entry == (tp1 - entry) * 100.0
    ensures r.Ok? ==> r.value.tp2 * entry == (OrZero(tp2) - entry) * 100.0
    ensures r.Ok? ==> r.value.tp3 * entry == (OrZero(tp3) - entry) * 100.0
    ensures r.Ok? ==> r.value.sl * entry == (OrZero(sl) - entry) * 100.0
  {
    var p1 := CalculatePercentage(entry, tp1);
    if p1.Raised? then Raised(p1.exception)
    else
      Ok(LevelPercents(
        p1.value,
        CalculatePercentage(entry, OrZero(tp2)).value,
        CalculatePercentage(entry, OrZero(tp3)).value,
        CalculatePercentage(entry, OrZero(sl)).value))
  }

  /** A level missing from the signal is shown at −100% of a non-zero entry. */
  lemma MissingLevelIsMinusHundred(entry: real, tp1: real, tp2: Option<real>, tp3: Option<real>)
    requires entry != 0.0
    ensures LevelPercentages(entry, tp1, tp2, tp3, None).value.sl == -100.0
  {
    var r := LevelPercentages(entry, tp1, tp2, tp3, None);
    assert r.value.sl * entry == -entry * 100.0;
    assert (r.value.sl + 100.0) * entry == 0.0;
  }

  // ------------------------------------------------------------------ card

  /** The signal dict's keys that the card computes with; `symbol`,
      `direction`, `entry` and `tp1` are required keys. */
  datatype SignalFields = SignalFields(
    symbol: string, direction: string, entry: real, tp1: real,
    tp2: Option<real>, tp3: Option<real>, sl: Option<real>)

  datatype Card = Card(symbol: string, wording: Wording, header: Header, levels: LevelPercents)

  /** `format_signal_with_rating`, up to the text template: it raises only
      for a zero entry. */
  function FormatSignalWithRating(signal: SignalFields, rating: Option<RatingKeys>): (r: Result<Card>)
    ensures r.Raised? <==> signal.entry == 0.0
    ensures r.Ok? ==> && r.value.symbol == signal.symbol
                      && (r.value.wording == BuyWording <==> signal.direction == "LONG")
                      && (r.value.wording == SellWording <==> signal.direction != "LONG")
                      && r.value.header == RatingHeader(rating)
                      && Ok(r.value.levels)
                         == LevelPercentages(signal.entry, signal.tp1, signal.tp2, signal.tp3, signal.sl)
  {
    var levels := LevelPercentages(signal.entry, signal.tp1, signal.tp2, signal.tp3, signal.sl);
    if levels.Raised? then Raised(levels.exception)
    else Ok(Card(signal.symbol, DirectionWording(signal.direction), RatingHeader(rating), levels.value))
  }

  // ---------------------------------------------------------------- result

  datatype StatusClass = Profit | StoppedOut | InProgress | UnknownStatus

  /** The if/elif chain of `format_signal_result`, in its priority order. */
  function ClassifyStatus(status: string): (c: StatusClass)
    ensures c == Profit <==> StartsWith(status, "SUCCESS")
    ensures c == StoppedOut <==> !StartsWith(status, "SUCCESS") && status == "STOP_LOSS"
    ensures c == InProgress <==>
      !StartsWith(status, "SUCCESS") && status != "STOP_LOSS" && Contains(status, "IN_PROGRESS")
    ensures c == UnknownStatus <==>
      !StartsWith(status, "SUCCESS") && status != "STOP_LOSS" && !Contains(status, "IN_PROGRESS")
  {
    if StartsWith(status, "SUCCESS") then Profit
    else if status == "STOP_LOSS" then StoppedOut
    else if Contains(status, "IN_PROGRESS") then InProgress
    else UnknownStatus
  }

  /** The closing line of the result message, chosen by its own conditional
      expression. */
  function ClosingLine(status: string): string
  {
    if StartsWith(status, "SUCCESS") then "🎉 Отличная работа!"
    else if status == "STOP_LOSS" then "🔄 Учимся на каждой сделке!"
    else "⏳ Ожидаем результата..."
  }

  /** The closing line agrees with the classification: praise exactly for a
      profit, the lesson line exactly for a stop-loss, the waiting line for
      the other two classes. */
  lemma ClosingLineAgrees(status: string)
    ensures ClosingLine(status) == "🎉 Отличная работа!" <==> ClassifyStatus(status) == Profit
    ensures ClosingLine(status) == "🔄 Учимся на каждой сделке!" <==> ClassifyStatus(status) == StoppedOut
    ensures ClosingLine(status) == "⏳ Ожидаем результата..." <==>
      ClassifyStatus(status) in {InProgress, UnknownStatus}
  {
  }

  /** The prefix test wins over the containment test, and the statuses the
      tracker records, "TP" and "SL", are neither recognised. */
  lemma ClassifyExamples()
    ensures ClassifyStatus("SUCCESS_IN_PROGRESS") == Profit
    ensures ClassifyStatus("STOP_LOSS") == StoppedOut
    ensures ClassifyStatus("PARTIAL_IN_PROGRESS") == InProgress
    ensures ClassifyStatus("TP") == UnknownStatus
    ensures ClassifyStatus("SL") == UnknownStatus
  {
    ContainsAt("PARTIAL_IN_PROGRESS", "IN_PROGRESS", 8);
    assert "STOP_LOSS"[..7][1] != "SUCCESS"[1];
    assert !StartsWith("SL", "IN_PROGRESS");
  }

  /** `pnl_emoji`: a missing `pnl_percent` counts as 0, which is not a loss. */
  function PnlEmoji(pnl: Option<real>): (e: string)
    ensures e == "📉" <==> pnl.Some? && pnl.value < 0.0
    ensures e == "📈" <==> pnl.None? || pnl.value >= 0.0
  {
    if OrZero(pnl) >= 0.0 then "📈" else "📉"
  }

  // ------------------------------------------------------------ statistics

  const StatisticsUnavailable := "📊 Статистика пока недоступна"

  /** The numeric keys of the statistics message, in the order shown. */
  const StatisticsKeys: seq<string> := ["total_signals", "successful", "stop_loss", "in_progress",
    "success_rate", "stop_loss_rate", "avg_profit", "avg_loss", "profit_factor", "expected_value"]

  datatype StatisticsMessage = Unavailable(text: string) | Report(values: seq<real>)

  /** `format_statistics`: `None` or an empty dict give the fixed
      "unavailable" text; otherwise every key is shown, 0 when missing. */
  function FormatStatistics(stats: Option<map<string, real>>): (m: StatisticsMessage)
    ensures m.Unavailable? <==> stats.None? || stats.value == map[]
    ensures m.Unavailable? ==> m.text == StatisticsUnavailable
    ensures m.Report? ==> |m.values| == |StatisticsKeys|
    ensures m.Report? ==> forall i :: 0 <= i < |StatisticsKeys| ==>
      m.values[i] == (if StatisticsKeys[i] in stats.value then stats.value[StatisticsKeys[i]] else 0.0)
  {
    if stats.None? || stats.value == map[] then Unavailable(StatisticsUnavailable)
    else
      var s := stats.value;
      Report(seq(|StatisticsKeys|, i requires 0 <= i < |StatisticsKeys| =>
        if StatisticsKeys[i] in s then s[StatisticsKeys[i]] else 0.0))
  }
}
