/** The entry rule of the signal generator: from the last two hourly bars
    (close price plus the RSI(14), EMA(20) and EMA(50) values computed by the
    indicator library) decide buy, sell or nothing, and derive fixed-percentage
    take-profit and stop-loss levels. Indicator values are inputs; candle
    fetching is replaced by a map from symbol to bars in which a failed fetch
    is an absent key. */
module AdvancedSignalGenerator {
  import opened Common
  import opened Signals

  /** An indicator value; the indicator library yields NaN until its
      look-back window has filled, and every comparison with NaN is false. */
  datatype Num = Val(v: real) | NaN

  predicate Less(a: Num, b: Num)
  {
    a.Val? && b.Val? && a.v < b.v
  }

  predicate LessEq(a: Num, b: Num)
  {
    a.Val? && b.Val? && a.v <= b.v
  }

  /** One row of the indicator frame. */
  datatype Bar = Bar(close: real, rsi: Num, ema20: Num, ema50: Num)

  /** Fewer candles than this yield no signal. */
  const MinCandles: nat := 20

  /** The symbols scanned by one analysis cycle, in order. */
  const DefaultSymbols: seq<string> := ["BTC/USDT", "ETH/USDT", "SOL/USDT"]

  const TpLong: real := 1.03
  const TpShort: real := 0.97
  const SlLong: real := 0.985
  const SlShort: real := 1.015

  datatype Direction = Buy | Sell

  function SideName(d: Direction): string
  {
    match d
    case Buy => "buy"
    case Sell => "sell"
  }

  /** The buy guard without the crossover test: 10 < RSI < 40 and EMA20 > EMA50. */
  predicate BuyTrend(last: Bar)
  {
    Less(Val(10.0), last.rsi) && Less(last.rsi, Val(40.0)) && Less(last.ema50, last.ema20)
  }

  /** The sell guard without the crossover test: 60 < RSI < 90 and EMA20 < EMA50. */
  predicate SellTrend(last: Bar)
  {
    Less(Val(60.0), last.rsi) && Less(last.rsi, Val(90.0)) && Less(last.ema20, last.ema50)
  }

  /** The if/elif of the entry rule. The sell branch is only reached when the
      buy trend test fails; the result says, in plain comparisons over defined
      values, exactly when each direction fires. */
  function DecideDirection(last: Bar, prev: Bar): (d: Option<Direction>)
    ensures d == Some(Buy) <==>
      && last.rsi.Val? && last.ema20.Val? && last.ema50.Val? && prev.ema20.Val?
      && 10.0 < last.rsi.v < 40.0
      && last.ema20.v > last.ema50.v
      && prev.close <= prev.ema20.v
    ensures d == Some(Sell) <==>
      && last.rsi.Val? && last.ema20.Val? && last.ema50.Val? && prev.ema20.Val?
      && 60.0 < last.rsi.v < 90.0
      && last.ema20.v < last.ema50.v
      && prev.close >= prev.ema20.v
  {
    if BuyTrend(last) then
      if LessEq(Val(prev.close), prev.ema20) then Some(Buy) else None
    else if SellTrend(last) then
      if LessEq(prev.ema20, Val(prev.close)) then Some(Sell) else None
    else None
  }

  /** A NaN in any indicator the rule reads means no signal. */
  lemma NaNMeansNoSignal(last: Bar, prev: Bar)
    requires last.rsi.NaN? || last.ema20.NaN? || last.ema50.NaN? || prev.ema20.NaN?
    ensures DecideDirection(last, prev) == None
  {
  }

  /** The signal for `symbol` built from the closing bar, in direction `d`. */
  function MakeSignal(symbol: string, d: Direction, close: real): (s: Signal)
    ensures s.symbol == symbol && s.side == SideName(d) && s.entry == close
    ensures d == Buy ==> s.tp == close * 1.03 && s.sl == close * 0.985
    ensures d == Sell ==> s.tp == close * 0.97 && s.sl == close * 1.015
  {
    var tpMult := if d == Buy then TpLong else TpShort;
    var slMult := if d == Buy then SlLong else SlShort;
    Signal(symbol, SideName(d), close, close * tpMult, close * slMult, "1h")
  }

  /** `get_data_and_analyze`: `bars` is None when the fetch raised. */
  function Analyze(symbol: string, bars: Option<seq<Bar>>): (r: Option<Signal>)
    ensures bars.None? ==> r.None?
    ensures bars.Some? && |bars.value| < MinCandles ==> r.None?
    ensures bars.Some? && |bars.value| >= MinCandles ==>
      (r.Some? <==> DecideDirection(bars.value[|bars.value| - 1], bars.value[|bars.value| - 2]).Some?)
    ensures r.Some? ==>
      && bars.Some? && |bars.value| >= MinCandles
      && var last := bars.value[|bars.value| - 1];
         var prev := bars.value[|bars.value| - 2];
         && DecideDirection(last, prev).Some?
         && r.value == MakeSignal(symbol, DecideDirection(last, prev).value, last.close)
  {
    if bars.None? || |bars.value| < MinCandles then None
    else
      var last := bars.value[|bars.value| - 1];
      var prev := bars.value[|bars.value| - 2];
      match DecideDirection(last, prev)
      case None => None
      case Some(d) => Some(MakeSignal(symbol, d, last.close))
  }

  /** For a positive close, a buy has sl < entry < tp and a sell tp < entry < sl,
      and the reward is twice the risk. */
  lemma LevelsBracketEntry(symbol: string, d: Direction, close: real)
    requires close > 0.0
    ensures var s := MakeSignal(symbol, d, close);
      && (d == Buy ==> s.sl < s.entry < s.tp)
      && (d == Sell ==> s.tp < s.entry < s.sl)
      && Abs(s.tp - s.entry) == 2.0 * Abs(s.entry - s.sl)
  {
  }

  function Fetch(market: map<string, seq<Bar>>, symbol: string): Option<seq<Bar>>
  {
    if symbol in market then Some(market[symbol]) else None
  }

  /** The signals of one cycle over `symbols`, in order. */
  function Collect(symbols: seq<string>, market: map<string, seq<Bar>>): seq<Signal>
  {
    if symbols == [] then []
    else
      var sym := symbols[|symbols| - 1];
      Collect(symbols[..|symbols| - 1], market)
        + match Analyze(sym, Fetch(market, sym)) case Some(s) => [s] case None => []
  }

  /** A cycle yields at most one signal per scanned symbol, each for a scanned
      symbol; with distinct symbols the signals have distinct symbols. */
  lemma {:induction false} CollectShape(symbols: seq<string>, market: map<string, seq<Bar>>)
    ensures |Collect(symbols, market)| <= |symbols|
    ensures forall s :: s in Collect(symbols, market) ==> s.symbol in symbols
    ensures (forall i, j :: 0 <= i < j < |symbols| ==> symbols[i] != symbols[j])
            ==> DistinctSymbols(Collect(symbols, market))
    decreases |symbols|
  {
    if symbols != [] {
      var init := symbols[..|symbols| - 1];
      var sym := symbols[|symbols| - 1];
      CollectShape(init, market);
      var before := Collect(init, market);
      var r := Analyze(sym, Fetch(market, sym));
      assert Collect(symbols, market) == before + (match r case Some(s) => [s] case None => []);
      forall s | s in before ensures s.symbol in symbols {
        assert s.symbol in init;
      }
      if forall i, j :: 0 <= i < j < |symbols| ==> symbols[i] != symbols[j] {
        assert forall i, j :: 0 <= i < j < |init| ==> init[i] != init[j] by {
          forall i, j | 0 <= i < j < |init| ensures init[i] != init[j] {
            assert init[i] == symbols[i] && init[j] == symbols[j];
          }
        }
        assert sym !in init by {
          forall k | 0 <= k < |init| ensures init[k] != sym {
            assert init[k] == symbols[k];
          }
        }
        if r.Some? {
          forall k | 0 <= k < |before| ensures before[k].symbol != sym {
            assert before[k] in before;
          }
        }
      }
    }
  }

  /** `run_analysis_cycle`: one `get_data_and_analyze` per symbol, keeping the
      signals in symbol order. */
  method RunAnalysisCycle(symbols: seq<string>, market: map<string, seq<Bar>>)
    returns (signals: seq<Signal>)
    ensures signals == Collect(symbols, market)
  {
    signals := [];
    var i := 0;
    while i < |symbols|
      invariant 0 <= i <= |symbols|
      invariant signals == Collect(symbols[..i], market)
    {
      var sig := Analyze(symbols[i], Fetch(market, symbols[i]));
      if sig.Some? {
        signals := signals + [sig.value];
      }
      assert symbols[..i + 1][..i] == symbols[..i];
      i := i + 1;
    }
    assert symbols[..|symbols|] == symbols;
  }
}
