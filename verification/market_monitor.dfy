/** The cross-exchange monitor: order-book depth near the mid price, the
    buy/sell flow of recent trades, the volume-weighted consensus price of
    the exchanges that answered, and the check of a signal price against
    it. Each exchange's answer is an input: `None` when one of its fetches
    (or the arithmetic on it) raised and the exchange was skipped. */
module MarketMonitor {
  import opened Common

  // ------------------------------------------------------- order-book depth

  datatype Level = Level(price: real, volume: real)

  /** A fetched order book; a side is `None` when its key is missing. */
  datatype Book = Book(bids: Option<seq<Level>>, asks: Option<seq<Level>>)

  /** The depth of a book: 0 when there is no usable book, otherwise the
      volume on each side within half a percent of the mid price. */
  datatype Depth = NoBook | Volumes(bidVolume: real, askVolume: real)

  /** `depth_percent` is 0.5, so the bands are mid × (1 ∓ 0.005). */
  const BidBand: real := 0.995
  const AskBand: real := 1.005

  /** Volume of the levels priced at or above `bound`. */
  function VolumeAtOrAbove(levels: seq<Level>, bound: real): real
  {
    if levels == [] then 0.0
    else (if levels[0].price >= bound then levels[0].volume else 0.0) + VolumeAtOrAbove(levels[1..], bound)
  }

  /** Volume of the levels priced at or below `bound`. */
  function VolumeAtOrBelow(levels: seq<Level>, bound: real): real
  {
    if levels == [] then 0.0
    else (if levels[0].price <= bound then levels[0].volume else 0.0) + VolumeAtOrBelow(levels[1..], bound)
  }

  function TotalVolume(levels: seq<Level>): real
  {
    if levels == [] then 0.0 else levels[0].volume + TotalVolume(levels[1..])
  }

  predicate NonNegativeVolumes(levels: seq<Level>)
  {
    forall i :: 0 <= i < |levels| ==> levels[i].volume >= 0.0
  }

  /** `calculate_orderbook_depth`: a missing book or side gives `NoBook`; an
      empty side makes `[0][0]` raise `IndexError`. */
  function OrderbookDepth(book: Option<Book>): (r: Result<Depth>)
    ensures book.None? || book.value.bids.None? || book.value.asks.None? ==> r == Ok(NoBook)
    ensures r.Raised? <==> book.Some? && book.value.bids.Some? && book.value.asks.Some?
                           && (book.value.bids.value == [] || book.value.asks.value == [])
    ensures r.Ok? && r.value.Volumes? ==>
      var bids := book.value.bids.value;
      var asks := book.value.asks.value;
      var mid := (bids[0].price + asks[0].price) / 2.0;
      r.value == Volumes(VolumeAtOrAbove(bids, mid * BidBand), VolumeAtOrBelow(asks, mid * AskBand))
  {
    if book.None? || book.value.bids.None? || book.value.asks.None? then Ok(NoBook)
    else
      var bids := book.value.bids.value;
      var asks := book.value.asks.value;
      if bids == [] || asks == [] then Raised("IndexError")
      else
        var mid := (bids[0].price + asks[0].price) / 2.0;
        Ok(Volumes(VolumeAtOrAbove(bids, mid * BidBand), VolumeAtOrBelow(asks, mid * AskBand)))
  }

  /** The volume counted within a band lies between 0 and the side's total. */
  lemma {:induction false} BandWithinTotal(levels: seq<Level>, bound: real)
    requires NonNegativeVolumes(levels)
    ensures 0.0 <= VolumeAtOrAbove(levels, bound) <= TotalVolume(levels)
    ensures 0.0 <= VolumeAtOrBelow(levels, bound) <= TotalVolume(levels)
    decreases |levels|
  {
    if levels != [] {
      assert NonNegativeVolumes(levels[1..]) by {
        forall i | 0 <= i < |levels[1..]| ensures levels[1..][i].volume >= 0.0 {
          assert levels[1..][i] == levels[i + 1];
        }
      }
      BandWithinTotal(levels[1..], bound);
      assert levels[0].volume >= 0.0;
    }
  }

  /** For a book with non-negative volumes, each side's counted depth is
      between 0 and that side's whole volume. */
  lemma DepthBounded(book: Book)
    requires book.bids.Some? && book.asks.Some? && book.bids.value != [] && book.asks.value != []
    requires NonNegativeVolumes(book.bids.value) && NonNegativeVolumes(book.asks.value)
    ensures var r := OrderbookDepth(Some(book));
      && r.Ok? && r.value.Volumes?
      && 0.0 <= r.value.bidVolume <= TotalVolume(book.bids.value)
      && 0.0 <= r.value.askVolume <= TotalVolume(book.asks.value)
  {
    var mid := (book.bids.value[0].price + book.asks.value[0].price) / 2.0;
    BandWithinTotal(book.bids.value, mid * BidBand);
    BandWithinTotal(book.asks.value, mid * AskBand);
  }

  // ------------------------------------------------------------ trade flow

  datatype Trade = Trade(side: string, amount: real)

  datatype Trend = Bullish | Bearish | Neutral

  /** The flow summary; the empty-trades answer has no trend key. */
  datatype Flow = Flow(buyVolume: real, sellVolume: real, ratio: real, trend: Option<Trend>)

  /** Sum of the amounts of the trades on `side`. */
  function SideVolume(trades: seq<Trade>, side: string): real
  {
    if trades == [] then 0.0
    else (if trades[0].side == side then trades[0].amount else 0.0) + SideVolume(trades[1..], side)
  }

  function TrendOf(ratio: real): (t: Trend)
    ensures t == Bullish <==> ratio > 0.6
    ensures t == Bearish <==> ratio < 0.4
    ensures t == Neutral <==> 0.4 <= ratio <= 0.6
  {
    if ratio > 0.6 then Bullish else if ratio < 0.4 then Bearish else Neutral
  }

  /** `analyze_trade_flow`. */
  function AnalyzeTradeFlow(trades: seq<Trade>): (f: Flow)
    ensures trades == [] ==> f == Flow(0.0, 0.0, 0.0, None)
    ensures trades != [] ==>
      && f.buyVolume == SideVolume(trades, "buy") && f.sellVolume == SideVolume(trades, "sell")
      && (f.buyVolume + f.sellVolume > 0.0 ==> f.ratio == f.buyVolume / (f.buyVolume + f.sellVolume))
      && (f.buyVolume + f.sellVolume <= 0.0 ==> f.ratio == 0.5)
      && f.trend == Some(TrendOf(f.ratio))
  {
    if trades == [] then Flow(0.0, 0.0, 0.0, None)
    else
      var buy := SideVolume(trades, "buy");
      var sell := SideVolume(trades, "sell");
      var total := buy + sell;
      var ratio := if total > 0.0 then buy / total else 0.5;
      Flow(buy, sell, ratio, Some(TrendOf(ratio)))
  }

  predicate NonNegativeAmounts(trades: seq<Trade>)
  {
    forall i :: 0 <= i < |trades| ==> trades[i].amount >= 0.0
  }

  lemma {:induction false} SideVolumeNonNegative(trades: seq<Trade>, side: string)
    requires NonNegativeAmounts(trades)
    ensures SideVolume(trades, side) >= 0.0
    decreases |trades|
  {
    if trades != [] {
      assert NonNegativeAmounts(trades[1..]) by {
        forall i | 0 <= i < |trades[1..]| ensures trades[1..][i].amount >= 0.0 {
          assert trades[1..][i] == trades[i + 1];
        }
      }
      SideVolumeNonNegative(trades[1..], side);
      assert trades[0].amount >= 0.0;
    }
  }

  /** With non-negative amounts the ratio is a fraction. */
  lemma RatioIsFraction(trades: seq<Trade>)
    requires NonNegativeAmounts(trades)
    ensures 0.0 <= AnalyzeTradeFlow(trades).ratio <= 1.0
  {
    if trades != [] {
      SideVolumeNonNegative(trades, "buy");
      SideVolumeNonNegative(trades, "sell");
      var buy := SideVolume(trades, "buy");
      var total := buy + SideVolume(trades, "sell");
      if total > 0.0 {
        QuotientBetween(0.0, 1.0, buy, total);
      }
    }
  }

  /** A trade whose side is neither "buy" nor "sell" changes nothing. */
  lemma {:induction false} OtherSideIgnored(trades: seq<Trade>, t: Trade)
    requires t.side != "buy" && t.side != "sell"
    ensures SideVolume([t] + trades, "buy") == SideVolume(trades, "buy")
    ensures SideVolume([t] + trades, "sell") == SideVolume(trades, "sell")
    ensures trades != [] ==> AnalyzeTradeFlow([t] + trades) == AnalyzeTradeFlow(trades)
  {
    assert ([t] + trades)[0] == t && ([t] + trades)[1..] == trades;
  }

  // ------------------------------------------------------------ consensus

  /** What one exchange answered, as kept in the `results` dict. */
  datatype ExchangeData = ExchangeData(
    name: string,
    price: real,
    bid: real,
    ask: real,
    volume24h: real,
    spread: real,            // percent of the last price
    depth: Depth,
    flow: Flow,
    timestamp: int)

  /** The result of `analyze_price_discrepancies`. `maxDiscrepancy` is
      `None` when numpy divides by a zero mean and yields inf or nan. The
      median is not modelled. */
  datatype Analysis = Analysis(
    weighted: real,
    average: real,
    maxDiscrepancy: Option<real>,
    minPrice: real,
    maxPrice: real,
    mostLiquid: string,
    exchangeCount: nat,
    volumeTotal: real)

  function SumVolume(data: seq<ExchangeData>): real
  {
    if data == [] then 0.0 else data[0].volume24h + SumVolume(data[1..])
  }

  function SumPrice(data: seq<ExchangeData>): real
  {
    if data == [] then 0.0 else data[0].price + SumPrice(data[1..])
  }

  /** Σ price × volume. */
  function SumWeighted(data: seq<ExchangeData>): real
  {
    if data == [] then 0.0 else data[0].price * data[0].volume24h + SumWeighted(data[1..])
  }

  function MinPrice(data: seq<ExchangeData>): (m: real)
    requires data != []
    ensures forall i :: 0 <= i < |data| ==> m <= data[i].price
    ensures exists i :: 0 <= i < |data| && m == data[i].price
  {
    if |data| == 1 then data[0].price
    else
      var rest := MinPrice(data[1..]);
      assert forall i :: 1 <= i < |data| ==> data[i] == data[1..][i - 1];
      if data[0].price <= rest then data[0].price else rest
  }

  function MaxPrice(data: seq<ExchangeData>): (m: real)
    requires data != []
    ensures forall i :: 0 <= i < |data| ==> data[i].price <= m
    ensures exists i :: 0 <= i < |data| && m == data[i].price
  {
    if |data| == 1 then data[0].price
    else
      var rest := MaxPrice(data[1..]);
      assert forall i :: 1 <= i < |data| ==> data[i] == data[1..][i - 1];
      if data[0].price >= rest then data[0].price else rest
  }

  /** `max(items, key=volume)`: the first exchange of greatest volume. */
  function MostLiquidIndex(data: seq<ExchangeData>): (k: nat)
    requires data != []
    ensures k < |data|
    ensures forall i :: 0 <= i < |data| ==> data[i].volume24h <= data[k].volume24h
    ensures forall i :: 0 <= i < k ==> data[i].volume24h < data[k].volume24h
    decreases |data|
  {
    if |data| == 1 then 0
    else
      var n := |data| - 1;
      var k := MostLiquidIndex(data[..n]);
      assert forall i :: 0 <= i < n ==> data[i] == data[..n][i];
      if data[n].volume24h > data[k].volume24h then n else k
  }

  /** The volume-weighted price, or the plain mean when the volumes do not
      sum to a positive number. */
  function WeightedPrice(data: seq<ExchangeData>): real
    requires data != []
  {
    if SumVolume(data) > 0.0 then SumWeighted(data) / SumVolume(data)
    else SumPrice(data) / (|data| as real)
  }

  /** `analyze_price_discrepancies`: no data gives `{}` (here `Ok(None)`);
      with positive total volume a zero weighted price makes the
      discrepancy division raise. */
  function AnalyzePriceDiscrepancies(data: seq<ExchangeData>): (r: Result<Option<Analysis>>)
    ensures data == [] ==> r == Ok(None)
    ensures r.Raised? <==> data != [] && SumVolume(data) > 0.0 && WeightedPrice(data) == 0.0
    ensures r.Ok? && r.value.Some? ==>
      var a := r.value.value;
      && data != []
      && a.weighted == WeightedPrice(data)
      && a.average == SumPrice(data) / (|data| as real)
      && a.minPrice == MinPrice(data) && a.maxPrice == MaxPrice(data)
      && a.maxDiscrepancy == (if a.weighted == 0.0 then None else Some((a.maxPrice - a.minPrice) / a.weighted))
      && a.mostLiquid == data[MostLiquidIndex(data)].name
      && a.exchangeCount == |data|
      && a.volumeTotal == SumVolume(data)
  {
    if data == [] then Ok(None)
    else
      var total := SumVolume(data);
      var weighted := WeightedPrice(data);
      var lo := MinPrice(data);
      var hi := MaxPrice(data);
      if weighted == 0.0 && total > 0.0 then Raised("ZeroDivisionError")
      else
        var discrepancy := if weighted == 0.0 then None else Some((hi - lo) / weighted);
        Ok(Some(Analysis(weighted, SumPrice(data) / (|data| as real), discrepancy, lo, hi,
                         data[MostLiquidIndex(data)].name, |data|, total)))
  }

  /** Σ p·v lies between lo·Σv and hi·Σv when every price is in [lo, hi]
      and every volume is non-negative. */
  lemma {:induction false} WeightedSumBounds(data: seq<ExchangeData>, lo: real, hi: real)
    requires forall i :: 0 <= i < |data| ==> lo <= data[i].price <= hi && data[i].volume24h >= 0.0
    ensures lo * SumVolume(data) <= SumWeighted(data) <= hi * SumVolume(data)
    decreases |data|
  {
    if data != [] {
      var d, rest := data[0], data[1..];
      assert forall i :: 0 <= i < |rest| ==> rest[i] == data[i + 1];
      WeightedSumBounds(rest, lo, hi);
      WeightedStep(lo, hi, d.price, d.volume24h, SumVolume(rest), SumWeighted(rest));
    }
  }

  /** One more term keeps the bounds of a weighted sum. */
  lemma WeightedStep(lo: real, hi: real, p: real, v: real, s: real, w: real)
    requires lo <= p <= hi && v >= 0.0 && lo * s <= w <= hi * s
    ensures lo * (v + s) <= p * v + w <= hi * (v + s)
  {
    ScaledBetween(lo, p, hi, v);
    Distribute(lo, v, s);
    Distribute(hi, v, s);
  }

  /** Σ p lies between lo·n and hi·n when every price is in [lo, hi]. */
  lemma {:induction false} PriceSumBounds(data: seq<ExchangeData>, lo: real, hi: real)
    requires forall i :: 0 <= i < |data| ==> lo <= data[i].price <= hi
    ensures lo * (|data| as real) <= SumPrice(data) <= hi * (|data| as real)
    decreases |data|
  {
    if data != [] {
      var rest := data[1..];
      assert forall i :: 0 <= i < |rest| ==> rest[i] == data[i + 1];
      PriceSumBounds(rest, lo, hi);
      var n := |rest| as real;
      assert |data| as real == 1.0 + n;
      assert SumPrice(data) == data[0].price + SumPrice(rest);
      Distribute(lo, 1.0, n);
      Distribute(hi, 1.0, n);
    }
  }

  lemma Distribute(c: real, a: real, b: real)
    ensures c * (a + b) == c * a + c * b
  {
  }

  lemma ScaledBetween(lo: real, p: real, hi: real, v: real)
    requires lo <= p <= hi && v >= 0.0
    ensures lo * v <= p * v <= hi * v
  {
  }

  lemma NonNegativeFactor(a: real, w: real)
    requires w > 0.0 && a * w >= 0.0
    ensures a >= 0.0
  {
  }

  /** Dividing bounds on a sum by a positive weight bounds the quotient. */
  lemma QuotientBetween(lo: real, hi: real, s: real, w: real)
    requires w > 0.0 && lo * w <= s <= hi * w
    ensures lo <= s / w <= hi
  {
    var q := s / w;
    assert q * w == s;
    assert (q - lo) * w == s - lo * w;
    assert (hi - q) * w == hi * w - s;
    NonNegativeFactor(q - lo, w);
    NonNegativeFactor(hi - q, w);
  }

  /** With non-negative volumes the consensus price lies between the lowest
      and the highest exchange price, and the discrepancy is non-negative
      when that price is positive. */
  lemma ConsensusWithinRange(data: seq<ExchangeData>)
    requires data != []
    requires forall i :: 0 <= i < |data| ==> data[i].volume24h >= 0.0
    ensures MinPrice(data) <= WeightedPrice(data) <= MaxPrice(data)
  {
    var lo, hi := MinPrice(data), MaxPrice(data);
    if SumVolume(data) > 0.0 {
      WeightedBetween(data, lo, hi);
    } else {
      MeanBetween(data, lo, hi);
    }
  }

  lemma WeightedBetween(data: seq<ExchangeData>, lo: real, hi: real)
    requires SumVolume(data) > 0.0
    requires forall i :: 0 <= i < |data| ==> lo <= data[i].price <= hi && data[i].volume24h >= 0.0
    ensures lo <= SumWeighted(data) / SumVolume(data) <= hi
  {
    WeightedSumBounds(data, lo, hi);
    QuotientBetween(lo, hi, SumWeighted(data), SumVolume(data));
  }

  lemma MeanBetween(data: seq<ExchangeData>, lo: real, hi: real)
    requires data != []
    requires forall i :: 0 <= i < |data| ==> lo <= data[i].price <= hi
    ensures lo <= SumPrice(data) / (|data| as real) <= hi
  {
    PriceSumBounds(data, lo, hi);
    QuotientBetween(lo, hi, SumPrice(data), |data| as real);
  }

  lemma DiscrepancyNonNegative(data: seq<ExchangeData>)
    requires data != []
    requires AnalyzePriceDiscrepancies(data).Ok?
    requires forall i :: 0 <= i < |data| ==> data[i].price > 0.0 && data[i].volume24h >= 0.0
    ensures var a := AnalyzePriceDiscrepancies(data).value.value;
      a.maxDiscrepancy.Some? && a.maxDiscrepancy.value >= 0.0
  {
    ConsensusWithinRange(data);
    var w := WeightedPrice(data);
    assert w >= MinPrice(data) > 0.0;
    assert MaxPrice(data) - MinPrice(data) >= 0.0;
  }

  /** Prices 100, 100.5 and 101.5 with volumes 10, 5 and 5 give a
      consensus of 100.5. */
  lemma ConsensusExample()
    ensures WeightedPrice([Quote("a", 100.0, 10.0), Quote("b", 100.5, 5.0), Quote("c", 101.5, 5.0)]) == 100.5
  {
    var data := [Quote("a", 100.0, 10.0), Quote("b", 100.5, 5.0), Quote("c", 101.5, 5.0)];
    assert data[1..][1..][1..] == [];
    assert SumVolume(data) == 20.0;
    assert SumWeighted(data) == 2010.0;
  }

  /** An answer carrying only a price and a volume. */
  function Quote(name: string, price: real, volume: real): ExchangeData
  {
    ExchangeData(name, price, price, price, volume, 0.0, NoBook, Flow(0.0, 0.0, 0.0, None), 0)
  }

  // ------------------------------------------------- several exchanges

  datatype Ticker = Ticker(last: real, bid: real, ask: real, quoteVolume: real, timestamp: int)

  /** The three fetches of one exchange; `None` in place of an answer
      means one of them raised. */
  datatype Answer = Answer(ticker: Ticker, book: Option<Book>, trades: seq<Trade>)

  /** The entry `results[name]`, or `None` when building it raised: the
      spread divides by the last price, and the depth may raise. */
  function EntryFor(name: string, a: Answer): (r: Option<ExchangeData>)
    ensures r.Some? <==> a.ticker.last != 0.0 && OrderbookDepth(a.book).Ok?
    ensures r.Some? ==>
      && r.value.name == name && r.value.price == a.ticker.last
      && r.value.volume24h == a.ticker.quoteVolume
      && r.value.spread == (a.ticker.ask - a.ticker.bid) / a.ticker.last * 100.0
  {
    var t := a.ticker;
    if t.last == 0.0 then None
    else
      match OrderbookDepth(a.book)
      case Raised(_) => None
      case Ok(depth) =>
        Some(ExchangeData(name, t.last, t.bid, t.ask, t.quoteVolume, (t.ask - t.bid) / t.last * 100.0,
                          depth, AnalyzeTradeFlow(a.trades), t.timestamp))
  }

  /** An exchange contributes an entry when none of its fetches raised and
      building its entry did not raise either. */
  predicate Contributes(answer: (string, Option<Answer>))
  {
    answer.1.Some? && EntryFor(answer.0, answer.1.value).Some?
  }

  /** The `results` dict: the entries of the exchanges that answered, in
      exchange order. */
  function Responding(answers: seq<(string, Option<Answer>)>): (r: seq<ExchangeData>)
    ensures |r| <= |answers|
    decreases |answers|
  {
    if answers == [] then []
    else
      var n := |answers| - 1;
      var (name, ans) := answers[n];
      Responding(answers[..n]) + (if Contributes(answers[n]) then [EntryFor(name, ans.value).value] else [])
  }

  /** An entry is in `results` exactly when some exchange contributed it:
      a failed fetch or entry leaves its exchange out. */
  lemma {:induction false} RespondingExact(answers: seq<(string, Option<Answer>)>, e: ExchangeData)
    ensures e in Responding(answers) <==>
      exists i :: 0 <= i < |answers| && Contributes(answers[i])
                  && EntryFor(answers[i].0, answers[i].1.value) == Some(e)
    decreases |answers|
  {
    if answers != [] {
      var n := |answers| - 1;
      var init := answers[..n];
      RespondingExact(init, e);
      if exists i :: 0 <= i < |answers| && Contributes(answers[i])
                     && EntryFor(answers[i].0, answers[i].1.value) == Some(e) {
        var i :| 0 <= i < |answers| && Contributes(answers[i])
                 && EntryFor(answers[i].0, answers[i].1.value) == Some(e);
        if i < n {
          assert init[i] == answers[i];
        }
      }
      if exists i :: 0 <= i < n && Contributes(init[i])
                     && EntryFor(init[i].0, init[i].1.value) == Some(e) {
        var i :| 0 <= i < n && Contributes(init[i])
                 && EntryFor(init[i].0, init[i].1.value) == Some(e);
        assert answers[i] == init[i];
      }
    }
  }

  /** `exchange_count` counts the exchanges that answered: when every
      exchange contributes, there is one entry per exchange. */
  lemma {:induction false} RespondingAll(answers: seq<(string, Option<Answer>)>)
    requires forall i :: 0 <= i < |answers| ==> Contributes(answers[i])
    ensures |Responding(answers)| == |answers|
    decreases |answers|
  {
    if answers != [] {
      var n := |answers| - 1;
      assert forall i :: 0 <= i < n ==> answers[..n][i] == answers[i];
      RespondingAll(answers[..n]);
      assert Contributes(answers[n]);
    }
  }

  /** The entries follow the order of the exchanges: answering `a` and then
      `b` gives the entries of `a` followed by those of `b`. */
  lemma {:induction false} RespondingAppend(a: seq<(string, Option<Answer>)>, b: seq<(string, Option<Answer>)>)
    ensures Responding(a + b) == Responding(a) + Responding(b)
    decreases |b|
  {
    if b == [] {
      assert a + b == a;
    } else {
      var n := |b| - 1;
      assert (a + b)[..|a + b| - 1] == a + b[..n];
      assert (a + b)[|a + b| - 1] == b[n];
      RespondingAppend(a, b[..n]);
    }
  }

  /** One exchange gives its entry when it contributes and nothing
      otherwise. */
  lemma RespondingOne(answer: (string, Option<Answer>))
    ensures Responding([answer])
      == if Contributes(answer) then [EntryFor(answer.0, answer.1.value).value] else []
  {
    assert [answer][..0] == [];
  }

  /** The positions of the exchanges that contribute. */
  function ContributingPositions(answers: seq<(string, Option<Answer>)>): set<int>
  {
    set i | 0 <= i < |answers| && Contributes(answers[i])
  }

  /** `exchange_count`, the length of `results`, is the number of exchanges
      that contribute an entry. */
  lemma {:induction false} RespondingCount(answers: seq<(string, Option<Answer>)>)
    ensures |Responding(answers)| == |ContributingPositions(answers)|
    decreases |answers|
  {
    if answers != [] {
      var n := |answers| - 1;
      var init := answers[..n];
      RespondingCount(init);
      var before := ContributingPositions(init);
      assert n !in before;
      if Contributes(answers[n]) {
        assert ContributingPositions(answers) == before + {n} by {
          forall i ensures i in ContributingPositions(answers) <==> i in before + {n} {
            if 0 <= i < n { assert init[i] == answers[i]; }
          }
        }
      } else {
        assert ContributingPositions(answers) == before by {
          forall i ensures i in ContributingPositions(answers) <==> i in before {
            if 0 <= i < n { assert init[i] == answers[i]; }
          }
        }
      }
    }
  }

  /** What `get_multi_exchange_data` returns for a symbol. */
  datatype MarketData = MarketData(
    exchanges: seq<ExchangeData>,
    analysis: Analysis,
    consensus: real,
    reliable: bool,
    symbol: string)

  /** The market data built from the exchanges that answered: none gives
      `None`; otherwise the consensus is the weighted price and the data is
      reliable exactly when the discrepancy is a number below 2%. */
  function MarketDataOf(symbol: string, results: seq<ExchangeData>): (r: Result<Option<MarketData>>)
    ensures results == [] ==> r == Ok(None)
    ensures r.Raised? <==> AnalyzePriceDiscrepancies(results).Raised?
    ensures r.Ok? && r.value.Some? ==>
      var m := r.value.value;
      && results != []
      && m.exchanges == results && m.symbol == symbol
      && m.consensus == WeightedPrice(results)
      && m.analysis.exchangeCount == |results|
      && (m.reliable <==> m.analysis.maxDiscrepancy.Some? && m.analysis.maxDiscrepancy.value < 0.02)
  {
    if results == [] then Ok(None)
    else
      match AnalyzePriceDiscrepancies(results)
      case Raised(e) => Raised(e)
      case Ok(a) =>
        var analysis := a.value;
        var reliable := analysis.maxDiscrepancy.Some? && analysis.maxDiscrepancy.value < 0.02;
        Ok(Some(MarketData(results, analysis, analysis.weighted, reliable, symbol)))
  }

  /** `get_multi_exchange_data`: the loop over the exchanges fills
      `results`, skipping every exchange whose answer raised. */
  method GetMultiExchangeData(symbol: string, answers: seq<(string, Option<Answer>)>)
    returns (r: Result<Option<MarketData>>)
    ensures r == MarketDataOf(symbol, Responding(answers))
  {
    var results: seq<ExchangeData> := [];
    var i := 0;
    while i < |answers|
      invariant 0 <= i <= |answers|
      invariant results == Responding(answers[..i])
    {
      assert answers[..i + 1][..i] == answers[..i];
      var (name, ans) := answers[i];
      if ans.Some? {
        var entry := EntryFor(name, ans.value);
        if entry.Some? {
          results := results + [entry.value];
        }
      }
      i := i + 1;
    }
    assert answers[..i] == answers;
    r := MarketDataOf(symbol, results);
  }

  // ---------------------------------------------------- price validation

  /** The answer of `validate_signal_price`. `difference` is `None` when
      numpy divides by a zero consensus. */
  datatype Validation =
    | NoData
    | Checked(valid: bool, difference: Option<real>, consensus: real, signalPrice: real,
              recommendation: string)

  /** `validate_signal_price` given the market data for the symbol. */
  function ValidateSignalPrice(market: Result<Option<MarketData>>, signalPrice: real)
    : (r: Result<Validation>)
    ensures market.Raised? <==> r.Raised?
    ensures market == Ok(None) <==> r == Ok(NoData)
    ensures r.Ok? && r.value.Checked? ==>
      var v := r.value;
      && market.Ok? && market.value.Some?
      && v.consensus == market.value.value.analysis.weighted
      && (v.valid <==> v.difference.Some? && v.difference.value < 0.01)
      && (v.recommendation == "VALID" <==> v.valid)
      && (v.consensus != 0.0 ==> v.difference == Some(Abs(signalPrice - v.consensus) / v.consensus))
  {
    match market
    case Raised(e) => Raised(e)
    case Ok(None) => Ok(NoData)
    case Ok(Some(m)) =>
      var consensus := m.analysis.weighted;
      var difference := if consensus == 0.0 then None else Some(Abs(signalPrice - consensus) / consensus);
      var valid := difference.Some? && difference.value < 0.01;
      Ok(Checked(valid, difference, consensus, signalPrice, if valid then "VALID" else "CHECK_PRICE"))
  }

  /** A signal priced within 1% of a positive consensus is valid; one at 1%
      or more is not. */
  lemma ValidWithinOnePercent(m: MarketData, signalPrice: real)
    requires m.analysis.weighted > 0.0
    ensures var r := ValidateSignalPrice(Ok(Some(m)), signalPrice);
      && r.Ok? && r.value.Checked?
      && (r.value.valid <==> Abs(signalPrice - m.analysis.weighted) < 0.01 * m.analysis.weighted)
  {
    RelativeBelow(Abs(signalPrice - m.analysis.weighted), m.analysis.weighted, 0.01);
  }

  /** For a positive base, a relative difference is below a bound exactly
      when the absolute difference is below that share of the base. */
  lemma RelativeBelow(d: real, c: real, bound: real)
    requires c > 0.0
    ensures d / c < bound <==> d < bound * c
  {
    var q := d / c;
    assert q * c == d;
    assert (bound - q) * c == bound * c - d;
    PositiveFactor(bound - q, c);
  }

  lemma PositiveFactor(a: real, w: real)
    requires w > 0.0
    ensures a * w > 0.0 <==> a > 0.0
  {
  }
}
