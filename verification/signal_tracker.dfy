/** The working set of open signals and the take-profit / stop-loss exit
    rule. `add_signal` keeps one open signal per symbol; one iteration of
    `start_monitoring` checks every open signal against one batch of prices,
    closes the matching history record, notifies premium users and only then
    drops the signal. The batch of prices is a map from symbol to last price
    (a symbol the exchange did not return is an absent key). Each single
    Telegram send is guarded and never raises; what can raise in
    `notify_all_premium` is the query for the PREMIUM users, modelled by the
    set of symbols whose notification call fails at that query. */
module SignalTracker {
  import opened Common
  import opened Text
  import opened Signals
  import Database
  import AdvancedSignalGenerator

  datatype Outcome = TakeProfit | StopLoss

  /** The if/elif of the pass: take-profit is checked first, so when both
      levels are crossed the outcome is take-profit; a side other than
      "buy" or "sell" never closes. */
  function Decide(sig: Signal, price: real): (o: Option<Outcome>)
    ensures o == Some(TakeProfit) <==>
      (sig.side == "buy" && price >= sig.tp) || (sig.side == "sell" && price <= sig.tp)
    ensures o == Some(StopLoss) <==>
      && !((sig.side == "buy" && price >= sig.tp) || (sig.side == "sell" && price <= sig.tp))
      && ((sig.side == "buy" && price <= sig.sl) || (sig.side == "sell" && price >= sig.sl))
    ensures sig.side != "buy" && sig.side != "sell" ==> o == None
  {
    if (sig.side == "buy" && price >= sig.tp) || (sig.side == "sell" && price <= sig.tp) then
      Some(TakeProfit)
    else if (sig.side == "buy" && price <= sig.sl) || (sig.side == "sell" && price >= sig.sl) then
      Some(StopLoss)
    else
      None
  }

  /** The status written to the history record for an outcome. */
  function StatusOf(o: Outcome): (status: string)
    ensures status == "TP" <==> o == TakeProfit
    ensures status == "SL" <==> o == StopLoss
  {
    match o
    case TakeProfit => "TP"
    case StopLoss => "SL"
  }

  /** The status recorded for a closing is "TP" exactly when the take-profit
      test fired on that price. */
  lemma StatusFollowsTakeProfitTest(sig: Signal, price: real, o: Outcome)
    requires Decide(sig, price) == Some(o)
    ensures StatusOf(o) == "TP" <==>
      (sig.side == "buy" && price >= sig.tp) || (sig.side == "sell" && price <= sig.tp)
  {
  }

  // ------------------------------------------- the status as the source derives it

  /** The notification text of a closing; `priceText` is the price as Python
      formats it. */
  function ResultText(o: Outcome, symbol: string, priceText: string): string
  {
    match o
    case TakeProfit => "🎯 **TAKE PROFIT** по " + symbol + "!\nЦена достигла " + priceText
    case StopLoss => "🛑 **STOP LOSS** по " + symbol + ".\nЦена: " + priceText
  }

  /** The status as written: "TP" when the text contains "TAKE", else "SL". */
  function StatusFromText(text: string): string
  {
    if Contains(text, "TAKE") then "TP" else "SL"
  }

  /** A take-profit text always yields "TP". */
  lemma TakeProfitTextGivesTP(symbol: string, priceText: string)
    ensures StatusFromText(ResultText(TakeProfit, symbol, priceText)) == "TP"
  {
    var t := ResultText(TakeProfit, symbol, priceText);
    assert t[|"🎯 **"|..|"🎯 **"| + 4] == "TAKE";
    ContainsAt(t, "TAKE", |"🎯 **"|);
  }

  /** A stop-loss on a symbol whose name contains "TAKE" is recorded as "TP":
      the text-based status disagrees with the outcome. */
  lemma StopLossOnStakeRecordedAsTP()
    ensures StatusFromText(ResultText(StopLoss, "STAKE/USDT", "0.45")) == "TP"
    ensures StatusOf(StopLoss) == "SL"
  {
    var t := ResultText(StopLoss, "STAKE/USDT", "0.45");
    assert t[|"🛑 **STOP LOSS** по S"|..|"🛑 **STOP LOSS** по S"| + 4] == "TAKE";
    ContainsAt(t, "TAKE", |"🛑 **STOP LOSS** по S"|);
  }

  /** The status as written agrees with the intended one whenever neither
      the symbol nor the printed price contains "TAKE". */
  lemma StatusTextAgrees(o: Outcome, symbol: string, priceText: string)
    requires !Contains(symbol, "TAKE") && !Contains(priceText, "TAKE")
    ensures StatusFromText(ResultText(o, symbol, priceText)) == StatusOf(o)
  {
    match o
    case TakeProfit =>
      TakeProfitTextGivesTP(symbol, priceText);
    case StopLoss =>
      StopLossTextShape(symbol, priceText);
      StopLossPiecesWithoutTake(symbol, priceText);
  }

  /** The stop-loss text cut at the two single characters around the symbol
      and the one before the price. */
  lemma StopLossTextShape(symbol: string, priceText: string)
    ensures ResultText(StopLoss, symbol, priceText)
      == "🛑 **STOP LOSS** по" + [' '] + symbol + ['.'] + "\nЦена:" + [' '] + priceText
  {
    assert "🛑 **STOP LOSS** по " == "🛑 **STOP LOSS** по" + [' '];
    assert ".\nЦена: " == ['.'] + "\nЦена:" + [' '];
  }

  /** No piece of the stop-loss text, nor any place where two pieces meet,
      holds "TAKE". */
  lemma StopLossPiecesWithoutTake(symbol: string, priceText: string)
    requires !Contains(symbol, "TAKE") && !Contains(priceText, "TAKE")
    ensures !Contains("🛑 **STOP LOSS** по" + [' '] + symbol + ['.'] + "\nЦена:" + [' '] + priceText, "TAKE")
  {
    PiecesWithoutTake("🛑 **STOP LOSS** по", symbol, "\nЦена:", priceText);
  }

  /** Pieces without an 'A', joined by characters outside "TAKE". */
  lemma PiecesWithoutTake(head: string, symbol: string, mid: string, priceText: string)
    requires 'A' !in head && 'A' !in mid
    requires !Contains(symbol, "TAKE") && !Contains(priceText, "TAKE")
    ensures !Contains(head + [' '] + symbol + ['.'] + mid + [' '] + priceText, "TAKE")
  {
    MissingCharNotContained(head, "TAKE", 'A');
    MissingCharNotContained(mid, "TAKE", 'A');
    NotContainedAcrossThree(head, ' ', symbol, '.', mid, ' ', priceText, "TAKE");
  }

  /** The symbols the generator scans contain no "TAKE", so for them the
      status as written and the intended status coincide. */
  lemma GeneratorSymbolsAgree(o: Outcome, symbol: string, priceText: string)
    requires symbol in AdvancedSignalGenerator.DefaultSymbols
    requires !Contains(priceText, "TAKE")
    ensures StatusFromText(ResultText(o, symbol, priceText)) == StatusOf(o)
  {
    assert 'K' !in symbol;
    MissingCharNotContained(symbol, "TAKE", 'K');
    StatusTextAgrees(o, symbol, priceText);
  }

  // ------------------------------------------------------------ one pass

  /** A signal that closed during a pass, at `price`, with `outcome`. */
  datatype Closing = Closing(signal: Signal, price: real, outcome: Outcome)

  /** What a pass has produced so far: the signals still active, the history
      rows, the closings, and whether the pass has run without raising. */
  datatype PassState = PassState(
    kept: seq<Signal>,
    rows: seq<Database.SignalRecord>,
    closed: seq<Closing>,
    completed: bool)

  /** A signal whose exit rule fires on the batch. */
  predicate Closes(sig: Signal, prices: map<string, real>)
  {
    sig.symbol in prices && Decide(sig, prices[sig.symbol]).Some?
  }

  /** The closing the exit rule produces for `sig` on the batch. */
  function ClosingOf(sig: Signal, prices: map<string, real>): Closing
    requires Closes(sig, prices)
  {
    Closing(sig, prices[sig.symbol], Decide(sig, prices[sig.symbol]).value)
  }

  /** `close_signal_in_db` for the closing the exit rule produces for `sig`,
      with the status of its outcome; `None` means it raised. */
  function CloseFor(sig: Signal, prices: map<string, real>, rows: seq<Database.SignalRecord>)
    : Option<seq<Database.SignalRecord>>
    requires Closes(sig, prices)
  {
    var c := ClosingOf(sig, prices);
    Database.CloseRows(rows, sig.symbol, c.price, StatusOf(c.outcome))
  }

  /** Handling `sig` raises nothing: its symbol has a price, and if its exit
      rule fires, the history update goes through and the PREMIUM-user query
      of the notification does not fail. */
  predicate Proceeds(sig: Signal, prices: map<string, real>, notifyFails: set<string>,
                     rows: seq<Database.SignalRecord>)
  {
    sig.symbol in prices
    && (Closes(sig, prices) ==> CloseFor(sig, prices, rows).Some? && sig.symbol !in notifyFails)
  }

  /** What handling one signal leads to: the pass goes on from `next`, or it
      stops in `final` because something raised. */
  datatype StepResult = Continue(next: PassState) | Stop(final: PassState)

  /** One iteration of the pass for `sig`, with `rest` the signals after it in
      the copy. A missing price raises a `KeyError`; a raising history update
      stops the pass before anything is recorded; a failing PREMIUM-user query
      in the notification stops it after the history update. In every stopping case `sig` and the
      signals after it stay active. */
  function Step(sig: Signal, rest: seq<Signal>, prices: map<string, real>,
                notifyFails: set<string>, st: PassState): (r: StepResult)
    ensures sig.symbol !in prices ==> r.Stop?
    ensures r.Continue? <==> Proceeds(sig, prices, notifyFails, st.rows)
    ensures r.Stop? ==> r.final.kept == st.kept + [sig] + rest && !r.final.completed
    ensures r.Stop? ==>
      (r.final.closed == st.closed && r.final.rows == st.rows)
      || (&& Closes(sig, prices) && r.final.closed == st.closed + [ClosingOf(sig, prices)]
          && CloseFor(sig, prices, st.rows) == Some(r.final.rows))
    ensures r.Continue? ==>
      && sig.symbol in prices
      && r.next.completed == st.completed
      && r.next.kept == st.kept + (if Closes(sig, prices) then [] else [sig])
      && r.next.closed == st.closed + (if Closes(sig, prices) then [ClosingOf(sig, prices)] else [])
      && (Closes(sig, prices) ==> sig.symbol !in notifyFails && CloseFor(sig, prices, st.rows) == Some(r.next.rows))
      && (!Closes(sig, prices) ==> r.next.rows == st.rows)
  {
    if sig.symbol !in prices then Stop(st.(kept := st.kept + [sig] + rest, completed := false))
    else
      var price := prices[sig.symbol];
      match Decide(sig, price)
      case None => Continue(st.(kept := st.kept + [sig]))
      case Some(o) =>
        match Database.CloseRows(st.rows, sig.symbol, price, StatusOf(o))
        case None => Stop(st.(kept := st.kept + [sig] + rest, completed := false))
        case Some(rows) =>
          var closed := st.closed + [Closing(sig, price, o)];
          if sig.symbol in notifyFails then
            Stop(PassState(st.kept + [sig] + rest, rows, closed, false))
          else
            Continue(st.(rows := rows, closed := closed))
  }

  /** The pass over `sigs` (the copy of the list) from state `st`. */
  function RunPass(sigs: seq<Signal>, prices: map<string, real>, notifyFails: set<string>,
                   st: PassState): PassState
    decreases |sigs|
  {
    if sigs == [] then st
    else
      match Step(sigs[0], sigs[1..], prices, notifyFails, st)
      case Stop(final) => final
      case Continue(next) => RunPass(sigs[1..], prices, notifyFails, next)
  }

  /** The pass from position `i` of the copy reaches `target` either by
      stopping at `i` or by going on from `i + 1`. */
  lemma PassAdvance(sigs: seq<Signal>, i: nat, prices: map<string, real>,
                    notifyFails: set<string>, st: PassState, target: PassState, step: StepResult)
    requires i < |sigs| && RunPass(sigs[i..], prices, notifyFails, st) == target
    requires step == Step(sigs[i], sigs[i + 1..], prices, notifyFails, st)
    ensures step.Stop? ==> step.final == target
    ensures step.Continue? ==> RunPass(sigs[i + 1..], prices, notifyFails, step.next) == target
  {
    assert sigs[i..][0] == sigs[i] && sigs[i..][1..] == sigs[i + 1..];
  }

  /** A pass that has handled every signal of the copy is finished. */
  lemma PassEnd(sigs: seq<Signal>, i: nat, prices: map<string, real>,
                notifyFails: set<string>, st: PassState, target: PassState)
    requires i == |sigs| && RunPass(sigs[i..], prices, notifyFails, st) == target
    ensures st == target
  {
    assert sigs[i..] == [];
  }

  /** The signals of `sigs` whose exit rule does not fire, in order. */
  function Survivors(sigs: seq<Signal>, prices: map<string, real>): seq<Signal>
  {
    if sigs == [] then []
    else (if Closes(sigs[0], prices) then [] else [sigs[0]]) + Survivors(sigs[1..], prices)
  }

  /** A closing is one the exit rule produced on the batch price. */
  predicate Recorded(c: Closing, prices: map<string, real>)
  {
    c.signal.symbol in prices && c.price == prices[c.signal.symbol]
    && Decide(c.signal, c.price) == Some(c.outcome)
  }

  /** How many signals of `sigs` a pass from `st` handles before it stops. */
  function Reached(sigs: seq<Signal>, prices: map<string, real>, notifyFails: set<string>,
                   st: PassState): (k: nat)
    ensures k <= |sigs|
    decreases |sigs|
  {
    if sigs == [] then 0
    else
      match Step(sigs[0], sigs[1..], prices, notifyFails, st)
      case Stop(_) => 0
      case Continue(next) => 1 + Reached(sigs[1..], prices, notifyFails, next)
  }

  /** Unfolds `Survivors` once on a non-empty prefix. */
  lemma SurvivorsOfPrefix(sigs: seq<Signal>, prices: map<string, real>, k: nat)
    requires 1 <= k <= |sigs|
    ensures Survivors(sigs[..k], prices)
      == (if Closes(sigs[0], prices) then [] else [sigs[0]]) + Survivors(sigs[1..][..k - 1], prices)
    ensures sigs[k..] == sigs[1..][k - 1..]
  {
    assert sigs[..k][0] == sigs[0] && sigs[..k][1..] == sigs[1..][..k - 1];
  }

  lemma ConcatAssoc<T>(a: seq<T>, b: seq<T>, c: seq<T>, d: seq<T>)
    ensures (a + b) + c + d == a + (b + c) + d
  {
  }

  /** After a pass the active list is the old one, in order, minus the signals
      that closed before the pass stopped: the signals before the stopping
      point that did not close, then every signal from that point on. */
  lemma {:induction false} PassKeepsOrder(sigs: seq<Signal>, prices: map<string, real>,
                                          notifyFails: set<string>, st: PassState)
    ensures var k := Reached(sigs, prices, notifyFails, st);
      RunPass(sigs, prices, notifyFails, st).kept
        == st.kept + Survivors(sigs[..k], prices) + sigs[k..]
    decreases |sigs|
  {
    var r := RunPass(sigs, prices, notifyFails, st);
    var k := Reached(sigs, prices, notifyFails, st);
    if sigs == [] {
      assert sigs[..k] == [] && sigs[k..] == [];
    } else {
      var sig := sigs[0];
      var rest := sigs[1..];
      match Step(sig, rest, prices, notifyFails, st) {
        case Stop(final) =>
          assert sigs[..k] == [] && sigs[k..] == [sig] + rest;
        case Continue(next) =>
          var k' := Reached(rest, prices, notifyFails, next);
          assert r == RunPass(rest, prices, notifyFails, next);
          assert k == k' + 1;
          PassKeepsOrder(rest, prices, notifyFails, next);
          SurvivorsOfPrefix(sigs, prices, k);
          var head := if Closes(sig, prices) then [] else [sig];
          assert next.kept == st.kept + head;
          ConcatAssoc(st.kept, head, Survivors(rest[..k'], prices), rest[k'..]);
      }
    }
  }

  /** A pass from a clean state completes exactly when it handled every
      signal; then every symbol had a price and the list is the old one
      minus exactly the signals whose exit rule fired. */
  lemma {:induction false} PassCompletes(sigs: seq<Signal>, prices: map<string, real>,
                                         notifyFails: set<string>, st: PassState)
    requires st.completed
    ensures RunPass(sigs, prices, notifyFails, st).completed
      <==> Reached(sigs, prices, notifyFails, st) == |sigs|
    ensures RunPass(sigs, prices, notifyFails, st).completed ==>
      && (forall s :: s in sigs ==> s.symbol in prices)
      && RunPass(sigs, prices, notifyFails, st).kept == st.kept + Survivors(sigs, prices)
    decreases |sigs|
  {
    if sigs != [] {
      var sig := sigs[0];
      var rest := sigs[1..];
      match Step(sig, rest, prices, notifyFails, st) {
        case Stop(final) =>
        case Continue(next) =>
          PassCompletes(rest, prices, notifyFails, next);
          assert sigs == [sig] + rest;
      }
    }
    PassKeepsOrder(sigs, prices, notifyFails, st);
    assert sigs[..|sigs|] == sigs && sigs[|sigs|..] == [];
  }

  /** A signal leaves the list only after its closing was recorded and its
      notification went out; every closing is one the exit rule produced, and
      closings and kept signals are only ever added. */
  lemma {:induction false} RemovedOnlyWhenClosed(sigs: seq<Signal>, prices: map<string, real>,
                                                 notifyFails: set<string>, st: PassState)
    requires forall c :: c in st.closed ==> Recorded(c, prices)
    ensures var r := RunPass(sigs, prices, notifyFails, st);
      && (forall c :: c in r.closed ==> Recorded(c, prices))
      && (forall c :: c in st.closed ==> c in r.closed)
      && (forall s :: s in st.kept ==> s in r.kept)
      && (forall s :: s in sigs && s !in r.kept ==>
            s.symbol !in notifyFails && exists c :: c in r.closed && c.signal == s)
    decreases |sigs|
  {
    if sigs != [] {
      var sig := sigs[0];
      var rest := sigs[1..];
      var r := RunPass(sigs, prices, notifyFails, st);
      assert sigs == [sig] + rest;
      match Step(sig, rest, prices, notifyFails, st) {
        case Stop(final) =>
          assert sig in r.kept;
        case Continue(next) =>
          RemovedOnlyWhenClosed(rest, prices, notifyFails, next);
          if Closes(sig, prices) {
            assert ClosingOf(sig, prices) in next.closed;
          } else {
            assert sig in next.kept;
          }
      }
    }
  }

  // ------------------------------------------------- the history rows of a pass

  /** `after` is `before` with every OPEN record of a closed symbol closed at
      that closing's price with its status, and every other record as it
      was. */
  predicate ClosedBy(before: seq<Database.SignalRecord>, after: seq<Database.SignalRecord>,
                     closings: seq<Closing>)
  {
    && |after| == |before|
    && (forall c, i :: c in closings && 0 <= i < |before| && Database.IsOpenFor(before[i], c.signal.symbol) ==>
          before[i].entryPrice != 0.0
          && after[i] == Database.CloseRecord(before[i], c.price, StatusOf(c.outcome)))
    && (forall i :: 0 <= i < |before| && (forall c :: c in closings ==> !Database.IsOpenFor(before[i], c.signal.symbol)) ==>
          after[i] == before[i])
  }

  /** One successful history update is a `ClosedBy` step. */
  lemma CloseForClosedBy(sig: Signal, prices: map<string, real>, rows: seq<Database.SignalRecord>,
                         after: seq<Database.SignalRecord>)
    requires Closes(sig, prices) && CloseFor(sig, prices, rows) == Some(after)
    ensures ClosedBy(rows, after, [ClosingOf(sig, prices)])
  {
    var c := ClosingOf(sig, prices);
    Database.CloseRowsEffect(rows, sig.symbol, c.price, StatusOf(c.outcome));
  }

  /** Closings of different symbols compose: closing `c0` and then the
      `later` ones is `ClosedBy` all of them. */
  lemma ClosedByCompose(a: seq<Database.SignalRecord>, b: seq<Database.SignalRecord>,
                        c: seq<Database.SignalRecord>, c0: Closing, later: seq<Closing>)
    requires ClosedBy(a, b, [c0]) && ClosedBy(b, c, later)
    requires forall x :: x in later ==> x.signal.symbol != c0.signal.symbol
    ensures ClosedBy(a, c, [c0] + later)
  {
    forall i | 0 <= i < |a|
      ensures Database.IsOpenFor(a[i], c0.signal.symbol) ==> c[i] == b[i]
      ensures !Database.IsOpenFor(a[i], c0.signal.symbol) ==> b[i] == a[i]
    {
      if Database.IsOpenFor(a[i], c0.signal.symbol) {
        assert c0 in [c0];
        assert b[i].status == StatusOf(c0.outcome);
        assert forall x :: x in later ==> !Database.IsOpenFor(b[i], x.signal.symbol);
      } else {
        assert forall x :: x in [c0] ==> !Database.IsOpenFor(a[i], x.signal.symbol);
      }
    }
    assert c0 in [c0];
  }

  /** A symbol no closing touched stays closable. */
  lemma ClosableAfter(before: seq<Database.SignalRecord>, after: seq<Database.SignalRecord>,
                      closings: seq<Closing>, symbol: string)
    requires ClosedBy(before, after, closings) && Database.Closable(before, symbol)
    requires forall x :: x in closings ==> x.signal.symbol != symbol
    ensures Database.Closable(after, symbol)
  {
    forall i | 0 <= i < |before|
      ensures Database.IsOpenFor(after[i], symbol) ==> after[i] == before[i]
    {
      if exists x :: x in closings && Database.IsOpenFor(before[i], x.signal.symbol) {
        var x :| x in closings && Database.IsOpenFor(before[i], x.signal.symbol);
        assert after[i].status == StatusOf(x.outcome);
      }
    }
  }

  /** The history rows after a pass over signals of distinct symbols: every
      OPEN record of a symbol that closed during the pass now carries that
      closing's exit price, status and profit, every other record is
      unchanged, and every new closing belongs to a signal of the pass. */
  lemma {:induction false} PassClosesRows(sigs: seq<Signal>, prices: map<string, real>,
                                          notifyFails: set<string>, st: PassState)
    requires DistinctSymbols(sigs)
    ensures var r := RunPass(sigs, prices, notifyFails, st);
      && |st.closed| <= |r.closed| && r.closed[..|st.closed|] == st.closed
      && (forall c :: c in r.closed[|st.closed|..] ==> c.signal in sigs)
      && ClosedBy(st.rows, r.rows, r.closed[|st.closed|..])
    decreases |sigs|
  {
    var r := RunPass(sigs, prices, notifyFails, st);
    if sigs == [] {
      assert r.closed[|st.closed|..] == [];
    } else {
      var sig := sigs[0];
      var rest := sigs[1..];
      assert forall i :: 0 <= i < |rest| ==> rest[i] == sigs[i + 1];
      match Step(sig, rest, prices, notifyFails, st) {
        case Stop(final) =>
          if final.closed == st.closed && final.rows == st.rows {
            assert r.closed[|st.closed|..] == [];
          } else {
            assert r.closed[|st.closed|..] == [ClosingOf(sig, prices)];
            CloseForClosedBy(sig, prices, st.rows, final.rows);
          }
        case Continue(next) =>
          PassClosesRows(rest, prices, notifyFails, next);
          var later := r.closed[|next.closed|..];
          forall x | x in later ensures x.signal.symbol != sig.symbol {
            var j :| 0 <= j < |rest| && rest[j] == x.signal;
            assert sigs[j + 1] == x.signal && sigs[0] == sig;
          }
          if Closes(sig, prices) {
            var c0 := ClosingOf(sig, prices);
            assert r.closed[|st.closed|..] == [c0] + later;
            CloseForClosedBy(sig, prices, st.rows, next.rows);
            ClosedByCompose(st.rows, next.rows, r.rows, c0, later);
          } else {
            assert r.closed[|st.closed|..] == later;
          }
      }
    }
  }

  /** A pass over signals of distinct symbols completes when every symbol has
      a price and every signal whose exit rule fires has a closable history
      and a working notification; the list then loses exactly the signals
      that closed. */
  lemma {:induction false} PassCompletesWhenClosable(sigs: seq<Signal>, prices: map<string, real>,
                                                     notifyFails: set<string>, st: PassState)
    requires st.completed && DistinctSymbols(sigs)
    requires forall s :: s in sigs ==> s.symbol in prices
    requires forall s :: s in sigs && Closes(s, prices) ==>
      s.symbol !in notifyFails && Database.Closable(st.rows, s.symbol)
    ensures RunPass(sigs, prices, notifyFails, st).completed
    ensures RunPass(sigs, prices, notifyFails, st).kept == st.kept + Survivors(sigs, prices)
    decreases |sigs|
  {
    if sigs != [] {
      var sig := sigs[0];
      var rest := sigs[1..];
      assert forall i :: 0 <= i < |rest| ==> rest[i] == sigs[i + 1];
      assert sig in sigs;
      if Closes(sig, prices) {
        var c := ClosingOf(sig, prices);
        Database.CloseRowsEffect(st.rows, sig.symbol, c.price, StatusOf(c.outcome));
      }
      assert Proceeds(sig, prices, notifyFails, st.rows);
      var next := Step(sig, rest, prices, notifyFails, st).next;
      forall s | s in rest && Closes(s, prices)
        ensures s.symbol !in notifyFails && Database.Closable(next.rows, s.symbol)
      {
        var j :| 0 <= j < |rest| && rest[j] == s;
        assert sigs[j + 1] == s && sigs[0] == sig;
        if Closes(sig, prices) {
          CloseForClosedBy(sig, prices, st.rows, next.rows);
          ClosableAfter(st.rows, next.rows, [ClosingOf(sig, prices)], s.symbol);
        }
      }
      PassCompletesWhenClosable(rest, prices, notifyFails, next);
    }
    PassCompletes(sigs, prices, notifyFails, st);
  }

  // ------------------------------------------------------------ the tracker

  class Tracker {
    /** `active_signals`, in insertion order. */
    var active: seq<Signal>

    /** One open signal per symbol. */
    predicate Valid()
      reads this
    {
      DistinctSymbols(active)
    }

    constructor ()
      ensures Valid() && active == []
    {
      active := [];
    }

    /** `add_signal`: a signal for a symbol already tracked is ignored;
        otherwise a history record is saved and then the signal is appended.
        `saveFails` says that `save_new_signal` raises: nothing is saved or
        appended and `ok` is false, the exception going up to the caller. */
    method AddSignal(sig: Signal, history: Database.SignalHistoryTable, now: int, saveFails: bool)
      returns (ok: bool)
      requires Valid() && history.Valid()
      modifies this, history
      ensures Valid() && history.Valid()
      ensures ok <==> HasSymbol(old(active), sig.symbol) || !saveFails
      ensures HasSymbol(old(active), sig.symbol) || saveFails ==>
        active == old(active) && history.rows == old(history.rows)
      ensures !HasSymbol(old(active), sig.symbol) && !saveFails ==>
        && active == old(active) + [sig]
        && history.rows == old(history.rows)
             + [Database.SignalRecord(|old(history.rows)| + 1, sig.symbol, sig.side, sig.entry,
                                      None, "OPEN", None, now)]
    {
      var i := 0;
      while i < |active|
        invariant 0 <= i <= |active|
        invariant forall j :: 0 <= j < i ==> active[j].symbol != sig.symbol
      {
        if active[i].symbol == sig.symbol {
          return true;
        }
        i := i + 1;
      }
      if saveFails {
        return false;
      }
      var _ := history.SaveNewSignal(sig.symbol, sig.side, sig.entry, now);
      active := active + [sig];
      ok := true;
    }

    /** The body of the pass for signal `i` of the copy `snapshot`: `st` is
        the state the pass reached before it, and `target` where the pass
        from there ends. `stop` reports that something raised and the pass
        ends here; otherwise `next` is the state after this signal. */
    method CheckSignal(snapshot: seq<Signal>, i: nat, prices: map<string, real>,
                       history: Database.SignalHistoryTable, notifyFails: set<string>,
                       ghost st: PassState, ghost target: PassState, closedBefore: seq<Closing>)
      returns (closed: seq<Closing>, stop: bool, ghost next: PassState)
      requires i < |snapshot| && Valid() && history.Valid()
      requires active == st.kept + snapshot[i..]
      requires st == PassState(st.kept, history.rows, closedBefore, true)
      requires RunPass(snapshot[i..], prices, notifyFails, st) == target
      modifies this, history
      ensures Valid() && history.Valid()
      ensures stop ==> PassState(active, history.rows, closed, false) == target
      ensures !stop ==>
        && next == PassState(next.kept, history.rows, closed, true)
        && active == next.kept + snapshot[i + 1..]
        && RunPass(snapshot[i + 1..], prices, notifyFails, next) == target
    {
      var sig := snapshot[i];
      ghost var rest := snapshot[i + 1..];
      ghost var step := Step(sig, rest, prices, notifyFails, st);
      PassAdvance(snapshot, i, prices, notifyFails, st, target, step);
      assert active == st.kept + [sig] + rest by {
        assert snapshot[i..] == [sig] + rest;
      }
      closed, stop, next := closedBefore, true, st;
      if sig.symbol !in prices {
        return;
      }
      var price := prices[sig.symbol];
      var outcome := Decide(sig, price);
      if outcome.Some? {
        var ok := history.CloseSignal(sig.symbol, price, StatusOf(outcome.value));
        if !ok {
          return;
        }
        closed := closed + [Closing(sig, price, outcome.value)];
        if sig.symbol in notifyFails {
          return;
        }
        DistinctWithout(st.kept, sig, rest);
        RemoveFirstAt(st.kept, sig, rest);
        active := RemoveFirst(active, sig);
      }
      stop := false;
      next := step.next;
    }

    /** One price-check pass over a copy of `active_signals`. */
    method PollPass(prices: map<string, real>, history: Database.SignalHistoryTable,
                    notifyFails: set<string>)
      returns (closed: seq<Closing>, completed: bool)
      requires Valid() && history.Valid()
      modifies this, history
      ensures Valid() && history.Valid()
      ensures PassState(active, history.rows, closed, completed)
        == RunPass(old(active), prices, notifyFails, PassState([], old(history.rows), [], true))
    {
      var snapshot := active;
      closed := [];
      completed := true;
      ghost var st := PassState([], history.rows, closed, true);
      ghost var target := RunPass(snapshot, prices, notifyFails, st);
      var i := 0;
      while i < |snapshot|
        invariant 0 <= i <= |snapshot|
        invariant Valid() && history.Valid()
        invariant st == PassState(st.kept, history.rows, closed, true)
        invariant active == st.kept + snapshot[i..]
        invariant RunPass(snapshot[i..], prices, notifyFails, st) == target
      {
        var stop;
        closed, stop, st := CheckSignal(snapshot, i, prices, history, notifyFails, st, target, closed);
        if stop {
          completed := false;
          return;
        }
        i := i + 1;
      }
      PassEnd(snapshot, i, prices, notifyFails, st, target);
    }
  }

  // ------------------------------------------------------------ examples

  /** A buy at 100 with take-profit 103 and stop-loss 98.5, and its record. */
  const ExampleSignal: Signal := Signal("BTC/USDT", "buy", 100.0, 103.0, 98.5, "1h")
  const ExampleRow: Database.SignalRecord :=
    Database.SignalRecord(1, "BTC/USDT", "buy", 100.0, None, "OPEN", None, 0)

  /** At 103.2 the signal closes at take-profit with a 3.2% profit. */
  lemma ExampleTakeProfit()
    ensures var r := RunPass([ExampleSignal], map["BTC/USDT" := 103.2], {},
                             PassState([], [ExampleRow], [], true));
      && r.kept == [] && r.completed
      && r.rows == [ExampleRow.(exitPrice := Some(103.2), status := "TP", profitPct := Some(3.2))]
  {
    assert Database.OpenIndices([ExampleRow], "BTC/USDT") == [0];
  }

  /** At 98.0 the signal closes at stop-loss with a 2% loss. */
  lemma ExampleStopLoss()
    ensures var r := RunPass([ExampleSignal], map["BTC/USDT" := 98.0], {},
                             PassState([], [ExampleRow], [], true));
      && r.kept == [] && r.completed
      && r.rows == [ExampleRow.(exitPrice := Some(98.0), status := "SL", profitPct := Some(-2.0))]
  {
    assert Database.OpenIndices([ExampleRow], "BTC/USDT") == [0];
  }
}
