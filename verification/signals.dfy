/** The trade idea the generator emits and the tracker and the worker pass
    around (a Python dict with these keys in the source). */
module Signals {

  datatype Signal = Signal(
    symbol: string,     // e.g. "BTC/USDT"
    side: string,       // "buy" or "sell"
    entry: real,        // last close at signal time
    tp: real,           // take-profit level
    sl: real,           // stop-loss level
    timeframe: string)  // always "1h"

  /** True when some signal in `s` is for `symbol`. */
  predicate HasSymbol(s: seq<Signal>, symbol: string)
  {
    exists i :: 0 <= i < |s| && s[i].symbol == symbol
  }

  /** At most one signal per symbol. */
  predicate DistinctSymbols(s: seq<Signal>)
  {
    forall i, j :: 0 <= i < j < |s| ==> s[i].symbol != s[j].symbol
  }

  /** Dropping one signal keeps the symbols distinct, and the dropped signal
      did not occur before its position. */
  lemma DistinctWithout(a: seq<Signal>, x: Signal, b: seq<Signal>)
    requires DistinctSymbols(a + [x] + b)
    ensures DistinctSymbols(a + b)
    ensures x !in a
  {
    var s := a + [x] + b;
    forall i, j | 0 <= i < j < |a + b| ensures (a + b)[i].symbol != (a + b)[j].symbol {
      var i' := if i < |a| then i else i + 1;
      var j' := if j < |a| then j else j + 1;
      assert (a + b)[i] == s[i'] && (a + b)[j] == s[j'];
    }
    forall k | 0 <= k < |a| ensures a[k] != x {
      assert s[k] == a[k] && s[|a|] == x;
    }
  }
}
