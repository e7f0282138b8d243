/** The worker's decision code between the network calls: the position size
    shown to each user, who receives a new signal, and the order of one
    cycle of the main loop (every generated signal is handed to the tracker
    and then broadcast, until a database call raises). The chart, the
    Telegram sends and the sleeps are left out; a send that raises is caught
    per user and changes nothing. */
module MarketWorker {
  import opened Common
  import opened Text
  import opened Signals
  import Database
  import SignalTracker

  // ------------------------------------------------------- position size

  /** `calculate_position_size`: the position (in USDT) whose loss at the
      stop equals `risk` percent of `deposit`. A non-positive deposit or risk
      gives 0, a zero entry raises `ZeroDivisionError` (caught: 0), and a
      non-positive relative stop distance gives 0. */
  function PositionSize(deposit: real, risk: real, entry: real, sl: real): (size: real)
    ensures size >= 0.0
    ensures size > 0.0 <==> deposit > 0.0 && risk > 0.0 && entry > 0.0 && entry != sl
  {
    if deposit <= 0.0 || risk <= 0.0 then 0.0
    else if entry == 0.0 then 0.0
    else
      var riskAmount := deposit * (risk / 100.0);
      var stopDistance := Abs(entry - sl) / entry;
      if stopDistance <= 0.0 then 0.0
      else
        PositiveQuotient(riskAmount, stopDistance);
        riskAmount / stopDistance
  }

  lemma PositiveQuotient(a: real, b: real)
    requires a > 0.0 && b > 0.0
    ensures a / b > 0.0
  {
  }

  /** A position of that size loses exactly the risked amount when the price
      moves from the entry to the stop. */
  lemma PositionRisksExactly(deposit: real, risk: real, entry: real, sl: real)
    requires PositionSize(deposit, risk, entry, sl) > 0.0
    ensures PositionSize(deposit, risk, entry, sl) * Abs(entry - sl) / entry
            == deposit * risk / 100.0
  {
    var d := Abs(entry - sl) / entry;
    var size := PositionSize(deposit, risk, entry, sl);
    assert size == deposit * (risk / 100.0) / d;
    assert size * d == deposit * (risk / 100.0);
  }

  /** Only the distance between entry and stop matters: a stop mirrored
      about the entry gives the same size. */
  lemma PositionSizeMirror(deposit: real, risk: real, entry: real, sl: real)
    ensures PositionSize(deposit, risk, entry, 2.0 * entry - sl) == PositionSize(deposit, risk, entry, sl)
  {
    assert Abs(entry - (2.0 * entry - sl)) == Abs(entry - sl);
  }

  // ---------------------------------------------------------- recipients

  /** The recipient filter of `broadcast_signal`: a PREMIUM user whose
      `selected_pairs`, split on "," without trimming, has an item equal to
      the symbol; an empty pair string selects nothing. */
  predicate Eligible(u: Database.User, symbol: string)
  {
    u.status == "PREMIUM" && u.selectedPairs != "" && symbol in Split(u.selectedPairs, ',')
  }

  /** The side label: LONG exactly when the upper-cased side is "BUY". */
  function SideLabel(side: string): (tag: string)
    ensures tag == "🟢 LONG" <==> Upper(side) == "BUY"
    ensures tag == "🔴 SHORT" <==> Upper(side) != "BUY"
  {
    if Upper(side) == "BUY" then "🟢 LONG" else "🔴 SHORT"
  }

  lemma SideLabelsOfGeneratedSides()
    ensures SideLabel("buy") == "🟢 LONG" && SideLabel("BUY") == "🟢 LONG"
    ensures SideLabel("sell") == "🔴 SHORT"
  {
    assert Upper("buy") == "BUY";
    assert Upper("sell")[0] == 'S';
  }

  /** What one user is sent for a signal: the side label and the position
      size computed from the user's own deposit and risk. */
  datatype Notice = Notice(userId: int, symbol: string, side: string, size: real)

  function NoticeFor(u: Database.User, sig: Signal): Notice
  {
    Notice(u.userId, sig.symbol, SideLabel(sig.side),
           PositionSize(u.deposit, u.riskPerTrade, sig.entry, sig.sl))
  }

  /** The notices of one broadcast, in table order. */
  function Notices(users: seq<Database.User>, sig: Signal): seq<Notice>
    decreases |users|
  {
    if users == [] then []
    else
      var u := users[|users| - 1];
      Notices(users[..|users| - 1], sig) + (if Eligible(u, sig.symbol) then [NoticeFor(u, sig)] else [])
  }

  /** A broadcast sends one notice to each eligible user and nothing else. */
  lemma {:induction false} NoticesExact(users: seq<Database.User>, sig: Signal, n: Notice)
    ensures n in Notices(users, sig) <==>
      exists i :: 0 <= i < |users| && Eligible(users[i], sig.symbol) && n == NoticeFor(users[i], sig)
    decreases |users|
  {
    if users != [] {
      var init := users[..|users| - 1];
      var last := users[|users| - 1];
      NoticesExact(init, sig, n);
      assert Notices(users, sig)
        == Notices(init, sig) + (if Eligible(last, sig.symbol) then [NoticeFor(last, sig)] else []);
      if n in Notices(users, sig) {
        if n in Notices(init, sig) {
          var i :| 0 <= i < |init| && Eligible(init[i], sig.symbol) && n == NoticeFor(init[i], sig);
          assert users[i] == init[i];
        } else {
          assert Eligible(users[|users| - 1], sig.symbol) && n == NoticeFor(users[|users| - 1], sig);
        }
      }
      if exists i :: 0 <= i < |users| && Eligible(users[i], sig.symbol) && n == NoticeFor(users[i], sig) {
        var i :| 0 <= i < |users| && Eligible(users[i], sig.symbol) && n == NoticeFor(users[i], sig);
        if i < |init| {
          assert init[i] == users[i];
        }
      }
    }
  }

  /** A user with two stored pairs receives exactly the signals for either
      pair, compared character for character. */
  lemma EligibleWithTwoPairs(u: Database.User, first: string, second: string, symbol: string)
    requires u.status == "PREMIUM" && u.selectedPairs == first + [','] + second
    requires ',' !in first && ',' !in second
    ensures Eligible(u, symbol) <==> symbol == first || symbol == second
  {
    SplitAtFirstSep(first, second, ',');
    SplitWithoutSep(second, ',');
  }

  /** Pairs are compared untrimmed: a user who stored "BTC/USDT, ETH/USDT"
      never receives ETH/USDT signals. */
  lemma UntrimmedPairMisses()
    ensures !Eligible(Database.User(1, None, "PREMIUM", None, "BTC/USDT, ETH/USDT", 1000.0, 1.0, false), "ETH/USDT")
  {
    var first, second := "BTC/USDT", " ETH/USDT";
    assert "BTC/USDT, ETH/USDT" == first + [','] + second;
    EligibleWithTwoPairs(Database.User(1, None, "PREMIUM", None, "BTC/USDT, ETH/USDT", 1000.0, 1.0, false),
                         first, second, "ETH/USDT");
    assert "ETH/USDT"[0] != second[0] && "ETH/USDT"[0] != first[0];
  }

  /** The loop of `broadcast_signal` over the users table. */
  method BroadcastSignal(users: Database.UsersTable, sig: Signal) returns (sent: seq<Notice>)
    ensures sent == Notices(users.rows, sig)
  {
    sent := [];
    var i := 0;
    while i < |users.rows|
      invariant 0 <= i <= |users.rows|
      invariant sent == Notices(users.rows[..i], sig)
    {
      var u := users.rows[i];
      assert users.rows[..i + 1][..i] == users.rows[..i];
      if Eligible(u, sig.symbol) {
        sent := sent + [NoticeFor(u, sig)];
      }
      i := i + 1;
    }
    assert users.rows[..i] == users.rows;
  }

  // ----------------------------------------------------------- one cycle

  /** The working set after `add_signal` for each of `sigs` in turn. */
  function AdmitAll(active: seq<Signal>, sigs: seq<Signal>): seq<Signal>
    decreases |sigs|
  {
    if sigs == [] then active
    else
      var before := AdmitAll(active, sigs[..|sigs| - 1]);
      var s := sigs[|sigs| - 1];
      if HasSymbol(before, s.symbol) then before else before + [s]
  }

  /** The history record `save_new_signal` writes for an admitted signal. */
  function OpenRecord(s: Signal, id: int, now: int): Database.SignalRecord
  {
    Database.SignalRecord(id, s.symbol, s.side, s.entry, None, "OPEN", None, now)
  }

  /** The records saved for `added`, with consecutive ids from `firstId`. */
  function Records(added: seq<Signal>, firstId: int, now: int): (r: seq<Database.SignalRecord>)
    ensures |r| == |added|
    ensures forall i :: 0 <= i < |added| ==> r[i] == OpenRecord(added[i], firstId + i, now)
  {
    seq(|added|, i requires 0 <= i < |added| => OpenRecord(added[i], firstId + i, now))
  }

  lemma RecordsAppend(added: seq<Signal>, s: Signal, firstId: int, now: int)
    ensures Records(added + [s], firstId, now)
      == Records(added, firstId, now) + [OpenRecord(s, firstId + |added|, now)]
  {
    assert forall i :: 0 <= i < |added| ==> (added + [s])[i] == added[i];
  }

  /** The notices of broadcasting each of `sigs` in turn. */
  function Broadcasts(users: seq<Database.User>, sigs: seq<Signal>): seq<Notice>
    decreases |sigs|
  {
    if sigs == [] then []
    else Broadcasts(users, sigs[..|sigs| - 1]) + Notices(users, sigs[|sigs| - 1])
  }

  /** Admission only appends, keeps one signal per symbol, and leaves every
      signal of the cycle tracked under its symbol. */
  lemma {:induction false} AdmitAllShape(active: seq<Signal>, sigs: seq<Signal>)
    requires DistinctSymbols(active)
    ensures var a := AdmitAll(active, sigs);
      && |active| <= |a| && a[..|active|] == active
      && DistinctSymbols(a)
      && forall s :: s in sigs ==> HasSymbol(a, s.symbol)
    decreases |sigs|
  {
    if sigs != [] {
      var init := sigs[..|sigs| - 1];
      var s := sigs[|sigs| - 1];
      AdmitAllShape(active, init);
      var before := AdmitAll(active, init);
      var a := AdmitAll(active, sigs);
      if !HasSymbol(before, s.symbol) {
        assert a == before + [s];
        assert a[..|active|] == before[..|active|];
        assert a[|a| - 1] == s;
        forall t | t in init ensures HasSymbol(a, t.symbol) {
          var k :| 0 <= k < |before| && before[k].symbol == t.symbol;
          assert a[k] == before[k];
        }
      } else {
        assert a == before;
      }
      assert sigs == init + [s];
    }
  }

  /** `add_signal` raises for signal `i` of the cycle when `save_new_signal`
      fails there and the symbol is not already tracked (a duplicate never
      reaches the database). */
  predicate SaveRaises(active: seq<Signal>, sigs: seq<Signal>, i: nat, saveFails: set<nat>)
    requires i < |sigs|
  {
    i in saveFails && !HasSymbol(AdmitAll(active, sigs[..i]), sigs[i].symbol)
  }

  /** Handling signal `i` raises: in `add_signal`, or in the PREMIUM-user
      query of `broadcast_signal`. */
  predicate RaisesAt(active: seq<Signal>, sigs: seq<Signal>, i: nat, saveFails: set<nat>, queryFails: set<nat>)
    requires i < |sigs|
  {
    SaveRaises(active, sigs, i, saveFails) || i in queryFails
  }

  /** The position, from `j` on, of the first signal whose handling raises,
      or `|sigs|` when none does. */
  function FirstRaise(active: seq<Signal>, sigs: seq<Signal>, saveFails: set<nat>, queryFails: set<nat>,
                      j: nat): (k: nat)
    requires j <= |sigs|
    ensures j <= k <= |sigs|
    ensures forall i :: j <= i < k ==> !RaisesAt(active, sigs, i, saveFails, queryFails)
    ensures k < |sigs| ==> RaisesAt(active, sigs, k, saveFails, queryFails)
    decreases |sigs| - j
  {
    if j == |sigs| then j
    else if RaisesAt(active, sigs, j, saveFails, queryFails) then j
    else FirstRaise(active, sigs, saveFails, queryFails, j + 1)
  }

  /** One iteration of the worker's loop over a cycle's signals: `add_signal`
      and then `broadcast_signal`, keeping the saved records in step with
      the signals appended since `active0`. `saveFails` says that
      `save_new_signal` raises, `queryFails` that the PREMIUM-user query of
      the broadcast raises; either way `ok` is false and nothing is sent. */
  method Dispatch(s: Signal, tracker: SignalTracker.Tracker, history: Database.SignalHistoryTable,
                  users: Database.UsersTable, now: int, saveFails: bool, queryFails: bool,
                  ghost active0: seq<Signal>, ghost rows0: seq<Database.SignalRecord>)
    returns (notices: seq<Notice>, ok: bool)
    requires tracker.Valid() && history.Valid() && active0 <= tracker.active
    requires history.rows == rows0 + Records(tracker.active[|active0|..], |rows0| + 1, now)
    modifies tracker, history
    ensures tracker.Valid() && history.Valid() && active0 <= tracker.active
    ensures tracker.active == if HasSymbol(old(tracker.active), s.symbol) || saveFails then old(tracker.active)
                              else old(tracker.active) + [s]
    ensures history.rows == rows0 + Records(tracker.active[|active0|..], |rows0| + 1, now)
    ensures ok <==> (HasSymbol(old(tracker.active), s.symbol) || !saveFails) && !queryFails
    ensures notices == if ok then Notices(users.rows, s) else []
  {
    ghost var pre := tracker.active;
    var added := tracker.AddSignal(s, history, now, saveFails);
    if tracker.active != pre {
      assert tracker.active[|active0|..] == pre[|active0|..] + [s];
      RecordsAppend(pre[|active0|..], s, |rows0| + 1, now);
    }
    if !added || queryFails {
      return [], false;
    }
    notices := BroadcastSignal(users, s);
    ok := true;
  }

  /** The worker's loop over one cycle's signals: each signal is first
      offered to the tracker and then broadcast, so a signal the tracker
      ignored as a duplicate is still sent to every eligible user. The
      first signal whose handling raises ends the loop (the worker's `try`
      catches it): the signals after it are neither tracked nor broadcast,
      and it is itself tracked only when the failure was in the broadcast. */
  method DispatchCycle(sigs: seq<Signal>, tracker: SignalTracker.Tracker,
                       history: Database.SignalHistoryTable, users: Database.UsersTable, now: int,
                       saveFails: set<nat>, queryFails: set<nat>)
    returns (sent: seq<Notice>, completed: bool)
    requires tracker.Valid() && history.Valid()
    modifies tracker, history
    ensures tracker.Valid() && history.Valid()
    ensures var k := FirstRaise(old(tracker.active), sigs, saveFails, queryFails, 0);
      && (completed <==> k == |sigs|)
      && tracker.active == AdmitAll(old(tracker.active), sigs[..Admitted(old(tracker.active), sigs, saveFails, queryFails)])
      && sent == Broadcasts(users.rows, sigs[..k])
    ensures old(tracker.active) <= tracker.active
    ensures history.rows == old(history.rows)
      + Records(tracker.active[|old(tracker.active)|..], |old(history.rows)| + 1, now)
  {
    sent := [];
    ghost var active0 := tracker.active;
    ghost var rows0 := history.rows;
    ghost var k := FirstRaise(active0, sigs, saveFails, queryFails, 0);
    assert tracker.active[|active0|..] == [];
    var i := 0;
    while i < |sigs|
      invariant 0 <= i <= k
      invariant tracker.Valid() && history.Valid() && active0 <= tracker.active
      invariant tracker.active == AdmitAll(active0, sigs[..i])
      invariant history.rows == rows0 + Records(tracker.active[|active0|..], |rows0| + 1, now)
      invariant sent == Broadcasts(users.rows, sigs[..i])
    {
      AdmitStep(active0, sigs, i);
      ghost var before := tracker.active;
      var notices, ok := Dispatch(sigs[i], tracker, history, users, now, i in saveFails, i in queryFails,
                                  active0, rows0);
      if !ok {
        assert RaisesAt(active0, sigs, i, saveFails, queryFails);
        assert k == i;
        if SaveRaises(active0, sigs, i, saveFails) {
          assert tracker.active == before;
        } else {
          assert tracker.active == AdmitAll(active0, sigs[..i + 1]);
        }
        return sent, false;
      }
      assert !RaisesAt(active0, sigs, i, saveFails, queryFails);
      sent := sent + notices;
      i := i + 1;
    }
    assert sigs[..i] == sigs;
    completed := true;
  }

  /** Admitting and broadcasting one more signal of the cycle. */
  lemma AdmitStep(active: seq<Signal>, sigs: seq<Signal>, i: nat)
    requires i < |sigs|
    ensures var before := AdmitAll(active, sigs[..i]);
      AdmitAll(active, sigs[..i + 1])
        == if HasSymbol(before, sigs[i].symbol) then before else before + [sigs[i]]
    ensures forall users :: Broadcasts(users, sigs[..i + 1]) == Broadcasts(users, sigs[..i]) + Notices(users, sigs[i])
  {
    assert sigs[..i + 1][..i] == sigs[..i];
  }

  /** How many of the cycle's signals were offered to the tracker without
      `add_signal` raising: all of them up to the first failure, plus that
      one when its failure was in the broadcast. */
  function Admitted(active: seq<Signal>, sigs: seq<Signal>, saveFails: set<nat>, queryFails: set<nat>): (n: nat)
    ensures n <= |sigs|
  {
    var k := FirstRaise(active, sigs, saveFails, queryFails, 0);
    if k < |sigs| && !SaveRaises(active, sigs, k, saveFails) then k + 1 else k
  }

  /** Without failures the cycle handles every signal. */
  lemma NoFailureHandlesAll(active: seq<Signal>, sigs: seq<Signal>)
    ensures FirstRaise(active, sigs, {}, {}, 0) == |sigs|
    ensures Admitted(active, sigs, {}, {}) == |sigs|
  {
  }
}
