/** The two tables of the bot's store, held in memory: users (subscription
    status, selected pairs, risk settings, ban flag) and the signal history.
    Each table is a class over a sequence of rows; the current time is a
    parameter (seconds); SQL `NULL` is `None`. Pure functions on rows say
    what each operation does to the table. */
module Database {
  import opened Common

  const Day: int := 24 * 60 * 60
  /** `timedelta(days=30)`. */
  const SubscriptionLength: int := 30 * Day

  /** Column defaults of the `users` table. */
  const DefaultStatus: string := "FREE"
  const DefaultPairsColumn: string := "BTC/USDT,ETH/USDT"
  const DefaultDeposit: real := 1000.0
  const DefaultRisk: real := 1.0

  // ================================================================= users

  datatype User = User(
    userId: int,                  // Telegram id, unique
    username: Option<string>,
    status: string,               // "FREE", "PREMIUM", "VIP"
    subscribedUntil: Option<int>,
    selectedPairs: string,        // comma-separated
    deposit: real,
    riskPerTrade: real,           // percent
    isBanned: bool)

  /** The row `get_or_create_user` inserts: every other column at its default. */
  function NewUser(userId: int, username: Option<string>): User
  {
    User(userId, username, DefaultStatus, None, DefaultPairsColumn, DefaultDeposit, DefaultRisk, false)
  }

  /** The uniqueness constraint on `user_id`. */
  predicate UniqueIds(rows: seq<User>)
  {
    forall i, j :: 0 <= i < j < |rows| ==> rows[i].userId != rows[j].userId
  }

  /** `select(User).where(User.user_id == userId)`, as a row index. */
  function FindUser(rows: seq<User>, userId: int): (r: Option<nat>)
    ensures r.Some? ==> r.value < |rows| && rows[r.value].userId == userId
    ensures r.None? ==> forall i :: 0 <= i < |rows| ==> rows[i].userId != userId
    decreases |rows|
  {
    if rows == [] then None
    else if rows[|rows| - 1].userId == userId then Some(|rows| - 1)
    else FindUser(rows[..|rows| - 1], userId)
  }

  // ---------------------------------------------------- subscription expiry

  /** The filter of the expiry sweep: `status == "PREMIUM"` and
      `subscribed_until < now`, where a NULL date never compares true. */
  predicate IsExpired(u: User, now: int)
  {
    u.status == "PREMIUM" && u.subscribedUntil.Some? && u.subscribedUntil.value < now
  }

  function Expire(u: User, now: int): (r: User)
    ensures IsExpired(u, now) ==> r == u.(status := "FREE", subscribedUntil := None)
    ensures !IsExpired(u, now) ==> r == u
    ensures !IsExpired(r, now) && r.userId == u.userId
  {
    if IsExpired(u, now) then u.(status := "FREE", subscribedUntil := None) else u
  }

  /** The table after the sweep. */
  function SweepRows(rows: seq<User>, now: int): (r: seq<User>)
    ensures |r| == |rows|
    ensures forall i :: 0 <= i < |rows| ==> r[i] == Expire(rows[i], now)
  {
    seq(|rows|, i requires 0 <= i < |rows| => Expire(rows[i], now))
  }

  /** The ids the sweep returns, in table order. */
  function ExpiredIds(rows: seq<User>, now: int): seq<int>
    decreases |rows|
  {
    if rows == [] then []
    else
      var last := rows[|rows| - 1];
      ExpiredIds(rows[..|rows| - 1], now) + (if IsExpired(last, now) then [last.userId] else [])
  }

  /** The sweep returns exactly the ids of the rows it expires. */
  lemma {:induction false} ExpiredIdsExact(rows: seq<User>, now: int, id: int)
    ensures id in ExpiredIds(rows, now) <==>
            exists i :: 0 <= i < |rows| && IsExpired(rows[i], now) && rows[i].userId == id
    decreases |rows|
  {
    if rows != [] {
      var init := rows[..|rows| - 1];
      ExpiredIdsExact(init, now, id);
      if exists i :: 0 <= i < |rows| && IsExpired(rows[i], now) && rows[i].userId == id {
        var i :| 0 <= i < |rows| && IsExpired(rows[i], now) && rows[i].userId == id;
        if i < |init| {
          assert init[i] == rows[i];
        }
      }
      if exists i :: 0 <= i < |init| && IsExpired(init[i], now) && init[i].userId == id {
        var i :| 0 <= i < |init| && IsExpired(init[i], now) && init[i].userId == id;
        assert rows[i] == init[i];
      }
    }
  }

  lemma {:induction false} NothingExpired(rows: seq<User>, now: int)
    requires forall i :: 0 <= i < |rows| ==> !IsExpired(rows[i], now)
    ensures ExpiredIds(rows, now) == []
    decreases |rows|
  {
    if rows != [] {
      var init := rows[..|rows| - 1];
      assert forall i :: 0 <= i < |init| ==> init[i] == rows[i];
      NothingExpired(init, now);
    }
  }

  /** A second sweep with the same `now` returns nothing and changes nothing. */
  lemma SweepIdempotent(rows: seq<User>, now: int)
    ensures SweepRows(SweepRows(rows, now), now) == SweepRows(rows, now)
    ensures ExpiredIds(SweepRows(rows, now), now) == []
  {
    NothingExpired(SweepRows(rows, now), now);
  }

  // -------------------------------------------------- updates by user id

  /** `update(User).where(User.user_id == userId).values(selected_pairs=pairs)`. */
  function SetPairs(rows: seq<User>, userId: int, pairs: string): (r: seq<User>)
    ensures |r| == |rows|
    ensures forall i :: 0 <= i < |rows| ==>
      r[i] == if rows[i].userId == userId then rows[i].(selectedPairs := pairs) else rows[i]
  {
    seq(|rows|, i requires 0 <= i < |rows| =>
      if rows[i].userId == userId then rows[i].(selectedPairs := pairs) else rows[i])
  }

  /** `set_user_premium`: PREMIUM until `now` plus thirty days, replacing any
      earlier date. */
  function GrantPremium(rows: seq<User>, userId: int, now: int): (r: seq<User>)
    ensures |r| == |rows|
    ensures forall i :: 0 <= i < |rows| ==>
      r[i] == if rows[i].userId == userId
              then rows[i].(status := "PREMIUM", subscribedUntil := Some(now + SubscriptionLength))
              else rows[i]
  {
    seq(|rows|, i requires 0 <= i < |rows| =>
      if rows[i].userId == userId
      then rows[i].(status := "PREMIUM", subscribedUntil := Some(now + SubscriptionLength))
      else rows[i])
  }

  /** A granted subscription is not expired by a sweep until thirty days
      have passed. */
  lemma GrantSurvivesSweep(rows: seq<User>, userId: int, now: int, later: int, i: nat)
    requires i < |rows| && rows[i].userId == userId
    requires later <= now + SubscriptionLength
    ensures SweepRows(GrantPremium(rows, userId, now), later)[i].status == "PREMIUM"
  {
  }

  /** Table and user returned by `get_or_create_user`. */
  function GetOrCreate(rows: seq<User>, userId: int, username: Option<string>): (r: (seq<User>, User))
    ensures FindUser(rows, userId).Some? ==> r == (rows, rows[FindUser(rows, userId).value])
    ensures FindUser(rows, userId).None? ==> r == (rows + [NewUser(userId, username)], NewUser(userId, username))
    ensures r.1.userId == userId && r.1 in r.0
    ensures UniqueIds(rows) ==> UniqueIds(r.0)
  {
    match FindUser(rows, userId)
    case Some(k) => (rows, rows[k])
    case None => (rows + [NewUser(userId, username)], NewUser(userId, username))
  }

  // ========================================================= signal history

  datatype SignalRecord = SignalRecord(
    id: int,
    symbol: string,
    side: string,                 // "buy" / "sell"
    entryPrice: real,
    exitPrice: Option<real>,
    status: string,               // "OPEN", "TP", "SL"
    profitPct: Option<real>,
    timestamp: int)

  predicate IsOpenFor(r: SignalRecord, symbol: string)
  {
    r.symbol == symbol && r.status == "OPEN"
  }

  /** Indices of the OPEN records for `symbol`, ascending. */
  function OpenIndices(rows: seq<SignalRecord>, symbol: string): seq<nat>
    decreases |rows|
  {
    if rows == [] then []
    else
      var n := |rows| - 1;
      OpenIndices(rows[..n], symbol) + (if IsOpenFor(rows[n], symbol) then [n] else [])
  }

  /** Every index `OpenIndices` lists is an OPEN record for the symbol. */
  lemma {:induction false} OpenIndicesSound(rows: seq<SignalRecord>, symbol: string)
    ensures forall a :: 0 <= a < |OpenIndices(rows, symbol)| ==>
      OpenIndices(rows, symbol)[a] < |rows| && IsOpenFor(rows[OpenIndices(rows, symbol)[a]], symbol)
    decreases |rows|
  {
    if rows != [] {
      var n := |rows| - 1;
      var init := rows[..n];
      OpenIndicesSound(init, symbol);
      var before := OpenIndices(init, symbol);
      assert OpenIndices(rows, symbol) == before + (if IsOpenFor(rows[n], symbol) then [n] else []);
      forall a | 0 <= a < |before|
        ensures before[a] < n && IsOpenFor(rows[before[a]], symbol)
      {
        assert rows[before[a]] == init[before[a]];
      }
    }
  }

  /** Every OPEN record for the symbol is listed by `OpenIndices`. */
  lemma {:induction false} OpenIndicesComplete(rows: seq<SignalRecord>, symbol: string)
    ensures forall k :: 0 <= k < |rows| && IsOpenFor(rows[k], symbol) ==> k in OpenIndices(rows, symbol)
    decreases |rows|
  {
    if rows != [] {
      var n := |rows| - 1;
      OpenIndicesComplete(rows[..n], symbol);
      assert forall k :: 0 <= k < n ==> rows[k] == rows[..n][k];
    }
  }

  /** `OpenIndices` is strictly ascending. */
  lemma {:induction false} OpenIndicesAscending(rows: seq<SignalRecord>, symbol: string)
    ensures forall a, b :: 0 <= a < b < |OpenIndices(rows, symbol)| ==>
      OpenIndices(rows, symbol)[a] < OpenIndices(rows, symbol)[b]
    decreases |rows|
  {
    if rows != [] {
      var n := |rows| - 1;
      var init := rows[..n];
      OpenIndicesAscending(init, symbol);
      OpenIndicesSound(init, symbol);
      assert OpenIndices(rows, symbol) == OpenIndices(init, symbol) + (if IsOpenFor(rows[n], symbol) then [n] else []);
    }
  }

  /** `OpenIndices` lists exactly the OPEN records for the symbol, in
      ascending order. */
  lemma OpenIndicesSpec(rows: seq<SignalRecord>, symbol: string)
    ensures var r := OpenIndices(rows, symbol);
      && (forall a :: 0 <= a < |r| ==> r[a] < |rows| && IsOpenFor(rows[r[a]], symbol))
      && (forall k :: 0 <= k < |rows| && IsOpenFor(rows[k], symbol) ==> k in r)
      && (forall a, b :: 0 <= a < b < |r| ==> r[a] < r[b])
  {
    OpenIndicesSound(rows, symbol);
    OpenIndicesComplete(rows, symbol);
    OpenIndicesAscending(rows, symbol);
  }

  /** Realised profit in percent: `(exit - entry) / entry * 100` for a buy
      and `(entry - exit) / entry * 100` for anything else. */
  function ProfitPct(side: string, entry: real, exit: real): real
    requires entry != 0.0
  {
    if side == "buy" then (exit - entry) / entry * 100.0 else (entry - exit) / entry * 100.0
  }

  /** A buy and a sell over the same prices report opposite profits; for a
      positive entry, a buy gains exactly when the exit is above the entry. */
  lemma ProfitSigns(entry: real, exit: real)
    requires entry > 0.0
    ensures ProfitPct("sell", entry, exit) == -ProfitPct("buy", entry, exit)
    ensures ProfitPct("buy", entry, exit) > 0.0 <==> exit > entry
    ensures ProfitPct("sell", entry, exit) > 0.0 <==> exit < entry
  {
  }

  function CloseRecord(r: SignalRecord, exit: real, status: string): SignalRecord
    requires r.entryPrice != 0.0
  {
    r.(exitPrice := Some(exit), status := status, profitPct := Some(ProfitPct(r.side, r.entryPrice, exit)))
  }

  /** `close_signal_in_db`; `None` means it raised before committing. */
  function CloseRows(rows: seq<SignalRecord>, symbol: string, exit: real, status: string)
    : Option<seq<SignalRecord>>
  {
    var open := OpenIndices(rows, symbol);
    OpenIndicesSound(rows, symbol);
    if |open| == 0 then Some(rows)
    else if |open| >= 2 then None
    else if rows[open[0]].entryPrice == 0.0 then None
    else Some(rows[open[0] := CloseRecord(rows[open[0]], exit, status)])
  }

  /** `scalar_one_or_none` raises on two or more OPEN records for the symbol;
      with none nothing changes; with exactly one, that record is closed,
      unless its entry price is zero and the profit division raises. */
  lemma CloseRowsSpec(rows: seq<SignalRecord>, symbol: string, exit: real, status: string)
    ensures (exists i, j :: 0 <= i < j < |rows| && IsOpenFor(rows[i], symbol) && IsOpenFor(rows[j], symbol))
            ==> CloseRows(rows, symbol, exit, status).None?
    ensures (forall i :: 0 <= i < |rows| ==> !IsOpenFor(rows[i], symbol))
            ==> CloseRows(rows, symbol, exit, status) == Some(rows)
    ensures forall k :: (0 <= k < |rows| && IsOpenFor(rows[k], symbol)
              && (forall i :: 0 <= i < |rows| && i != k ==> !IsOpenFor(rows[i], symbol))) ==>
              CloseRows(rows, symbol, exit, status)
                == if rows[k].entryPrice == 0.0 then None
                   else Some(rows[k := CloseRecord(rows[k], exit, status)])
  {
    OpenIndicesSpec(rows, symbol);
    var open := OpenIndices(rows, symbol);
    if |open| >= 2 {
      assert open[0] < open[1] && IsOpenFor(rows[open[0]], symbol) && IsOpenFor(rows[open[1]], symbol);
    } else if |open| == 1 {
      assert forall i :: 0 <= i < |rows| && IsOpenFor(rows[i], symbol) ==> i == open[0];
    }
  }

  /** `close_signal_in_db` goes through for `symbol`: at most one OPEN record,
      and that record's entry price is not zero. */
  predicate Closable(rows: seq<SignalRecord>, symbol: string)
  {
    && (forall i, j :: 0 <= i < j < |rows| && IsOpenFor(rows[i], symbol) ==> !IsOpenFor(rows[j], symbol))
    && (forall i :: 0 <= i < |rows| && IsOpenFor(rows[i], symbol) ==> rows[i].entryPrice != 0.0)
  }

  /** Closing succeeds exactly for a closable symbol, and then it closes every
      OPEN record of the symbol (there is at most one) and leaves every other
      record as it was. */
  lemma CloseRowsEffect(rows: seq<SignalRecord>, symbol: string, exit: real, status: string)
    ensures CloseRows(rows, symbol, exit, status).Some? <==> Closable(rows, symbol)
    ensures Closable(rows, symbol) ==>
      var r := CloseRows(rows, symbol, exit, status);
      && r.Some? && |r.value| == |rows|
      && forall i :: 0 <= i < |rows| ==>
           r.value[i] == if IsOpenFor(rows[i], symbol) then CloseRecord(rows[i], exit, status) else rows[i]
  {
    OpenIndicesSpec(rows, symbol);
    var open := OpenIndices(rows, symbol);
    if |open| >= 2 {
      assert open[0] < open[1] && IsOpenFor(rows[open[0]], symbol) && IsOpenFor(rows[open[1]], symbol);
    } else if |open| == 1 {
      assert forall i :: 0 <= i < |rows| && IsOpenFor(rows[i], symbol) ==> i == open[0];
      if rows[open[0]].entryPrice == 0.0 {
        assert IsOpenFor(rows[open[0]], symbol);
      }
    }
  }

  // ================================================================ classes

  class UsersTable {
    var rows: seq<User>

    predicate Valid()
      reads this
    {
      UniqueIds(rows)
    }

    constructor ()
      ensures Valid() && rows == []
    {
      rows := [];
    }

    /** `check_and_expire_subscriptions`. */
    method ExpireSubscriptions(now: int) returns (expired: seq<int>)
      requires Valid()
      modifies this
      ensures Valid()
      ensures rows == SweepRows(old(rows), now)
      ensures expired == ExpiredIds(old(rows), now)
    {
      expired := [];
      var i := 0;
      while i < |rows|
        invariant 0 <= i <= |rows| == |old(rows)|
        invariant forall k :: 0 <= k < i ==> rows[k] == Expire(old(rows)[k], now)
        invariant forall k :: i <= k < |rows| ==> rows[k] == old(rows)[k]
        invariant expired == ExpiredIds(old(rows)[..i], now)
      {
        assert old(rows)[..i + 1][..i] == old(rows)[..i];
        if IsExpired(rows[i], now) {
          expired := expired + [rows[i].userId];
          rows := rows[i := Expire(rows[i], now)];
        }
        i := i + 1;
      }
      assert old(rows)[..i] == old(rows);
      assert forall k :: 0 <= k < |rows| ==> rows[k].userId == old(rows)[k].userId;
    }

    /** `get_or_create_user`: an existing row is returned unchanged (the
        username is not refreshed); otherwise a row with the defaults is added. */
    method GetOrCreateUser(userId: int, username: Option<string>) returns (u: User)
      requires Valid()
      modifies this
      ensures Valid()
      ensures (rows, u) == GetOrCreate(old(rows), userId, username)
    {
      var k := FindUser(rows, userId);
      if k.Some? {
        u := rows[k.value];
      } else {
        u := NewUser(userId, username);
        rows := rows + [u];
      }
    }

    /** `update_user_pairs`: a no-op for an unknown user. */
    method UpdateUserPairs(userId: int, pairs: string)
      requires Valid()
      modifies this
      ensures Valid()
      ensures rows == SetPairs(old(rows), userId, pairs)
    {
      rows := SetPairs(rows, userId, pairs);
      assert forall k :: 0 <= k < |rows| ==> rows[k].userId == old(rows)[k].userId;
    }

    /** `set_user_premium`: a no-op for an unknown user. */
    method SetUserPremium(userId: int, now: int)
      requires Valid()
      modifies this
      ensures Valid()
      ensures rows == GrantPremium(old(rows), userId, now)
    {
      rows := GrantPremium(rows, userId, now);
      assert forall k :: 0 <= k < |rows| ==> rows[k].userId == old(rows)[k].userId;
    }

    /** `is_user_banned`: an unknown user is not banned. */
    method IsUserBanned(userId: int) returns (banned: bool)
      requires Valid()
      ensures banned <==> exists i :: 0 <= i < |rows| && rows[i].userId == userId && rows[i].isBanned
    {
      var k := FindUser(rows, userId);
      banned := k.Some? && rows[k.value].isBanned;
    }
  }

  class SignalHistoryTable {
    var rows: seq<SignalRecord>

    /** Ids are assigned by autoincrement and nothing is ever deleted. */
    predicate Valid()
      reads this
    {
      forall i :: 0 <= i < |rows| ==> rows[i].id == i + 1
    }

    constructor ()
      ensures Valid() && rows == []
    {
      rows := [];
    }

    /** `save_new_signal`: one OPEN record without exit price or profit. */
    method SaveNewSignal(symbol: string, side: string, entry: real, now: int) returns (id: int)
      requires Valid()
      modifies this
      ensures Valid()
      ensures rows == old(rows) + [SignalRecord(id, symbol, side, entry, None, "OPEN", None, now)]
      ensures id == |old(rows)| + 1
    {
      id := |rows| + 1;
      rows := rows + [SignalRecord(id, symbol, side, entry, None, "OPEN", None, now)];
    }

    /** `close_signal_in_db`; `ok` is false when it raised, and then nothing
        was written. */
    method CloseSignal(symbol: string, exit: real, status: string) returns (ok: bool)
      requires Valid()
      modifies this
      ensures Valid()
      ensures ok == CloseRows(old(rows), symbol, exit, status).Some?
      ensures rows == if ok then CloseRows(old(rows), symbol, exit, status).value else old(rows)
    {
      var r := CloseRows(rows, symbol, exit, status);
      ok := r.Some?;
      if ok {
        CloseRowsKeepsIds(rows, symbol, exit, status);
        rows := r.value;
      }
    }
  }

  /** Closing never changes a record's id, symbol or side. */
  lemma CloseRowsKeepsIds(rows: seq<SignalRecord>, symbol: string, exit: real, status: string)
    requires CloseRows(rows, symbol, exit, status).Some?
    ensures var r := CloseRows(rows, symbol, exit, status).value;
      |r| == |rows| &&
      forall i :: 0 <= i < |rows| ==>
        r[i].id == rows[i].id && r[i].symbol == rows[i].symbol && r[i].side == rows[i].side
        && (r[i] != rows[i] ==> IsOpenFor(rows[i], symbol))
  {
    OpenIndicesSpec(rows, symbol);
  }
}
