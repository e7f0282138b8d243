/** The settings handlers of the bot: the comma-separated pair list a user
    toggles pair by pair, the notification switch between no pairs and the
    default pairs, the default written by /start, and the numeric input of
    the deposit and the risk per trade. Telegram messages, keyboards and the
    conversation state machine are not modelled; the user table is. */
module UserHandlers {
  import opened Common
  import opened Text
  import opened Database

  /** The pairs /start and the notification switch write. */
  const DefaultPairs: string := "BTC/USDT,ETH/USDT,SOL/USDT"

  // ------------------------------------------------------------ pair list

  /** `[p.strip() for p in selected.split(",")] if selected else []`; an
      empty column and `NULL` both parse to no pairs. Every parsed item is
      stripped and holds no comma. */
  function ParsePairs(selected: string): (pairs: seq<string>)
    ensures selected == "" ==> pairs == []
    ensures selected != "" ==> |pairs| == |Split(selected, ',')|
    ensures selected != "" ==> forall i :: 0 <= i < |pairs| ==> pairs[i] == Strip(Split(selected, ',')[i])
    ensures forall i :: 0 <= i < |pairs| ==> Stripped(pairs[i]) && ',' !in pairs[i]
  {
    if selected == "" then []
    else
      var parts := Split(selected, ',');
      assert forall i :: 0 <= i < |parts| ==> ',' !in parts[i] by {
        forall i | 0 <= i < |parts| ensures ',' !in parts[i] {
          assert parts[i] in parts;
        }
      }
      StripAllKeepsOut(parts, ',');
      seq(|parts|, i requires 0 <= i < |parts| => Strip(parts[i]))
  }

  lemma StripAllKeepsOut(parts: seq<string>, c: char)
    requires forall i :: 0 <= i < |parts| ==> c !in parts[i]
    ensures forall i :: 0 <= i < |parts| ==> c !in Strip(parts[i])
  {
    forall i | 0 <= i < |parts| ensures c !in Strip(parts[i]) {
      StripKeepsOut(parts[i], c);
    }
  }

  /** A list of stripped, comma-free pairs survives being stored as its
      ','-join and parsed back; the one exception is the list holding a
      single empty name, whose join is the empty string. */
  lemma ParseJoin(items: seq<string>)
    requires forall i :: 0 <= i < |items| ==> Stripped(items[i]) && ',' !in items[i]
    requires items != [""]
    ensures ParsePairs(Join(items, ',')) == items
  {
    if items != [] {
      assert Join(items, ',') != "";
      forall p | p in items ensures ',' !in p {
        var i :| 0 <= i < |items| && items[i] == p;
      }
      SplitJoin(items, ',');
    }
  }

  /** The list after toggling `pair`: the first occurrence removed when it is
      present (`list.remove`), appended at the end otherwise. */
  function Toggled(current: seq<string>, pair: string): (r: seq<string>)
    ensures pair in current ==> |r| == |current| - 1
    ensures pair !in current ==> r == current + [pair]
  {
    if pair in current then RemoveFirst(current, pair) else current + [pair]
  }

  /** Only the first occurrence goes: a later duplicate of the pair stays. */
  lemma ToggleRemovesFirstOnly(before: seq<string>, pair: string, after: seq<string>)
    requires pair !in before
    ensures Toggled(before + [pair] + after, pair) == before + after
  {
    RemoveFirstAt(before, pair, after);
  }

  /** Toggling an absent pair twice gives the list back. */
  lemma ToggleTwice(current: seq<string>, pair: string)
    requires pair !in current
    ensures Toggled(Toggled(current, pair), pair) == current
  {
    RemoveFirstAt(current, pair, []);
    assert current + [pair] + [] == current + [pair];
  }

  /** The string `toggle_pair` stores for a column value and a pair. */
  function StoredAfterToggle(selected: string, pair: string): string
  {
    Join(Toggled(ParsePairs(selected), pair), ',')
  }

  /** Toggling an absent pair twice stores the original pairs in their
      stripped form, for a pair name that is itself stripped, non-empty and
      comma-free (as the keyboard's names are). */
  lemma ToggleTwiceRestores(selected: string, pair: string)
    requires pair != "" && Stripped(pair) && ',' !in pair
    requires pair !in ParsePairs(selected)
    ensures StoredAfterToggle(StoredAfterToggle(selected, pair), pair) == Join(ParsePairs(selected), ',')
  {
    var xs := ParsePairs(selected);
    var once := xs + [pair];
    assert Toggled(xs, pair) == once;
    assert forall i :: 0 <= i < |once| ==> Stripped(once[i]) && ',' !in once[i];
    assert once != [""] by {
      assert once[|once| - 1] == pair;
    }
    ParseJoin(once);
    ToggleTwice(xs, pair);
  }

  // -------------------------------------------------------- callback data

  /** `data.split(":")[1]`: `None` is the IndexError of data without ':'. */
  function CallbackPair(data: string): (pair: Option<string>)
    ensures pair.Some? ==> ':' !in pair.value
  {
    var parts := Split(data, ':');
    if |parts| >= 2 then
      assert parts[1] in parts;
      Some(parts[1])
    else None
  }

  /** The pair is the text between the first and the second ':'. */
  lemma CallbackPairBetweenColons(prefix: string, pair: string, rest: string)
    requires ':' !in prefix && ':' !in pair
    ensures CallbackPair(prefix + [':'] + pair) == Some(pair)
    ensures CallbackPair(prefix + [':'] + pair + [':'] + rest) == Some(pair)
  {
    SplitAtFirstSep(prefix, pair, ':');
    SplitWithoutSep(pair, ':');
    SplitAtFirstSep(prefix, pair + [':'] + rest, ':');
    SplitAtFirstSep(pair, rest, ':');
    assert prefix + [':'] + pair + [':'] + rest == prefix + [':'] + (pair + [':'] + rest);
  }

  /** Data without ':' has no pair. */
  lemma NoColonNoPair(data: string)
    requires ':' !in data
    ensures CallbackPair(data) == None
  {
    SplitWithoutSep(data, ':');
  }

  /** The router hands `toggle_pair` only data starting "toggle_pair:", which
      always has a pair. */
  lemma RoutedDataHasPair(data: string)
    requires StartsWith(data, "toggle_pair:")
    ensures CallbackPair(data).Some?
  {
    var rest := data[12..];
    assert data == "toggle_pair" + [':'] + rest;
    SplitAtFirstSep("toggle_pair", rest, ':');
  }

  // ------------------------------------------------------------ handlers

  /** `toggle_pair`: fetch or create the user, toggle the pair in the parsed
      list, store the ','-join. */
  method TogglePair(users: UsersTable, userId: int, data: string) returns (stored: string)
    requires users.Valid() && StartsWith(data, "toggle_pair:")
    modifies users
    ensures users.Valid()
    ensures var created := GetOrCreate(old(users.rows), userId, None);
      && CallbackPair(data).Some?
      && stored == StoredAfterToggle(created.1.selectedPairs, CallbackPair(data).value)
      && users.rows == SetPairs(created.0, userId, stored)
  {
    RoutedDataHasPair(data);
    var pair := CallbackPair(data).value;
    var user := users.GetOrCreateUser(userId, None);
    var current := ParsePairs(user.selectedPairs);
    if pair in current {
      current := RemoveFirst(current, pair);
    } else {
      current := current + [pair];
    }
    stored := Join(current, ',');
    users.UpdateUserPairs(userId, stored);
  }

  /** The value `toggle_notifications` writes: nothing when there were pairs,
      the default pairs when there were none. */
  function SwitchedPairs(selected: string): (r: string)
    ensures r == "" <==> selected != ""
    ensures selected == "" ==> r == DefaultPairs
  {
    if selected != "" then "" else DefaultPairs
  }

  /** Off and on again gives the default pairs, not the user's own choice;
      on and off again gives no pairs. */
  lemma SwitchTwice(selected: string)
    ensures selected != "" ==> SwitchedPairs(SwitchedPairs(selected)) == DefaultPairs
    ensures selected == "" ==> SwitchedPairs(SwitchedPairs(selected)) == ""
  {
  }

  /** `toggle_notifications`; `enabled` says which alert is answered. */
  method ToggleNotifications(users: UsersTable, userId: int) returns (enabled: bool)
    requires users.Valid()
    modifies users
    ensures users.Valid()
    ensures var created := GetOrCreate(old(users.rows), userId, None);
      && (enabled <==> created.1.selectedPairs == "")
      && users.rows == SetPairs(created.0, userId, SwitchedPairs(created.1.selectedPairs))
  {
    var user := users.GetOrCreateUser(userId, None);
    if user.selectedPairs != "" {
      users.UpdateUserPairs(userId, "");
      enabled := false;
    } else {
      users.UpdateUserPairs(userId, DefaultPairs);
      enabled := true;
    }
  }

  /** The pairs after /start: the default only where there were none. */
  function StartPairs(selected: string): (r: string)
    ensures r != ""
    ensures selected != "" ==> r == selected
    ensures selected == "" ==> r == DefaultPairs
  {
    if selected == "" then DefaultPairs else selected
  }

  /** A user created by /start keeps the two-pair column default: the
      three-pair default only reaches users who switched notifications off. */
  lemma NewUserKeepsColumnDefault(userId: int, username: Option<string>)
    ensures StartPairs(NewUser(userId, username).selectedPairs) == DefaultPairsColumn
    ensures DefaultPairsColumn != DefaultPairs
  {
  }

  /** `cmd_start`: the user is fetched or created and the default pairs are
      written only when the column is empty. */
  method CmdStart(users: UsersTable, userId: int, username: Option<string>) returns (user: User)
    requires users.Valid()
    modifies users
    ensures users.Valid()
    ensures var created := GetOrCreate(old(users.rows), userId, username);
      && user == created.1.(selectedPairs := StartPairs(created.1.selectedPairs))
      && users.rows == (if created.1.selectedPairs == "" then SetPairs(created.0, userId, DefaultPairs)
                        else created.0)
  {
    user := users.GetOrCreateUser(userId, username);
    if user.selectedPairs == "" {
      users.UpdateUserPairs(userId, DefaultPairs);
      user := user.(selectedPairs := DefaultPairs);
    }
  }

  // -------------------------------------------------------- numeric input

  predicate AllDigits(s: string)
  {
    forall i :: 0 <= i < |s| ==> IsDigit(s[i])
  }

  /** The check of `process_deposit` and `process_risk`: after ',' becomes
      '.', removing the first '.' (`replace(".", "", 1)`) must leave a
      non-empty run of digits. */
  predicate IsNumericInput(text: string)
  {
    IsDigits(RemoveFirst(ReplaceChar(text, ',', '.'), '.'))
  }

  /** The position of the first `c`, or `|s|` when there is none. */
  function IndexOf(s: string, c: char): (k: nat)
    ensures k <= |s| && c !in s[..k]
    ensures k < |s| ==> s[k] == c
  {
    if s == [] || s[0] == c then 0
    else
      var k := 1 + IndexOf(s[1..], c);
      assert s[..k] == [s[0]] + s[1..][..k - 1];
      k
  }

  /** The accepted inputs are, after ',' becomes '.', either digits alone or
      digits, one '.', digits, with at least one digit in all. */
  lemma NumericInputShape(text: string)
    ensures var v := ReplaceChar(text, ',', '.');
      IsNumericInput(text) <==>
        (IsDigits(v)
         || exists k :: 0 <= k < |v| && v[k] == '.' && |v| >= 2 && AllDigits(v[..k]) && AllDigits(v[k + 1..]))
  {
    var v := ReplaceChar(text, ',', '.');
    var k := IndexOf(v, '.');
    if k == |v| {
      assert v[..k] == v;
    } else {
      RemoveAt(v, k);
      AllDigitsConcat(v[..k], v[k + 1..]);
      assert !IsDigit(v[k]);
      forall j | 0 <= j < |v| && v[j] == '.' && AllDigits(v[..j]) ensures j == k {
      }
    }
  }

  /** Removing the first '.' at its position `k` leaves the two sides. */
  lemma RemoveAt(v: string, k: nat)
    requires k < |v| && v[k] == '.' && '.' !in v[..k]
    ensures RemoveFirst(v, '.') == v[..k] + v[k + 1..]
  {
    assert v == v[..k] + ['.'] + v[k + 1..];
    RemoveFirstAt(v[..k], '.', v[k + 1..]);
  }

  lemma AllDigitsConcat(a: string, b: string)
    ensures AllDigits(a + b) <==> AllDigits(a) && AllDigits(b)
  {
    if AllDigits(a + b) {
      forall i | 0 <= i < |a| ensures IsDigit(a[i]) {
        assert a[i] == (a + b)[i];
      }
      forall i | 0 <= i < |b| ensures IsDigit(b[i]) {
        assert b[i] == (a + b)[|a| + i];
      }
    }
  }

  /** An accepted text without '.' is digits throughout. */
  lemma AcceptedWithoutDot(v: string)
    requires '.' !in v
    requires IsDigits(RemoveFirst(v, '.'))
    ensures AllDigits(v)
  {
  }

  /** An accepted text, with ',' made '.' and its first '.' at `k`, is
      digits before and after that '.'. */
  lemma AcceptedWithDot(v: string, k: nat)
    requires k < |v| && v[k] == '.' && '.' !in v[..k]
    requires IsDigits(RemoveFirst(v, '.'))
    ensures AllDigits(v[..k]) && AllDigits(v[k + 1..])
  {
    RemoveAt(v, k);
    AllDigitsConcat(v[..k], v[k + 1..]);
  }

  function Pow10(n: nat): (r: nat)
    ensures r >= 1
  {
    if n == 0 then 1 else 10 * Pow10(n - 1)
  }

  /** The value of a run of decimal digits, most significant first. */
  function DigitsValue(s: string): nat
    requires AllDigits(s)
  {
    if s == [] then 0 else DigitsValue(s[..|s| - 1]) * 10 + (s[|s| - 1] as int - '0' as int)
  }

  /** `float(text.replace(",", "."))` for an accepted text: the digits before
      the '.' are the whole part, those after it the fraction. A rejected
      text gives `None` (the error answer). */
  function ParseInput(text: string): (r: Option<real>)
    ensures r.Some? <==> IsNumericInput(text)
    ensures r.Some? ==> r.value >= 0.0
  {
    ParseNormalized(ReplaceChar(text, ',', '.'))
  }

  /** The check and the conversion of a text whose ',' are already '.'. */
  function ParseNormalized(v: string): (r: Option<real>)
    ensures r.Some? <==> IsDigits(RemoveFirst(v, '.'))
    ensures r.Some? ==> r.value >= 0.0
  {
    if !IsDigits(RemoveFirst(v, '.')) then None
    else
      var k := IndexOf(v, '.');
      if k == |v| then
        assert v[..k] == v;
        AcceptedWithoutDot(v);
        Some(DigitsValue(v) as real)
      else
        AcceptedWithDot(v, k);
        Some(DecimalValue(v[..k], v[k + 1..]))
  }

  /** The value of `whole.fraction`. */
  function DecimalValue(whole: string, fraction: string): (r: real)
    requires AllDigits(whole) && AllDigits(fraction)
    ensures r >= 0.0
  {
    DigitsValue(whole) as real + DigitsValue(fraction) as real / Pow10(|fraction|) as real
  }

  /** Digits, a ',' or '.', digits, with at least one digit, are read as a
      decimal fraction: the separator is always the decimal point. */
  lemma DecimalInput(whole: string, sep: char, fraction: string)
    requires sep == ',' || sep == '.'
    requires AllDigits(whole) && AllDigits(fraction) && |whole| + |fraction| >= 1
    ensures ParseInput(whole + [sep] + fraction) == Some(DecimalValue(whole, fraction))
  {
    assert ReplaceChar(whole + [sep] + fraction, ',', '.') == whole + ['.'] + fraction;
    DecimalNormalized(whole, fraction);
  }

  lemma DecimalNormalized(whole: string, fraction: string)
    requires AllDigits(whole) && AllDigits(fraction) && |whole| + |fraction| >= 1
    ensures ParseNormalized(whole + ['.'] + fraction) == Some(DecimalValue(whole, fraction))
  {
    var v := whole + ['.'] + fraction;
    var k := IndexOf(v, '.');
    FirstDotAfterDigits(whole, fraction);
    assert v[..k] == whole && v[k + 1..] == fraction;
    RemoveAt(v, k);
    AllDigitsConcat(whole, fraction);
  }

  /** In digits, '.', anything, the first '.' follows the digits. */
  lemma {:induction false} FirstDotAfterDigits(whole: string, rest: string)
    requires AllDigits(whole)
    ensures IndexOf(whole + ['.'] + rest, '.') == |whole|
    decreases |whole|
  {
    var v := whole + ['.'] + rest;
    if whole != [] {
      assert v[0] == whole[0] && v[1..] == whole[1..] + ['.'] + rest;
      FirstDotAfterDigits(whole[1..], rest);
    }
  }

  /** Digits alone are read as a whole number. */
  lemma WholeInput(digits: string)
    requires IsDigits(digits)
    ensures ParseInput(digits) == Some(DigitsValue(digits) as real)
  {
    var v := ReplaceChar(digits, ',', '.');
    assert v == digits;
    assert v[..IndexOf(v, '.')] == v;
  }

  /** Whole numbers are accepted. */
  lemma WholeExample()
    ensures ParseInput("1000") == Some(1000.0)
  {
    WholeInput("1000");
    assert "1000"[..3] == "100" && "100"[..2] == "10" && "10"[..1] == "1" && "1"[..0] == "";
  }

  /** Either separator, and an empty whole or fractional part, are accepted. */
  lemma FractionExamples()
    ensures ParseInput("1,5") == Some(1.5)
    ensures ParseInput("5.") == Some(5.0)
    ensures ParseInput(".5") == Some(0.5)
  {
    DecimalInput("1", ',', "5");
    assert "1" + [','] + "5" == "1,5";
    DecimalInput("5", '.', "");
    assert "5" + ['.'] + "" == "5.";
    DecimalInput("", '.', "5");
    assert "" + ['.'] + "5" == ".5";
    assert "1"[..0] == "" && "5"[..0] == "";
  }

  /** "1,000" is read with ',' as the decimal separator: as 1, not 1000. */
  lemma ThousandsCommaIsDecimal()
    ensures ParseInput("1,000") == Some(1.0)
  {
    DecimalInput("1", ',', "000");
    assert "1" + [','] + "000" == "1,000";
    assert "000"[..2] == "00" && "00"[..1] == "0" && "0"[..0] == "" && "1"[..0] == "";
  }

  /** Inputs the validator rejects: nothing, a lone point, a sign, two
      points, a space. */
  lemma RejectedExamples()
    ensures ParseInput("") == None
    ensures ParseInput(".") == None
    ensures ParseInput("-5") == None
    ensures ParseInput("1.2.3") == None
    ensures ParseInput("1 000") == None
  {
    assert ReplaceChar("", ',', '.') == "";
    assert ReplaceChar(".", ',', '.') == ".";
    assert ReplaceChar("-5", ',', '.') == "-5";
    assert RemoveFirst("-5", '.') == "-5";
    assert ReplaceChar("1.2.3", ',', '.') == "1.2.3";
    assert RemoveFirst("1.2.3", '.') == "12.3";
    assert !IsDigit("12.3"[2]);
    assert ReplaceChar("1 000", ',', '.') == "1 000";
    assert RemoveFirst("1 000", '.') == "1 000";
    assert !IsDigit("1 000"[1]);
  }

  /** `update(User)...values(deposit=..., risk_per_trade=...)`. */
  function SetRiskSettings(rows: seq<User>, userId: int, deposit: real, risk: real): (r: seq<User>)
    ensures |r| == |rows|
    ensures forall i :: 0 <= i < |rows| ==>
      r[i] == if rows[i].userId == userId then rows[i].(deposit := deposit, riskPerTrade := risk) else rows[i]
  {
    seq(|rows|, i requires 0 <= i < |rows| =>
      if rows[i].userId == userId then rows[i].(deposit := deposit, riskPerTrade := risk) else rows[i])
  }

  /** `process_risk`, given the deposit `process_deposit` accepted earlier:
      a rejected text changes nothing; an accepted one stores both values. */
  method ProcessRisk(users: UsersTable, userId: int, deposit: real, text: string) returns (saved: bool)
    requires users.Valid()
    modifies users
    ensures users.Valid()
    ensures saved <==> IsNumericInput(text)
    ensures saved ==> users.rows == SetRiskSettings(old(users.rows), userId, deposit, ParseInput(text).value)
    ensures !saved ==> users.rows == old(users.rows)
  {
    var risk := ParseInput(text);
    if risk.None? {
      return false;
    }
    users.rows := SetRiskSettings(users.rows, userId, deposit, risk.value);
    assert forall k :: 0 <= k < |users.rows| ==> users.rows[k].userId == old(users.rows)[k].userId;
    saved := true;
  }
}
