/** The intervals of ee/models/tenant_reindex_schedules.rs with their weights written out: what a text is worth in seconds,
    how its numbers are read, and what is trimmed. */
module IntervalWeights {
  import opened Common
  import opened ReindexInterval

  /** The number of a unit, 0 when it is absent. */
  function Amount(comps: seq<Component>, unit: char): nat
  {
    if comps == [] then 0 else (if comps[0].unit == unit then Number(comps[0].digits) else 0) + Amount(comps[1..], unit)
  }

  predicate Distinct(comps: seq<Component>)
  {
    forall j, k :: 0 <= j < k < |comps| ==> comps[j].unit != comps[k].unit
  }

  /** `P`, weeks and days in any order, and optionally `T` with hours, minutes and seconds in any order; no unit twice. */
  ghost predicate Spells(value: string, date: seq<Component>, time: seq<Component>, marked: bool)
  {
    && Trim(value) == "P" + Text(date) + (if marked then "T" + Text(time) else "") && (marked || time == []) && |date| + |time| > 0
    && Shaped(date) && Distinct(date) && (forall k :: 0 <= k < |date| ==> date[k].unit in {'W', 'D'})
    && Shaped(time) && Distinct(time) && (forall k :: 0 <= k < |time| ==> time[k].unit in {'H', 'M', 'S'})
  }

  /** Weeks, days, hours, minutes and seconds in seconds. */
  function Seconds(date: seq<Component>, time: seq<Component>): nat
  {
    604_800 * Amount(date, 'W') + 86_400 * Amount(date, 'D')
    + 3_600 * Amount(time, 'H') + 60 * Amount(time, 'M') + Amount(time, 'S')
  }

  lemma {:induction false} DateWeights(comps: seq<Component>)
    requires forall k :: 0 <= k < |comps| ==> comps[k].unit in {'W', 'D'}
    ensures Total(comps, DateUnits()) == 604_800 * Amount(comps, 'W') + 86_400 * Amount(comps, 'D')
    decreases |comps|
  {
    if comps != [] {
      assert comps[0].unit in {'W', 'D'};
      DateWeights(comps[1..]);
    }
  }

  lemma {:induction false} TimeWeights(comps: seq<Component>)
    requires forall k :: 0 <= k < |comps| ==> comps[k].unit in {'H', 'M', 'S'}
    ensures Total(comps, TimeUnits()) == 3_600 * Amount(comps, 'H') + 60 * Amount(comps, 'M') + Amount(comps, 'S')
    decreases |comps|
  {
    if comps != [] {
      assert comps[0].unit in {'H', 'M', 'S'};
      TimeWeights(comps[1..]);
    }
  }

  lemma {:induction false} SpellsIsDenotes(value: string, date: seq<Component>, time: seq<Component>, marked: bool)
    ensures Spells(value, date, time, marked) <==> Denotes(value, date, time, marked)
    ensures Spells(value, date, time, marked) ==> Sum(date, time) == Seconds(date, time)
  {
    assert "P" + Text(date) + (if marked then "T" + Text(time) else "") == Rendered(date, time, marked);
    assert UnitsOk(date, DateUnits()) <==> Distinct(date) && forall k :: 0 <= k < |date| ==> date[k].unit in {'W', 'D'};
    assert UnitsOk(time, TimeUnits()) <==> Distinct(time) && forall k :: 0 <= k < |time| ==> time[k].unit in {'H', 'M', 'S'};
    if Spells(value, date, time, marked) {
      DateWeights(date);
      TimeWeights(time);
    }
  }

  /** A text is an interval exactly if it is spelled so and its seconds are positive and fit a duration; and then it is
      worth 604800 per week, 86400 per day, 3600 per hour, 60 per minute and 1 per second. */
  lemma {:induction false} IntervalsWeighTheirUnits(value: string, n: nat)
    ensures IntervalOf(value) == Some(n) <==>
              0 < n <= 9_223_372_036_854_775
              && exists date, time, marked :: Spells(value, date, time, marked) && Seconds(date, time) == n
  {
    AcceptsExactlyTheGrammar(value, n);
    if date, time, marked :| Denotes(value, date, time, marked) && Sum(date, time) == n {
      SpellsIsDenotes(value, date, time, marked);
    }
    if date, time, marked :| Spells(value, date, time, marked) && Seconds(date, time) == n {
      SpellsIsDenotes(value, date, time, marked);
    }
  }

  lemma {:induction false} SpelledIsWorth(value: string, date: seq<Component>, time: seq<Component>, marked: bool, n: nat)
    requires Spells(value, date, time, marked) && Seconds(date, time) == n && 0 < n <= 9_223_372_036_854_775
    ensures IntervalOf(value) == Some(n)
  {
    IntervalsWeighTheirUnits(value, n);
  }

  // ---------------------------------------------------------------- numbers

  function Decimal(n: nat): string
  {
    (if n < 10 then "" else Decimal(n / 10)) + ["0123456789"[n % 10]]
  }

  lemma {:induction false} OneMoreDigit(init: string, digit: nat)
    requires AllDigits(init) && digit < 10
    ensures var d := init + ["0123456789"[digit]]; AllDigits(d) && Number(d) == 10 * Number(init) + digit
  {
    var d := init + ["0123456789"[digit]];
    DigitValue(digit);
    assert d[..|d| - 1] == init;
  }

  /** A decimal numeral is read as its number. */
  lemma {:induction false} NumbersAreDecimal(n: nat)
    ensures Number(Decimal(n)) == n && AllDigits(Decimal(n)) && Decimal(n) != []
    decreases n
  {
    if n >= 10 { NumbersAreDecimal(n / 10); }
    OneMoreDigit(if n < 10 then "" else Decimal(n / 10), n % 10);
  }

  lemma {:induction false} DigitValue(n: nat)
    requires n < 10
    ensures IsDigit("0123456789"[n]) && ("0123456789"[n] - '0') as int == n
  {
  }

  /** A leading zero does not change a number. */
  lemma {:induction false} LeadingZerosCountNothing(digits: string)
    requires AllDigits(digits)
    ensures Number("0" + digits) == Number(digits)
    decreases |digits|
  {
    var d := "0" + digits;
    if digits != [] {
      assert d[..|d| - 1] == "0" + digits[..|digits| - 1] && d[|d| - 1] == digits[|digits| - 1];
      LeadingZerosCountNothing(digits[..|digits| - 1]);
    } else {
      assert d == "0" && d[..0] == "";
    }
  }

  // ---------------------------------------------------------------- trimming

  predicate AllSpace(s: string)
  {
    forall k :: 0 <= k < |s| ==> IsSpace(s[k])
  }

  lemma {:induction false} StartIsTrimmed(s: string) returns (a: string)
    ensures s == a + TrimStart(s) && AllSpace(a) && (TrimStart(s) != [] ==> !IsSpace(TrimStart(s)[0]))
    decreases |s|
  {
    if s != [] && IsSpace(s[0]) {
      var rest := StartIsTrimmed(s[1..]);
      a := [s[0]] + rest;
    } else {
      a := "";
    }
  }

  lemma {:induction false} EndIsTrimmed(s: string) returns (b: string)
    ensures s == TrimEnd(s) + b && AllSpace(b) && (TrimEnd(s) != [] ==> !IsSpace(TrimEnd(s)[|TrimEnd(s)| - 1]))
    decreases |s|
  {
    if s != [] && IsSpace(s[|s| - 1]) {
      var rest := EndIsTrimmed(s[..|s| - 1]);
      b := rest + [s[|s| - 1]];
    } else {
      b := "";
    }
  }

  /** The characters that count as white space and as digits. */
  lemma {:induction false} SpacesAndDigits(c: char)
    ensures IsSpace(c) <==> c as int in {9, 10, 11, 12, 13, 32, 0x85, 0xA0, 0x1680, 0x2000, 0x2001, 0x2002, 0x2003, 0x2004, 0x2005,
                                         0x2006, 0x2007, 0x2008, 0x2009, 0x200A, 0x2028, 0x2029, 0x202F, 0x205F, 0x3000}
    ensures IsDigit(c) <==> c in "0123456789"
  {
    if IsDigit(c) { assert "0123456789"[c as int - '0' as int] == c; }
  }

  /** Trimming removes white space at both ends and nothing else. */
  lemma {:induction false} TrimKeepsTheMiddle(s: string) returns (a: string, b: string)
    ensures s == a + Trim(s) + b && AllSpace(a) && AllSpace(b)
    ensures Trim(s) != [] ==> !IsSpace(Trim(s)[0]) && !IsSpace(Trim(s)[|Trim(s)| - 1])
  {
    a := StartIsTrimmed(s);
    b := EndIsTrimmed(TrimStart(s));
    var middle := Trim(s);
    assert TrimStart(s) == middle + b;
    if middle != [] { assert TrimStart(s)[0] == middle[0]; }
  }

  // ---------------------------------------------------------------- documented intervals

  function Weight(unit: char): nat
  {
    if unit == 'W' then 604_800 else if unit == 'D' then 86_400 else if unit == 'H' then 3_600 else if unit == 'M' then 60 else 1
  }

  lemma {:induction false} TextOfOne(digits: string, unit: char)
    ensures Text([Component(digits, unit)]) == digits + [unit]
    ensures forall u :: Amount([Component(digits, unit)], u) == if u == unit then Number(digits) else 0
  {
    var none: seq<Component> := [];
    assert [Component(digits, unit)][1..] == none && Text(none) == "";
    assert digits + [unit] + "" == digits + [unit];
  }

  lemma {:induction false} OneIsWorth(digits: string, unit: char)
    ensures unit in {'W', 'D'} ==> Seconds([Component(digits, unit)], []) == Weight(unit) * Number(digits)
    ensures unit in {'H', 'M', 'S'} ==> Seconds([], [Component(digits, unit)]) == Weight(unit) * Number(digits)
  {
    TextOfOne(digits, unit);
  }

  lemma {:induction false} OneDateIsSpelled(value: string, unit: char, digits: string)
    requires digits != [] && AllDigits(digits) && unit in {'W', 'D'} && value == "P" + digits + [unit]
    ensures Spells(value, [Component(digits, unit)], [], false)
  {
    var date := [Component(digits, unit)];
    TextOfOne(digits, unit);
    UntrimmedStays(value, unit);
    assert value == "P" + (digits + [unit]) + "";
    assert Shaped(date) && Distinct(date);
  }

  lemma {:induction false} OneDate(value: string, unit: char, digits: string)
    requires digits != [] && AllDigits(digits) && unit in {'W', 'D'} && 0 < Number(digits) <= 1_000
    requires value == "P" + digits + [unit]
    ensures IntervalOf(value) == Some(Weight(unit) * Number(digits))
  {
    OneDateIsSpelled(value, unit, digits);
    OneIsWorth(digits, unit);
    SpelledIsWorth(value, [Component(digits, unit)], [], false, Weight(unit) * Number(digits));
  }

  lemma {:induction false} OneTimeIsSpelled(value: string, unit: char, digits: string)
    requires digits != [] && AllDigits(digits) && unit in {'H', 'M', 'S'} && value == "PT" + digits + [unit]
    ensures Spells(value, [], [Component(digits, unit)], true)
  {
    var none: seq<Component>, time := [], [Component(digits, unit)];
    TextOfOne(digits, unit);
    UntrimmedStays(value, unit);
    assert Text(none) == "";
    assert value == "P" + "" + ("T" + (digits + [unit]));
    assert Shaped(time) && Distinct(time);
  }

  lemma {:induction false} OneTime(value: string, unit: char, digits: string)
    requires digits != [] && AllDigits(digits) && unit in {'H', 'M', 'S'} && 0 < Number(digits) <= 1_000
    requires value == "PT" + digits + [unit]
    ensures IntervalOf(value) == Some(Weight(unit) * Number(digits))
  {
    OneTimeIsSpelled(value, unit, digits);
    OneIsWorth(digits, unit);
    SpelledIsWorth(value, [], [Component(digits, unit)], true, Weight(unit) * Number(digits));
  }

  lemma {:induction false} UntrimmedStays(value: string, unit: char)
    requires |value| > 0 && value[0] == 'P' && value[|value| - 1] == unit && !IsSpace(unit)
    ensures Trim(value) == value
  {
  }

  lemma {:induction false} DigitIsItsNumber(digit: nat)
    requires digit < 10
    ensures AllDigits(["0123456789"[digit]]) && Number(["0123456789"[digit]]) == digit
  {
    OneMoreDigit("", digit);
    assert "" + ["0123456789"[digit]] == ["0123456789"[digit]];
  }

  /** The intervals that the source documents. */
  lemma {:induction false} OneDay()
    ensures IntervalOf("P1D") == Some(86_400)
  {
    DigitIsItsNumber(1);
    assert ["0123456789"[1]] == "1" && "P" + "1" + ['D'] == "P1D";
    OneDate("P1D", 'D', "1");
  }

  lemma {:induction false} OneWeek()
    ensures IntervalOf("P1W") == Some(604_800)
  {
    DigitIsItsNumber(1);
    assert ["0123456789"[1]] == "1" && "P" + "1" + ['W'] == "P1W";
    OneDate("P1W", 'W', "1");
  }

  lemma {:induction false} SixHours()
    ensures IntervalOf("PT6H") == Some(21_600)
  {
    DigitIsItsNumber(6);
    assert ["0123456789"[6]] == "6" && "PT" + "6" + ['H'] == "PT6H";
    OneTime("PT6H", 'H', "6");
  }

  lemma {:induction false} FiveMinutes()
    ensures IntervalOf("PT5M") == Some(300)
  {
    DigitIsItsNumber(5);
    assert ["0123456789"[5]] == "5" && "PT" + "5" + ['M'] == "PT5M";
    OneTime("PT5M", 'M', "5");
  }
}
