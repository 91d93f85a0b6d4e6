/** The ISO 8601 interval reader of ee/models/tenant_reindex_schedules.rs, and the grammar it accepts. */
module ReindexInterval {
  import opened Common

  /** A number and its unit, such as `12H`. */
  datatype Component = Component(digits: string, unit: char)

  type Units = map<char, nat>

  function DateUnits(): Units { map['W' := 604_800, 'D' := 86_400] }

  function TimeUnits(): Units { map['H' := 3_600, 'M' := 60, 'S' := 1] }

  predicate IsDigit(c: char) { '0' <= c <= '9' }

  /** The white space that `trim` removes. */
  predicate IsSpace(c: char)
  {
    || '\t' <= c <= '\r' || c == ' ' || c == '\U{85}' || c == '\U{A0}' || c == '\U{1680}' || '\U{2000}' <= c <= '\U{200A}'
    || c == '\U{2028}' || c == '\U{2029}' || c == '\U{202F}' || c == '\U{205F}' || c == '\U{3000}'
  }

  function TrimStart(s: string): string
  {
    if s != [] && IsSpace(s[0]) then TrimStart(s[1..]) else s
  }

  function TrimEnd(s: string): string
  {
    if s != [] && IsSpace(s[|s| - 1]) then TrimEnd(s[..|s| - 1]) else s
  }

  function Trim(s: string): string
  {
    TrimEnd(TrimStart(s))
  }

  /** The value of a run of digits. */
  function Number(digits: string): nat
  {
    if digits == [] then 0
    else 10 * Number(digits[..|digits| - 1])
         + if IsDigit(digits[|digits| - 1]) then (digits[|digits| - 1] - '0') as int else 0
  }

  /** `parse::<i64>` on a run of digits. */
  function ParseI64(digits: string): Option<nat>
  {
    if digits == [] || Number(digits) > I64_MAX then None else Some(Number(digits))
  }

  // ---------------------------------------------------------------- components

  function Text(comps: seq<Component>): string
  {
    if comps == [] then [] else comps[0].digits + [comps[0].unit] + Text(comps[1..])
  }

  predicate AllDigits(s: string)
  {
    forall k :: 0 <= k < |s| ==> IsDigit(s[k])
  }

  predicate Shaped(comps: seq<Component>)
  {
    forall k :: 0 <= k < |comps| ==> comps[k].digits != [] && AllDigits(comps[k].digits) && !IsDigit(comps[k].unit)
  }

  /** Every unit is known, and none is repeated. */
  ghost predicate UnitsOk(comps: seq<Component>, units: Units)
  {
    && (forall k :: 0 <= k < |comps| ==> comps[k].unit in units)
    && (forall j, k :: 0 <= j < k < |comps| ==> comps[j].unit != comps[k].unit)
  }

  /** The exact sum of the components, in seconds. */
  function Total(comps: seq<Component>, units: Units): nat
  {
    if comps == [] then 0 else Worth(comps[0], units) + Total(comps[1..], units)
  }

  function Worth(c: Component, units: Units): nat
  {
    Number(c.digits) * if c.unit in units then units[c.unit] else 0
  }

  /** Splits a text, after `number` was read, into components. */
  function Split(part: string, number: string): Option<seq<Component>>
    decreases |part|
  {
    if part == [] then (if number == [] then Some([]) else None)
    else if IsDigit(part[0]) then Split(part[1..], number + [part[0]])
    else if number == [] then None
    else
      match Split(part[1..], [])
      case None => None
      case Some(rest) => Some([Component(number, part[0])] + rest)
  }

  lemma {:induction false} SplitIsSound(part: string, number: string)
    requires AllDigits(number)
    ensures Split(part, number).Some? ==>
              Text(Split(part, number).value) == number + part && Shaped(Split(part, number).value)
    decreases |part|
  {
    if part != [] {
      assert part == [part[0]] + part[1..];
      if IsDigit(part[0]) {
        SplitIsSound(part[1..], number + [part[0]]);
        assert number + [part[0]] + part[1..] == number + part;
      } else if number != [] && Split(part[1..], []).Some? {
        SplitIsSound(part[1..], []);
        var rest := Split(part[1..], []).value;
        assert ([Component(number, part[0])] + rest)[1..] == rest;
      }
    }
  }

  lemma {:induction false} SplitReadsDigits(digits: string, number: string, rest: string)
    requires AllDigits(digits)
    ensures Split(digits + rest, number) == Split(rest, number + digits)
    decreases |digits|
  {
    if digits == [] {
      assert digits + rest == rest && number + digits == number;
    } else {
      SplitReadsDigits(digits[1..], number + [digits[0]], rest);
      assert (digits + rest)[1..] == digits[1..] + rest;
      assert number + [digits[0]] + digits[1..] == number + digits;
    }
  }

  /** Only the components themselves have their text: the split undoes the rendering. */
  lemma {:induction false} SplitInvertsText(comps: seq<Component>)
    requires Shaped(comps)
    ensures Split(Text(comps), []) == Some(comps)
    decreases |comps|
  {
    if comps != [] {
      var c, rest := comps[0], comps[1..];
      SplitInvertsText(rest);
      SplitReadsDigits(c.digits, [], [c.unit] + Text(rest));
      assert c.digits + ([c.unit] + Text(rest)) == Text(comps);
      assert ([c.unit] + Text(rest))[1..] == Text(rest) && [] + c.digits == c.digits;
      assert [c] + rest == comps;
    }
  }

  /** What `seconds_in` answers: the exact total and the number of components. */
  ghost function SecondsOf(part: string, units: Units): Option<(nat, nat)>
  {
    match Split(part, [])
    case None => None
    case Some(comps) =>
      if UnitsOk(comps, units) && Total(comps, units) <= I64_MAX then Some((Total(comps, units), |comps|)) else None
  }

  lemma {:induction false} TotalOfJoin(a: seq<Component>, b: seq<Component>, units: Units)
    ensures Total(a + b, units) == Total(a, units) + Total(b, units)
    decreases |a|
  {
    if a == [] {
      assert a + b == b;
    } else {
      TotalOfJoin(a[1..], b, units);
      assert (a + b)[1..] == a[1..] + b;
    }
  }

  /** The components read so far, followed by what the rest of the text gives. */
  function Joined(comps: seq<Component>, rest: Option<seq<Component>>): Option<seq<Component>>
  {
    if rest.None? then None else Some(comps + rest.value)
  }

  /** A refused component refuses every text it starts. */
  lemma {:induction false} BadComponentRefused(part: string, units: Units, comps: seq<Component>, c: Component,
                                               rest: Option<seq<Component>>)
    requires Split(part, []) == Joined(comps + [c], rest)
    requires c.unit !in units || (exists k :: 0 <= k < |comps| && comps[k].unit == c.unit)
             || Total(comps, units) + Worth(c, units) > I64_MAX
    ensures SecondsOf(part, units).None?
  {
    if rest.Some? {
      var all := comps + [c] + rest.value;
      assert all[|comps|] == c;
      if k :| 0 <= k < |comps| && comps[k].unit == c.unit { assert all[k] == comps[k]; }
      TotalOfJoin(comps, [c], units);
      TotalOfJoin(comps + [c], rest.value, units);
      assert [c][1..] == [];
    }
  }

  /** `total.checked_add(number.parse().ok()?.checked_mul(factor)?)`: the sum, unless any step leaves the 64-bit range. */
  method CheckedAdd(total: nat, number: string, factor: nat) returns (r: Option<nat>)
    requires 0 < factor
    ensures r == if number == [] || total + Number(number) * factor > I64_MAX then None else Some(total + Number(number) * factor)
  {
    var n := ParseI64(number);
    if n.None? { return None; }
    var product := n.value * factor;
    if product > I64_MAX { return None; }
    if total + product > I64_MAX { return None; }
    return Some(total + product);
  }

  lemma {:induction false} TotalOfOneMore(comps: seq<Component>, c: Component, units: Units)
    ensures Total(comps + [c], units) == Total(comps, units) + Worth(c, units)
  {
    TotalOfJoin(comps, [c], units);
    assert [c][1..] == [];
  }

  /** The loop of `seconds_in` computes the exact total, and refuses exactly what has no exact 64-bit total. */
  method SecondsIn(part: string, units: Units) returns (r: Option<(nat, nat)>)
    requires forall u :: u in units ==> 0 < units[u] && !IsDigit(u)
    ensures r == SecondsOf(part, units)
  {
    var total: nat, components: nat := 0, 0;
    var number: string := "";
    var seen: seq<char> := [];
    ghost var comps: seq<Component> := [];
    assert part[0..] == part && (Split(part, []).Some? ==> [] + Split(part, []).value == Split(part, []).value);
    for k := 0 to |part|
      invariant AllDigits(number) && Split(part, []) == Joined(comps, Split(part[k..], number))
      invariant UnitsOk(comps, units) && Total(comps, units) == total <= I64_MAX
      invariant components == |comps| && |seen| == |comps| && forall j :: 0 <= j < |comps| ==> seen[j] == comps[j].unit
    {
      var ch := part[k];
      assert part[k..][0] == ch && part[k..][1..] == part[k + 1..];
      if IsDigit(ch) {
        number := number + [ch];
        continue;
      }
      ghost var c := Component(number, ch);
      ghost var rest := Split(part[k + 1..], []);
      if number != [] { assert Split(part, []) == Joined(comps + [c], rest) by { JoinOne(comps, c, rest); } }
      if ch !in units {
        if number != [] { BadComponentRefused(part, units, comps, c, rest); }
        return None;
      }
      if ch in seen {
        if number != [] { BadComponentRefused(part, units, comps, c, rest); }
        return None;
      }
      seen := seen + [ch];
      var added := CheckedAdd(total, number, units[ch]);
      if added.None? {
        if number != [] { BadComponentRefused(part, units, comps, c, rest); }
        return None;
      }
      total := added.value;
      TotalOfOneMore(comps, c, units);
      comps := comps + [c];
      number := "";
      components := components + 1;
    }
    assert part[|part|..] == [];
    if number != [] { return None; }
    assert comps + [] == comps;
    return Some((total, components));
  }

  lemma {:induction false} JoinOne(comps: seq<Component>, c: Component, rest: Option<seq<Component>>)
    ensures Joined(comps + [c], rest) == Joined(comps, if rest.None? then None else Some([c] + rest.value))
  {
    if rest.Some? { assert comps + [c] + rest.value == comps + ([c] + rest.value); }
  }

  // ---------------------------------------------------------------- the whole interval

  /** What `chrono::Duration` can hold, in seconds. */
  const MAX_SECONDS: int := I64_MAX / 1000

  /** The text before the first `T`, and the text after it. */
  function BeforeT(s: string): (d: string)
    ensures |d| <= |s| && s[..|d|] == d && 'T' !in d && (|d| < |s| ==> s[|d|] == 'T')
  {
    if s == [] || s[0] == 'T' then []
    else
      assert s == [s[0]] + s[1..];
      [s[0]] + BeforeT(s[1..])
  }

  function AfterT(s: string): string
  {
    if |BeforeT(s)| < |s| then s[|BeforeT(s)| + 1..] else []
  }

  /** The answer for the two halves of an interval. */
  function Combined(date: Option<(nat, nat)>, time: Option<(nat, nat)>): Option<nat>
  {
    if date.None? || time.None? then None
    else
      var seconds := date.value.0 + time.value.0;
      if seconds > I64_MAX || date.value.1 + time.value.1 == 0 || seconds == 0 || seconds > MAX_SECONDS then None
      else Some(seconds)
  }

  ghost function IntervalOf(value: string): Option<nat>
  {
    var text := Trim(value);
    if text == [] || text[0] != 'P' then None
    else Combined(SecondsOf(BeforeT(text[1..]), DateUnits()), SecondsOf(AfterT(text[1..]), TimeUnits()))
  }

  method ParseInterval(value: string) returns (r: Option<nat>)
    ensures r == IntervalOf(value)
  {
    var text := Trim(value);
    if text == [] || text[0] != 'P' { return None; }
    var rest := text[1..];
    var date := SecondsIn(BeforeT(rest), DateUnits());
    if date.None? { return None; }
    var time := SecondsIn(AfterT(rest), TimeUnits());
    if time.None? { return None; }
    var seconds := date.value.0 + time.value.0;
    if seconds > I64_MAX { return None; }
    if date.value.1 + time.value.1 == 0 || seconds == 0 || seconds > MAX_SECONDS { return None; }
    return Some(seconds);
  }

  /** `P`, date components, and optionally `T` and time components. */
  function Rendered(date: seq<Component>, time: seq<Component>, marked: bool): string
  {
    "P" + Rest(Text(date), Text(time), marked)
  }

  function Rest(date: string, time: string, marked: bool): string
  {
    date + if marked then "T" + time else ""
  }

  ghost predicate Legal(comps: seq<Component>, units: Units)
  {
    Shaped(comps) && UnitsOk(comps, units)
  }

  /** The grammar: at least one component, known units, none repeated within its half. */
  ghost predicate Denotes(value: string, date: seq<Component>, time: seq<Component>, marked: bool)
  {
    && Trim(value) == Rendered(date, time, marked) && (marked || time == []) && |date| + |time| > 0
    && Legal(date, DateUnits()) && Legal(time, TimeUnits())
  }

  function Sum(date: seq<Component>, time: seq<Component>): nat
  {
    Total(date, DateUnits()) + Total(time, TimeUnits())
  }

  lemma {:induction false} DateTextHasNoT(date: seq<Component>)
    requires Legal(date, DateUnits())
    ensures 'T' !in Text(date)
    decreases |date|
  {
    if date != [] {
      assert Legal(date[1..], DateUnits()) && date[0].unit in DateUnits();
      DateTextHasNoT(date[1..]);
    }
  }

  /** A text is cut at its first `T`. */
  lemma {:induction false} CutAtT(d: string, t: string, marked: bool)
    requires 'T' !in d
    ensures BeforeT(Rest(d, t, marked)) == d && AfterT(Rest(d, t, marked)) == if marked then t else ""
    decreases |d|
  {
    var s := Rest(d, t, marked);
    if d == [] {
      assert s == if marked then "T" + t else "";
    } else {
      CutAtT(d[1..], t, marked);
      assert s[0] == d[0] && s[1..] == Rest(d[1..], t, marked) && d == [d[0]] + d[1..];
    }
  }

  lemma {:induction false} SecondsOfText(comps: seq<Component>, units: Units)
    requires Legal(comps, units)
    ensures SecondsOf(Text(comps), units) == if Total(comps, units) <= I64_MAX then Some((Total(comps, units), |comps|)) else None
  {
    SplitInvertsText(comps);
  }

  lemma {:induction false} SecondsHaveComponents(part: string, units: Units) returns (comps: seq<Component>)
    requires SecondsOf(part, units).Some?
    ensures Legal(comps, units) && Text(comps) == part && SecondsOf(part, units) == Some((Total(comps, units), |comps|))
  {
    SplitIsSound(part, []);
    assert [] + part == part;
    comps := Split(part, []).value;
  }

  lemma {:induction false} CutOfRendered(value: string, date: seq<Component>, time: seq<Component>, marked: bool)
    requires Denotes(value, date, time, marked)
    ensures IntervalOf(value) == Combined(SecondsOf(Text(date), DateUnits()), SecondsOf(Text(time), TimeUnits()))
  {
    var text := Trim(value);
    assert text[0] == 'P' && text[1..] == Rest(Text(date), Text(time), marked);
    DateTextHasNoT(date);
    CutAtT(Text(date), Text(time), marked);
    if !marked { assert Text(time) == ""; }
  }

  lemma {:induction false} CombinedExactly(d: nat, t: nat, nd: nat, nt: nat)
    requires nd + nt > 0
    ensures Combined(if d <= I64_MAX then Some((d, nd)) else None, if t <= I64_MAX then Some((t, nt)) else None)
         == if 0 < d + t <= MAX_SECONDS then Some(d + t) else None
  {
  }

  /** Whatever follows the grammar is accepted if its exact sum is positive and fits, and refused otherwise. */
  lemma {:induction false} GrammarIsAccepted(value: string, date: seq<Component>, time: seq<Component>, marked: bool)
    requires Denotes(value, date, time, marked)
    ensures IntervalOf(value) == if 0 < Sum(date, time) <= MAX_SECONDS then Some(Sum(date, time)) else None
  {
    CutOfRendered(value, date, time, marked);
    CombinedOfTexts(date, time);
  }

  lemma {:induction false} CombinedOfTexts(date: seq<Component>, time: seq<Component>)
    requires Legal(date, DateUnits()) && Legal(time, TimeUnits()) && |date| + |time| > 0
    ensures Combined(SecondsOf(Text(date), DateUnits()), SecondsOf(Text(time), TimeUnits()))
         == if 0 < Sum(date, time) <= MAX_SECONDS then Some(Sum(date, time)) else None
  {
    SecondsOfText(date, DateUnits());
    SecondsOfText(time, TimeUnits());
    CombinedExactly(Total(date, DateUnits()), Total(time, TimeUnits()), |date|, |time|);
  }

  lemma {:induction false} Rejoins(s: string, d: string)
    requires |d| <= |s| && s[..|d|] == d && (|d| < |s| ==> s[|d|] == 'T')
    ensures s == Rest(d, if |d| < |s| then s[|d| + 1..] else [], |d| < |s|)
  {
  }

  lemma {:induction false} JoinsAtT(s: string)
    ensures s == Rest(BeforeT(s), AfterT(s), |BeforeT(s)| < |s|)
    ensures |BeforeT(s)| == |s| ==> AfterT(s) == []
  {
    Rejoins(s, BeforeT(s));
  }

  lemma {:induction false} EmptyTextMeansNone(comps: seq<Component>)
    requires Text(comps) == []
    ensures comps == []
  {
  }

  lemma {:induction false} AcceptedHalves(rest: string) returns (date: seq<Component>, time: seq<Component>, marked: bool)
    requires Combined(SecondsOf(BeforeT(rest), DateUnits()), SecondsOf(AfterT(rest), TimeUnits())).Some?
    ensures Legal(date, DateUnits()) && Legal(time, TimeUnits()) && (marked || time == []) && |date| + |time| > 0
    ensures rest == Rest(Text(date), Text(time), marked)
  {
    marked := |BeforeT(rest)| < |rest|;
    date := SecondsHaveComponents(BeforeT(rest), DateUnits());
    time := SecondsHaveComponents(AfterT(rest), TimeUnits());
    JoinsAtT(rest);
    if !marked { EmptyTextMeansNone(time); }
  }

  /** Whatever is accepted follows the grammar, and the answer is the exact sum of its components. */
  lemma {:induction false} AcceptedFollowsGrammar(value: string) returns (date: seq<Component>, time: seq<Component>,
                                                  marked: bool)
    requires IntervalOf(value).Some?
    ensures Denotes(value, date, time, marked) && IntervalOf(value) == Some(Sum(date, time))
    ensures 0 < Sum(date, time) <= MAX_SECONDS
  {
    var text := Trim(value);
    date, time, marked := AcceptedHalves(text[1..]);
    assert text == "P" + text[1..];
    GrammarIsAccepted(value, date, time, marked);
  }

  /** `parse_interval` accepts exactly its grammar, with exactly the sum of the components that fits. */
  lemma {:induction false} AcceptsExactlyTheGrammar(value: string, n: nat)
    ensures IntervalOf(value) == Some(n) <==>
              0 < n <= MAX_SECONDS && exists date, time, marked :: Denotes(value, date, time, marked) && Sum(date, time) == n
  {
    if IntervalOf(value) == Some(n) {
      var date, time, marked := AcceptedFollowsGrammar(value);
      assert Denotes(value, date, time, marked) && Sum(date, time) == n;
    }
    if date, time, marked :| Denotes(value, date, time, marked) && Sum(date, time) == n {
      GrammarIsAccepted(value, date, time, marked);
    }
  }

  // ---------------------------------------------------------------- order of components

  lemma {:induction false} TotalWithout(comps: seq<Component>, k: nat, units: Units)
    requires k < |comps|
    ensures Total(comps, units) == Worth(comps[k], units) + Total(comps[..k] + comps[k + 1..], units)
  {
    TotalOfJoin(comps[..k], comps[k..], units);
    TotalOfJoin(comps[..k], comps[k + 1..], units);
    assert comps == comps[..k] + comps[k..] && comps[k..][0] == comps[k] && comps[k..][1..] == comps[k + 1..];
  }

  lemma {:induction false} WithoutFirst(a: seq<Component>)
    requires a != []
    ensures multiset(a[1..]) == multiset(a) - multiset{a[0]}
  {
    assert a == [a[0]] + a[1..];
  }

  /** `b` with its copy of the first component of `a` removed is a rearrangement of the rest of `a`. */
  lemma {:induction false} DropTheSame(a: seq<Component>, b: seq<Component>) returns (k: nat)
    requires multiset(a) == multiset(b) && a != []
    ensures k < |b| && b[k] == a[0] && multiset(a[1..]) == multiset(b[..k] + b[k + 1..])
  {
    assert a[0] in multiset(a);
    k := FindIn(b, a[0]);
    WithoutFirst(a);
    WithoutOne(b, k);
  }

  /** The sum does not depend on the order of the components. */
  lemma {:induction false} TotalIgnoresOrder(a: seq<Component>, b: seq<Component>, units: Units)
    requires multiset(a) == multiset(b)
    ensures Total(a, units) == Total(b, units)
    decreases |a|
  {
    if a != [] {
      var k := DropTheSame(a, b);
      TotalWithout(b, k, units);
      TotalIgnoresOrder(a[1..], b[..k] + b[k + 1..], units);
    } else {
      assert |b| == |multiset(b)|;
    }
  }

  lemma {:induction false} SumIgnoresOrder(d: seq<Component>, t: seq<Component>, d': seq<Component>, t': seq<Component>)
    requires multiset(d) == multiset(d') && multiset(t) == multiset(t')
    ensures Sum(d, t) == Sum(d', t')
  {
    TotalIgnoresOrder(d, d', DateUnits());
    TotalIgnoresOrder(t, t', TimeUnits());
  }

  /** Two texts whose components differ only in order denote the same interval, or are both refused. */
  lemma {:induction false} IntervalIgnoresOrder(v: string, d: seq<Component>, t: seq<Component>, m: bool,
                             v': string, d': seq<Component>, t': seq<Component>, m': bool)
    requires Denotes(v, d, t, m) && Denotes(v', d', t', m')
    requires multiset(d) == multiset(d') && multiset(t) == multiset(t')
    ensures IntervalOf(v) == IntervalOf(v')
  {
    GrammarIsAccepted(v, d, t, m);
    GrammarIsAccepted(v', d', t', m');
    SumIgnoresOrder(d, t, d', t');
  }
}
