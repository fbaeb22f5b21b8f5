/** The three date utilities of `hp_4.py`: `reformat_dates`, `date_range`
    and `add_date_range`.  Python's dynamically typed arguments are
    `Value`s; an exception is a `Failure`. */
module DateUtils {
  import opened Runtime
  import opened Calendar
  import opened DateText

  /** One element of `reformat_dates`: parse `yyyy-mm-dd`, render `dd Mon yyyy`.
      `strptime` raises TypeError on a non-string and ValueError on a bad date. */
  function ReformatOne(v: Value): (r: Result<string>)
    ensures r.Success? <==> v.Str? && ParseIso(v.s).Some?
    ensures r.Failure? ==> r.error == (if v.Str? then ValueError else TypeError)
    ensures r.Success? ==> ParseDisplay(r.value) == ParseIso(v.s)
  {
    match v
    case Str(s) =>
      (match ParseIso(s)
       case Some(d) => DisplayRoundTrip(d); Success(FormatDisplay(d))
       case None => Failure(ValueError))
    case _ => Failure(TypeError)
  }

  /** `reformat_dates(old_dates)`: the list comprehension over the input,
      which stops at the first element that raises. */
  function ReformatDates(oldDates: seq<Value>): (r: Result<seq<string>>)
    ensures r.Success? <==> forall i :: 0 <= i < |oldDates| ==> ReformatOne(oldDates[i]).Success?
    ensures r.Success? ==> |r.value| == |oldDates|
    ensures r.Success? ==> forall i :: 0 <= i < |oldDates| ==>
      oldDates[i].Str? && ParseIso(oldDates[i].s).Some?
      && r.value[i] == FormatDisplay(ParseIso(oldDates[i].s).value)
    ensures r.Failure? ==>
      exists i :: 0 <= i < |oldDates|
        && ReformatOne(oldDates[i]) == Failure(r.error)
        && (forall j :: 0 <= j < i ==> ReformatOne(oldDates[j]).Success?)
  {
    MapAllSucceeds(oldDates, ReformatOne);
    if MapAll(oldDates, ReformatOne).Failure? then
      MapAllFails(oldDates, ReformatOne);
      MapAll(oldDates, ReformatOne)
    else
      MapAll(oldDates, ReformatOne)
  }

  /** Every rendered date reads back to the (year, month, day) its input named. */
  lemma ReformatPreservesDates(oldDates: seq<Value>, i: int)
    requires ReformatDates(oldDates).Success? && 0 <= i < |oldDates|
    ensures oldDates[i].Str?
    ensures ParseDisplay(ReformatDates(oldDates).value[i]) == ParseIso(oldDates[i].s)
  {
    DisplayRoundTrip(ParseIso(oldDates[i].s).value);
  }

  /** The dates `d + timedelta(days=i)` for `i` in `range(count)`, or
      OverflowError when one of them would pass 9999-12-31. */
  function DatesFrom(d: Date, count: int): (r: Result<seq<Date>>)
    requires ValidDate(d)
    ensures r.Failure? <==> count >= 1 && DaysFromCivil(d) + count - 1 > MaxOrdinal
    ensures r.Failure? ==> r.error == OverflowError
    ensures r.Success? ==> |r.value| == (if count > 0 then count else 0)
  {
    var len := if count > 0 then count else 0;
    if len >= 1 && DaysFromCivil(d) + len - 1 > MaxOrdinal then Failure(OverflowError)
    else Success(seq(len, i requires 0 <= i < len => AddDays(d, i).value))
  }

  /** Element `i` of a range is the start date shifted by `i` days. */
  lemma DatesFromShifts(d: Date, count: int)
    requires ValidDate(d) && DatesFrom(d, count).Success?
    ensures forall i :: 0 <= i < |DatesFrom(d, count).value| ==>
      AddDays(d, i) == Some(DatesFrom(d, count).value[i])
  {
    var dates := DatesFrom(d, count).value;
    forall i | 0 <= i < |dates|
      ensures AddDays(d, i) == Some(dates[i])
    {
      assert AddDays(d, i).Some?;
    }
  }

  /** What `date_range(start, n)` returns or raises: TypeError unless `start`
      is a str and `n` an int, checked before anything is parsed; then the
      ValueError of `strptime`; then the dates of `DatesFrom`. */
  function DateRangeOf(start: Value, n: Value): (r: Result<seq<Date>>)
    ensures !(start.Str? && IsInt(n)) ==> r == Failure(TypeError)
    ensures start.Str? && IsInt(n) && ParseIso(start.s).None? ==> r == Failure(ValueError)
    ensures start.Str? && IsInt(n) && ParseIso(start.s).Some? ==>
      (r.Failure? <==> AsInt(n) >= 1 && DaysFromCivil(ParseIso(start.s).value) + AsInt(n) - 1 > MaxOrdinal)
    ensures r.Failure? && start.Str? && IsInt(n) && ParseIso(start.s).Some? ==> r.error == OverflowError
    ensures r.Success? ==> |r.value| == (if AsInt(n) > 0 then AsInt(n) else 0)
    ensures r.Success? ==> forall i :: 0 <= i < |r.value| ==>
      AddDays(ParseIso(start.s).value, i) == Some(r.value[i])
  {
    if !start.Str? || !IsInt(n) then Failure(TypeError)
    else
      match ParseIso(start.s)
      case None => Failure(ValueError)
      case Some(d) =>
        var r := DatesFrom(d, AsInt(n));
        if r.Success? then DatesFromShifts(d, AsInt(n)); r else r
  }

  /** A range of dates starts at its first date and steps exactly one
      calendar day at a time. */
  lemma DatesFromConsecutive(d: Date, count: int)
    requires ValidDate(d) && DatesFrom(d, count).Success?
    ensures var dates := DatesFrom(d, count).value;
      && (|dates| > 0 ==> dates[0] == d)
      && (forall i :: 0 <= i < |dates| ==> ValidDate(dates[i]))
      && (forall i :: 0 <= i < |dates| - 1 ==> dates[i + 1] == NextDay(dates[i]))
  {
    var dates := DatesFrom(d, count).value;
    DatesFromShifts(d, count);
    if |dates| > 0 {
      CivilDaysRoundTrip(d);
    }
    forall i | 0 <= i < |dates| - 1
      ensures dates[i + 1] == NextDay(dates[i])
    {
      AddDaysStep(d, i);
    }
  }

  /** `isinstance(True, int)` holds, so `date_range(start, True)` is
      `date_range(start, 1)` and `date_range(start, False)` is `date_range(start, 0)`. */
  lemma DateRangeOfBool(start: Value, b: bool)
    ensures DateRangeOf(start, Bool(b)) == DateRangeOf(start, Int(if b then 1 else 0))
  {
  }

  /** A successful `date_range` starts at the parsed start date and steps
      exactly one calendar day at a time; `n <= 0` gives the empty list. */
  lemma DateRangeConsecutive(start: Value, n: Value)
    requires DateRangeOf(start, n).Success?
    ensures var dates := DateRangeOf(start, n).value;
      && (AsInt(n) <= 0 <==> dates == [])
      && (|dates| > 0 ==> dates[0] == ParseIso(start.s).value)
      && (forall i :: 0 <= i < |dates| ==> ValidDate(dates[i]))
      && (forall i :: 0 <= i < |dates| - 1 ==> dates[i + 1] == NextDay(dates[i]))
  {
    DatesFromConsecutive(ParseIso(start.s).value, AsInt(n));
  }

  /** `date_range(start, n)`: the type check, `strptime`, then the loop. */
  method DateRange(start: Value, n: Value) returns (r: Result<seq<Date>>)
    ensures r == DateRangeOf(start, n)
  {
    if !start.Str? || !IsInt(n) {
      return Failure(TypeError);
    }
    var parsed := ParseIso(start.s);
    if parsed.None? {
      return Failure(ValueError);
    }
    r := AppendDates(parsed.value, AsInt(n));
  }

  /** The loop of `date_range`: appends `dt + timedelta(days=i)` to `a` for
      each `i` in `range(n)`. */
  method AppendDates(dt: Date, n: int) returns (r: Result<seq<Date>>)
    requires ValidDate(dt)
    ensures r == DatesFrom(dt, n)
  {
    var a: seq<Date> := [];
    var i := 0;
    while i < n
      invariant 0 <= i <= (if n > 0 then n else 0)
      invariant DatesFrom(dt, i) == Success(a)
    {
      var next := AddDays(dt, i);
      if next.None? {
        DatesFromOverflow(dt, n, i);
        return Failure(OverflowError);
      }
      DatesFromExtend(dt, i);
      a := a + [next.value];
      i := i + 1;
    }
    assert DatesFrom(dt, n) == DatesFrom(dt, i);
    return Success(a);
  }

  /** A shift within `range(n)` that leaves the calendar makes the whole range overflow. */
  lemma DatesFromOverflow(dt: Date, n: int, i: int)
    requires ValidDate(dt) && 0 <= i < n && AddDays(dt, i).None?
    ensures DatesFrom(dt, n) == Failure(OverflowError)
  {
  }

  /** A range one day longer is the range followed by the next shift. */
  lemma DatesFromExtend(dt: Date, i: nat)
    requires ValidDate(dt) && DatesFrom(dt, i).Success? && AddDays(dt, i).Some?
    ensures DatesFrom(dt, i + 1) == Success(DatesFrom(dt, i).value + [AddDays(dt, i).value])
  {
    var a := DatesFrom(dt, i).value;
    var b := DatesFrom(dt, i + 1).value;
    var c := a + [AddDays(dt, i).value];
    assert |b| == |c|;
    forall k | 0 <= k < |b|
      ensures b[k] == c[k]
    {
      if k < i {
        assert b[k] == AddDays(dt, k).value == a[k];
      }
    }
    assert b == c;
  }

  /** `add_date_range(values, start_date)`: `zip` of `date_range(start_date,
      len(values))` with `values`. */
  function AddDateRange<T>(values: seq<T>, startDate: Value): (r: Result<seq<(Date, T)>>)
    ensures r.Success? <==> DateRangeOf(startDate, Int(|values|)).Success?
    ensures DateRangeOf(startDate, Int(|values|)).Failure? ==>
      r == Failure(DateRangeOf(startDate, Int(|values|)).error)
    ensures r.Success? ==> |r.value| == |values|
    ensures r.Success? ==> forall i :: 0 <= i < |values| ==>
      r.value[i] == (DateRangeOf(startDate, Int(|values|)).value[i], values[i])
  {
    match DateRangeOf(startDate, Int(|values|))
    case Failure(e) => Failure(e)
    case Success(dates) => Success(seq(|values|, i requires 0 <= i < |values| => (dates[i], values[i])))
  }
}
