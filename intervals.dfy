/**
 * Interval: a configured duration, a `long` time and a java.util.concurrent
 * TimeUnit, read in any unit with TimeUnit.convert and set from
 * configuration text with a case-insensitive unit name.
 */
module Intervals {
  import opened Common

  datatype TimeUnit = NANOSECONDS | MICROSECONDS | MILLISECONDS | SECONDS | MINUTES | HOURS | DAYS

  /** The number of nanoseconds in one unit (TimeUnit's scale). */
  function Scale(u: TimeUnit): (n: int)
    ensures n >= 1
  {
    match u
    case NANOSECONDS => 1
    case MICROSECONDS => 1000
    case MILLISECONDS => 1000 * 1000
    case SECONDS => 1000 * 1000 * 1000
    case MINUTES => 60 * 1000 * 1000 * 1000
    case HOURS => 60 * 60 * 1000 * 1000 * 1000
    case DAYS => 24 * 60 * 60 * 1000 * 1000 * 1000
  }

  /**
   * target.convert(d, source): the same value if the units agree; towards a
   * coarser unit, d divided by the ratio with Java's truncating division;
   * towards a finer unit, d times the ratio, saturated at Long.MAX_VALUE and
   * Long.MIN_VALUE.
   */
  function Convert(d: Long, source: TimeUnit, target: TimeUnit): (c: Long)
    ensures source == target ==> c == d
    ensures Scale(source) < Scale(target) ==> if d >= 0 then 0 <= c <= d else d <= c <= 0
    ensures Scale(source) > Scale(target) ==> if d >= 0 then d <= c else c <= d
  {
    var src, dst := Scale(source), Scale(target);
    if src == dst then d
    else if src < dst then TruncDiv(d, dst / src)
    else Saturate(d, src / dst)
  }

  /** d * r, or Long.MAX_VALUE / Long.MIN_VALUE beyond the threshold LONG_MAX / r (TimeUnit's cvt). */
  function Saturate(d: Long, r: int): (s: Long)
    requires r >= 1
    ensures if d >= 0 then d <= s else s <= d
  {
    var m := LONG_MAX / r;
    if d > m then LONG_MAX
    else if d < -m then LONG_MIN
    else
      SaturationBound(d, r);
      MulAtLeast(if d >= 0 then d else -d, r);
      assert (-d) * r == -(d * r);
      d * r
  }

  /** Below the saturation threshold LONG_MAX / r the product d * r is a `long`. */
  lemma SaturationBound(d: int, r: int)
    requires r >= 1 && -(LONG_MAX / r) <= d <= LONG_MAX / r
    ensures -LONG_MAX <= d * r <= LONG_MAX
  {
    var m := LONG_MAX / r;
    assert m * r <= LONG_MAX;
    if d >= 0 {
      MulMonotone(d, m, r);
    } else {
      MulMonotone(-d, m, r);
      assert (-d) * r == -(d * r);
    }
  }

  lemma MulMonotone(a: int, b: int, r: int)
    requires 0 <= a <= b && r >= 0
    ensures a * r <= b * r
  {
    assert b * r - a * r == (b - a) * r;
  }

  /** Above the threshold the product is out of range. */
  lemma SaturationExceeded(d: int, r: int)
    requires r >= 1 && d > LONG_MAX / r
    ensures d * r > LONG_MAX
  {
    var m := LONG_MAX / r;
    assert LONG_MAX < (m + 1) * r;
    MulMonotone(m + 1, d, r);
  }

  // ---------------------------------------------------------------------
  // Properties of convert

  /** Converting a value to its own unit returns it unchanged. */
  lemma ConvertToSameUnit(d: Long, u: TimeUnit)
    ensures Convert(d, u, u) == d
  {
  }

  /**
   * Towards a coarser unit the result is the quotient truncated toward zero:
   * result * ratio lies between 0 and d, less than one ratio away from d.
   */
  lemma {:induction false} ConvertToCoarserTruncates(d: Long, source: TimeUnit, target: TimeUnit)
    requires Scale(source) < Scale(target)
    ensures var q, r := Scale(target) / Scale(source), Convert(d, source, target);
      && q >= 1
      && (d >= 0 ==> 0 <= r && 0 <= d - r * q < q)
      && (d < 0 ==> r <= 0 && -q < d - r * q <= 0)
  {
    var q := Scale(target) / Scale(source);
    TruncDivRemainder(d, q);
  }

  /** Java's a / b for b > 0 leaves a remainder of the sign of a, smaller than b. */
  lemma TruncDivRemainder(a: int, b: int)
    requires b > 0
    ensures a >= 0 ==> 0 <= a - TruncDiv(a, b) * b < b
    ensures a < 0 ==> -b < a - TruncDiv(a, b) * b <= 0
  {
    if a >= 0 {
      assert a == (a / b) * b + a % b;
    } else {
      var n := -a;
      assert n == (n / b) * b + n % b;
      assert a - TruncDiv(a, b) * b == -(n - (n / b) * b);
    }
  }

  /**
   * Towards a finer unit the result is d times the ratio when that fits, and
   * Long.MAX_VALUE or Long.MIN_VALUE when it overflows upwards or downwards.
   */
  lemma ConvertToFinerSaturates(d: Long, source: TimeUnit, target: TimeUnit)
    requires Scale(source) > Scale(target)
    ensures var r, c := Scale(source) / Scale(target), Convert(d, source, target);
      && (-LONG_MAX <= d * r <= LONG_MAX ==> c == d * r)
      && (d * r > LONG_MAX ==> c == LONG_MAX)
      && (d * r < -LONG_MAX ==> c == LONG_MIN)
  {
    SaturateMeaning(d, Scale(source) / Scale(target));
  }

  lemma SaturateMeaning(d: Long, r: int)
    requires r >= 1
    ensures -LONG_MAX <= d * r <= LONG_MAX ==> Saturate(d, r) == d * r
    ensures d * r > LONG_MAX ==> Saturate(d, r) == LONG_MAX
    ensures d * r < -LONG_MAX ==> Saturate(d, r) == LONG_MIN
  {
    var m := LONG_MAX / r;
    if d > m {
      SaturationExceeded(d, r);
    } else if d < -m {
      SaturationExceeded(-(d as int), r);
      assert (-(d as int)) * r == -(d * r);
    } else {
      SaturationBound(d, r);
    }
  }

  /** The scheduler's default frequency, 30 seconds, is a run interval of 30000 milliseconds. */
  lemma DefaultFrequencyInMilliseconds()
    ensures Convert(30, SECONDS, MILLISECONDS) == 30000
  {
  }

  // ---------------------------------------------------------------------
  // Unit names

  function UnitName(u: TimeUnit): string {
    match u
    case NANOSECONDS => "NANOSECONDS"
    case MICROSECONDS => "MICROSECONDS"
    case MILLISECONDS => "MILLISECONDS"
    case SECONDS => "SECONDS"
    case MINUTES => "MINUTES"
    case HOURS => "HOURS"
    case DAYS => "DAYS"
  }

  /** TimeUnit.valueOf(name): the constant with exactly this name. */
  function ValueOf(name: string): (r: Option<TimeUnit>)
    ensures r.Some? ==> UnitName(r.value) == name
    ensures r.None? ==> forall u :: UnitName(u) != name
  {
    if name == "NANOSECONDS" then Some(NANOSECONDS)
    else if name == "MICROSECONDS" then Some(MICROSECONDS)
    else if name == "MILLISECONDS" then Some(MILLISECONDS)
    else if name == "SECONDS" then Some(SECONDS)
    else if name == "MINUTES" then Some(MINUTES)
    else if name == "HOURS" then Some(HOURS)
    else if name == "DAYS" then Some(DAYS)
    else None
  }

  /**
   * One character of String.toUpperCase(Locale.US), for the characters that
   * can take part in a unit name: a-z, dotless i and long s.  Every other
   * character is kept, which never turns a string into a unit name.
   */
  function UpperChar(c: char): char {
    if 'a' <= c <= 'z' then (c as int - 32) as char
    else if c == 'ı' then 'I'
    else if c == 'ſ' then 'S'
    else c
  }

  function ToUpperCaseUS(s: string): string {
    seq(|s|, i requires 0 <= i < |s| => UpperChar(s[i]))
  }

  /** The IllegalArgumentException of TimeUnit.valueOf, with the upper-cased name it was given. */
  datatype IllegalArgumentException = NoEnumConstant(name: string)

  /** TimeUnit.valueOf(unit.toUpperCase(Locale.US)) */
  function ParseTimeUnit(name: string): (r: Result<TimeUnit, IllegalArgumentException>)
    ensures r.Ok? ==> UnitName(r.value) == ToUpperCaseUS(name)
    ensures r.Err? ==> r.error == NoEnumConstant(ToUpperCaseUS(name)) && forall u :: UnitName(u) != ToUpperCaseUS(name)
  {
    var upper := ToUpperCaseUS(name);
    match ValueOf(upper)
    case Some(u) => Ok(u)
    case None => Err(NoEnumConstant(upper))
  }

  /** A name parses to a unit exactly when it upper-cases to that unit's name. */
  lemma ParseTimeUnitIff(name: string, u: TimeUnit)
    ensures ParseTimeUnit(name) == Ok(u) <==> ToUpperCaseUS(name) == UnitName(u)
  {
  }

  /** Every unit's own name parses back to it. */
  lemma {:induction false} UnitNameRoundTrip(u: TimeUnit)
    ensures ParseTimeUnit(UnitName(u)) == Ok(u)
  {
    var n := UnitName(u);
    assert forall i :: 0 <= i < |n| ==> 'A' <= n[i] <= 'Z';
    assert ToUpperCaseUS(n) == n;
  }

  /** Strings that agree up to case parse to the same unit, or are rejected alike. */
  lemma {:induction false} ParseIgnoresCase(a: string, b: string)
    requires |a| == |b| && forall i :: 0 <= i < |a| ==> UpperChar(a[i]) == UpperChar(b[i])
    ensures ParseTimeUnit(a) == ParseTimeUnit(b)
  {
    assert ToUpperCaseUS(a) == ToUpperCaseUS(b);
  }

  /** "seconds", "Seconds" and "SECONDS" all name SECONDS; "second" names nothing. */
  lemma ParseSecondsExamples()
    ensures ParseTimeUnit("seconds") == Ok(SECONDS)
    ensures ParseTimeUnit("Seconds") == Ok(SECONDS)
    ensures ParseTimeUnit("SECONDS") == Ok(SECONDS)
    ensures ParseTimeUnit("second").Err?
  {
    assert ToUpperCaseUS("seconds") == "SECONDS";
    assert ToUpperCaseUS("Seconds") == "SECONDS";
    assert ToUpperCaseUS("SECONDS") == "SECONDS";
    assert ToUpperCaseUS("second") == "SECOND";
  }

  // ---------------------------------------------------------------------
  // The configuration object

  /** Interval: `unit` is None until set when built by the no-argument (Jackson) constructor. */
  class Interval {
    var time: Long
    var unit: Option<TimeUnit>

    /** Interval() */
    constructor Empty()
      ensures time == 0 && unit == None
    {
      time, unit := 0, None;
    }

    /** Interval(time, timeUnit) */
    constructor (time: Long, timeUnit: TimeUnit)
      ensures GetTime() == time && GetUnit() == Some(timeUnit)
    {
      this.time, this.unit := time, Some(timeUnit);
    }

    function GetTime(): Long
      reads this
    {
      time
    }

    function GetUnit(): Option<TimeUnit>
      reads this
    {
      unit
    }

    /**
     * getInterval(timeUnit): the interval converted to `timeUnit`; None where
     * Java throws a NullPointerException because no unit was set.
     */
    function GetInterval(timeUnit: TimeUnit): (r: Option<Long>)
      reads this
      ensures unit.None? <==> r.None?
      ensures unit == Some(timeUnit) ==> r == Some(time)
      ensures unit.Some? && Scale(unit.value) <= Scale(timeUnit) ==> -(time as int) <= r.value <= time || time <= r.value <= -(time as int)
    {
      match unit
      case None => None
      case Some(u) => Some(Convert(time, u, timeUnit))
    }

    /** setTime(time): only the time changes. */
    method SetTime(time: Long)
      modifies this
      ensures this.time == time && unit == old(unit)
    {
      this.time := time;
    }

    /** setUnit(unit): only the unit changes; a name that is no TimeUnit throws and changes nothing. */
    method SetUnit(name: string) returns (error: Option<IllegalArgumentException>)
      modifies this
      ensures time == old(time)
      ensures ParseTimeUnit(name).Ok? ==> unit == Some(ParseTimeUnit(name).value) && error == None
      ensures ParseTimeUnit(name).Err? ==> unit == old(unit) && error == Some(ParseTimeUnit(name).error)
    {
      match ParseTimeUnit(name)
      case Ok(u) =>
        unit := Some(u);
        error := None;
      case Err(e) =>
        error := Some(e);
    }
  }

  /** The scheduler's run interval: its default frequency, 30 seconds, read in milliseconds. */
  method SchedulerRunInterval() returns (millis: Long)
    ensures millis == 30000
  {
    var frequency := new Interval(30, SECONDS);
    var r := frequency.GetInterval(MILLISECONDS);
    DefaultFrequencyInMilliseconds();
    millis := r.value;
  }
}
