/** `formatRelativeTime` of src/utils/dateFormat.ts: the age of a
    timestamp, in whole seconds, is shown as "just now", as a number of
    minutes, hours or days ago, or, from one week on, as the absolute date
    and time. The instant "now" is a parameter instead of the clock. */
module DateFormat {

  datatype TimeUnit = Minute | Hour | Day

  /** The label shown; `Absolute` stands for `formatDateTime` of the
      timestamp. */
  datatype RelativeTime = JustNow | Ago(num: int, unit: TimeUnit) | Absolute

  /** `Math.floor((now - then) / 1000)`. */
  function DiffInSeconds(thenMs: int, nowMs: int): (d: int)
    ensures d * 1000 <= nowMs - thenMs < d * 1000 + 1000
  {
    (nowMs - thenMs) / 1000
  }

  function FormatRelativeTime(thenMs: int, nowMs: int): (r: RelativeTime)
    ensures var d := DiffInSeconds(thenMs, nowMs);
      && (r == JustNow <==> d < 60)
      && (r.Ago? && r.unit == Minute <==> 60 <= d < 3600)
      && (r.Ago? && r.unit == Hour <==> 3600 <= d < 86400)
      && (r.Ago? && r.unit == Day <==> 86400 <= d < 604800)
      && (r == Absolute <==> d >= 604800)
    ensures var d := DiffInSeconds(thenMs, nowMs);
      && (r.Ago? && r.unit == Minute ==> 1 <= r.num <= 59 && r.num * 60 <= d < r.num * 60 + 60)
      && (r.Ago? && r.unit == Hour ==> 1 <= r.num <= 23 && r.num * 3600 <= d < r.num * 3600 + 3600)
      && (r.Ago? && r.unit == Day ==> 1 <= r.num <= 6 && r.num * 86400 <= d < r.num * 86400 + 86400)
  {
    var d := DiffInSeconds(thenMs, nowMs);
    if d < 60 then JustNow
    else if d < 3600 then Ago(d / 60, Minute)
    else if d < 86400 then Ago(d / 3600, Hour)
    else if d < 604800 then Ago(d / 86400, Day)
    else Absolute
  }

  /** An older timestamp never gets a younger label: the label is monotone
      in the age. */
  function Rank(r: RelativeTime): int
  {
    match r
    case JustNow => 0
    case Ago(n, Minute) => n
    case Ago(n, Hour) => 60 * n
    case Ago(n, Day) => 1440 * n
    case Absolute => 10080
  }

  lemma FormatRelativeTimeMonotone(t1: int, t2: int, nowMs: int)
    requires t2 <= t1
    ensures Rank(FormatRelativeTime(t1, nowMs)) <= Rank(FormatRelativeTime(t2, nowMs))
  {
    var d1, d2 := DiffInSeconds(t1, nowMs), DiffInSeconds(t2, nowMs);
    assert d1 <= d2;
  }
}
