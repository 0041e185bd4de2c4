/**
 * The relative-time labels under posts. The shared helper computes floor
 * divisions of the millisecond difference first and then compares them;
 * the copies inside the feed and the bookmark page compare the difference
 * with unit lengths first and divide afterwards. Both floor toward minus
 * infinity, which is Dafny's `/` for a positive divisor.
 */
module TimeAgo {
  import opened Posts
  import Text
  import Arith

  const MINUTE: int := 60 * 1000
  const HOUR: int := 60 * MINUTE
  const DAY: int := 24 * HOUR
  const WEEK: int := 7 * DAY

  const JUST_NOW := "방금 전"
  /** The helper's label for a value that is neither a string nor a Timestamp. */
  const LIB_UNKNOWN := "알 수 없음"
  /** The page copies' label for the pending server timestamp. */
  const LOCAL_UNKNOWN := "시간 정보 없음"

  /** The chosen bucket and the number it shows. */
  datatype Ago = JustNow | Minutes(n: int) | Hours(n: int) | Days(n: int) | Weeks(n: int) | Unknown

  /** The milliseconds of a date string or a Timestamp. */
  function Millis(t: TimeValue): int
    requires !t.Pending?
  {
    t.ms
  }

  /** `getTimeAgo` in the shared helper: floor divisions first, then comparisons. */
  function LibAgo(t: TimeValue, now: int): Ago {
    if t.Pending? then Unknown
    else
      var diff := now - Millis(t);
      var minutes := diff / (1000 * 60);
      var hours := diff / (1000 * 60 * 60);
      var days := diff / (1000 * 60 * 60 * 24);
      var weeks := days / 7;
      if minutes < 1 then JustNow
      else if minutes < 60 then Minutes(minutes)
      else if hours < 24 then Hours(hours)
      else if days < 7 then Days(days)
      else Weeks(weeks)
  }

  /** The page copies of `getTimeAgo`: comparisons with unit lengths first, then one division. */
  function LocalAgo(t: TimeValue, now: int): Ago {
    if t.Pending? then Unknown
    else
      var diff := now - Millis(t);
      if diff < MINUTE then JustNow
      else if diff < HOUR then Minutes(diff / MINUTE)
      else if diff < DAY then Hours(diff / HOUR)
      else if diff < WEEK then Days(diff / DAY)
      else Weeks(diff / WEEK)
  }

  /** The label text for a bucket; `unknown` is the copy's own label for a missing time. */
  function Label(a: Ago, unknown: string): string {
    match a
    case JustNow => JUST_NOW
    case Minutes(n) => (if n >= 0 then Text.NatToString(n) else "") + "분 전"
    case Hours(n) => (if n >= 0 then Text.NatToString(n) else "") + "시간 전"
    case Days(n) => (if n >= 0 then Text.NatToString(n) else "") + "일 전"
    case Weeks(n) => (if n >= 0 then Text.NatToString(n) else "") + "주 전"
    case Unknown => unknown
  }

  function GetTimeAgo(t: TimeValue, now: int): string {
    Label(LibAgo(t, now), LIB_UNKNOWN)
  }

  /**
   * Exactly one bucket is chosen by the difference, and its number is the
   * floor of the difference in that unit, within the unit's range.
   */
  lemma LibAgoSpec(t: TimeValue, now: int)
    requires !t.Pending?
    ensures var diff := now - t.ms;
            var a := LibAgo(t, now);
            (a == JustNow <==> diff < MINUTE)
            && (a.Minutes? <==> MINUTE <= diff < HOUR)
            && (a.Hours? <==> HOUR <= diff < DAY)
            && (a.Days? <==> DAY <= diff < WEEK)
            && (a.Weeks? <==> WEEK <= diff)
            && (a.Minutes? ==> a.n == diff / MINUTE && 1 <= a.n < 60)
            && (a.Hours? ==> a.n == diff / HOUR && 1 <= a.n < 24)
            && (a.Days? ==> a.n == diff / DAY && 1 <= a.n < 7)
            && (a.Weeks? ==> a.n == diff / WEEK && a.n >= 1)
  {
    var diff := now - t.ms;
    ScaledBounds(diff);
    if diff >= 0 {
      Arith.DivDiv(diff, DAY, 7);
    }
  }

  /** The floor divisions compare with the unit counts exactly as the difference compares with the unit lengths. */
  lemma ScaledBounds(diff: int)
    ensures diff / MINUTE < 1 <==> diff < MINUTE
    ensures diff / MINUTE < 60 <==> diff < HOUR
    ensures diff / HOUR < 24 <==> diff < DAY
    ensures diff / DAY < 7 <==> diff < WEEK
    ensures diff >= MINUTE ==> diff / MINUTE >= 1
    ensures diff >= HOUR ==> diff / HOUR >= 1
    ensures diff >= DAY ==> diff / DAY >= 1
    ensures diff >= WEEK ==> diff / WEEK >= 1
  {
  }

  /** The two copies choose the same bucket and the same number for every string or Timestamp. */
  lemma LibAgreesWithLocal(t: TimeValue, now: int)
    ensures t.Pending? <==> LibAgo(t, now) == Unknown
    ensures LibAgo(t, now) == LocalAgo(t, now)
  {
    if !t.Pending? {
      LibAgoSpec(t, now);
    }
  }

  /** A time in the future reads as just now. */
  lemma FutureIsJustNow(t: TimeValue, now: int)
    requires !t.Pending? && now < t.ms
    ensures GetTimeAgo(t, now) == JUST_NOW
  {
    LibAgoSpec(t, now);
  }

  /** The bucket boundaries: each unit length is the first difference shown as one of that unit. */
  lemma Boundaries(t0: int)
    ensures LibAgo(Stamp(t0), t0 + MINUTE - 1) == JustNow
    ensures LibAgo(Stamp(t0), t0 + MINUTE) == Minutes(1)
    ensures LibAgo(Stamp(t0), t0 + HOUR - 1) == Minutes(59)
    ensures LibAgo(Stamp(t0), t0 + HOUR) == Hours(1)
    ensures LibAgo(Stamp(t0), t0 + DAY) == Days(1)
    ensures LibAgo(Stamp(t0), t0 + WEEK - 1) == Days(6)
    ensures LibAgo(Stamp(t0), t0 + WEEK) == Weeks(1)
  {
    LibAgoSpec(Stamp(t0), t0 + MINUTE - 1);
    LibAgoSpec(Stamp(t0), t0 + MINUTE);
    LibAgoSpec(Stamp(t0), t0 + HOUR - 1);
    LibAgoSpec(Stamp(t0), t0 + HOUR);
    LibAgoSpec(Stamp(t0), t0 + DAY);
    LibAgoSpec(Stamp(t0), t0 + WEEK - 1);
    LibAgoSpec(Stamp(t0), t0 + WEEK);
  }

  /** The shown number never has a sign: every bucket with a number shows a positive count. */
  lemma LabelNumberPositive(t: TimeValue, now: int)
    ensures var a := LibAgo(t, now);
            (a.Minutes? || a.Hours? || a.Days? || a.Weeks?) ==>
              a.n >= 1 && Text.AllDigits(Text.NatToString(a.n))
  {
    if !t.Pending? {
      LibAgoSpec(t, now);
    }
  }
}
