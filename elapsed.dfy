/** The elapsed-time text that the import and urls commands log: whole
    seconds up to a minute, minutes and seconds up to an hour, hours and
    minutes beyond. The elapsed milliseconds are rounded to whole seconds by
    the caller; here the input is that number of seconds. */
module Elapsed {
  import opened Strings

  /** The three shapes the text takes. */
  datatype ElapsedTime =
    | Seconds(s: nat)
    | MinutesSeconds(m: nat, s: nat)
    | HoursMinutes(h: nat, m: nat)

  /** `${s}s`, `${m}m ${s}s` or `${h}h ${m}m`. */
  function Render(e: ElapsedTime): (text: string)
    ensures EndsWith(text, if e.HoursMinutes? then "m" else "s")
  {
    match e
    case Seconds(s) => NatToString(s) + "s"
    case MinutesSeconds(m, s) => NatToString(m) + "m " + NatToString(s) + "s"
    case HoursMinutes(h, m) => NatToString(h) + "h " + NatToString(m) + "m"
  }

  /** `Math.round(a / b)` for non-negative `a` and positive `b`: halves round up. */
  function RoundDiv(a: nat, b: nat): (q: nat)
    requires b > 0
    ensures 2 * a < (2 * q + 1) * b
    ensures (2 * q - 1) * b <= 2 * a
  {
    (2 * a + b) / (2 * b)
  }

  /** The time as the source computes it: the minute count of the middle
      range and the hour count of the top range are ROUNDED, not truncated. */
  function ElapsedAsWritten(t: nat): (e: ElapsedTime)
    ensures t <= 60 <==> e.Seconds?
    ensures 60 < t <= 3600 <==> e.MinutesSeconds?
    ensures e.Seconds? ==> e.s == t
    ensures e.MinutesSeconds? ==> 1 <= e.m <= 60 && e.s < 60 && e.s == t % 60
    ensures e.HoursMinutes? ==> e.h >= 1 && e.m <= 60
  {
    if t <= 60 then Seconds(t)
    else if t <= 3600 then MinutesSeconds(RoundDiv(t, 60), t % 60)
    else HoursMinutes(RoundDiv(t, 3600), RoundDiv(t % 3600, 60))
  }

  /** 90 seconds are shown as "2m 30s", which reads as 150 seconds, and
      7170 seconds (1 h 59 min 30 s) as "2h 60m". */
  lemma AsWrittenOverstates()
    ensures ElapsedAsWritten(90) == MinutesSeconds(2, 30)
    ensures 2 * 60 + 30 != 90
    ensures ElapsedAsWritten(7170) == HoursMinutes(2, 60)
  {
  }

  /** What the text evidently means to say: whole minutes and the seconds
      left over, or whole hours and the minutes left over. */
  function Elapsed(t: nat): (e: ElapsedTime)
    ensures t <= 60 <==> e.Seconds?
    ensures 60 < t <= 3600 <==> e.MinutesSeconds?
  {
    if t <= 60 then Seconds(t)
    else if t <= 3600 then MinutesSeconds(t / 60, t % 60)
    else HoursMinutes(t / 3600, (t % 3600) / 60)
  }

  /** The time that a text denotes agrees with the elapsed seconds: exactly
      for the first two ranges, and to the minute below for the top range. */
  ghost predicate Denotes(e: ElapsedTime, t: nat) {
    match e
    case Seconds(s) => s == t
    case MinutesSeconds(m, s) => s < 60 && m * 60 + s == t
    case HoursMinutes(h, m) => m < 60 && h * 3600 + m * 60 <= t < h * 3600 + m * 60 + 60
  }

  /** The corrected text always denotes the elapsed time. */
  lemma ElapsedDenotes(t: nat)
    ensures Denotes(Elapsed(t), t)
  {
    if t > 3600 {
      var r := t % 3600;
      assert t == (t / 3600) * 3600 + r;
      assert r == (r / 60) * 60 + r % 60;
    }
  }

  /** The source's text does not: it over-states 90 seconds. */
  lemma AsWrittenDoesNotDenote()
    ensures !Denotes(ElapsedAsWritten(90), 90)
  {
    AsWrittenOverstates();
  }

  /** The two agree up to a minute and whenever the rounding has nothing to
      round up. */
  lemma {:induction false} AgreeBelowHalfMinute(t: nat)
    requires t <= 60 || (t <= 3600 && t % 60 < 30)
    ensures ElapsedAsWritten(t) == Elapsed(t)
  {
    if 60 < t {
      assert t == (t / 60) * 60 + t % 60;
      assert (2 * t + 60) / 120 == t / 60;
    }
  }

  /** `updateTimer`: the milliseconds since the start, rounded to whole
      seconds, as text (with the corrected minute and hour counts). */
  function TimerText(elapsedMs: nat): (text: string)
    ensures EndsWith(text, "s") || EndsWith(text, "m")
    ensures elapsedMs < 60500 ==> text == NatToString(RoundDiv(elapsedMs, 1000)) + "s"
  {
    Render(Elapsed(RoundDiv(elapsedMs, 1000)))
  }
}
