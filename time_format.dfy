/** Rounding and formatting of the "HH:MM" times entered on the registration forms. */
module TimeFormat {
  import opened JsText

  /** Which of a form's two time inputs changed. */
  datatype TimeField = DepartureTime | ExpectedReturnTime

  /** `Math.round(m / 10) * 10` for a minute reading: the nearest multiple of ten, halves rounded up. */
  function RoundMinutes(m: nat): (r: nat)
    requires m < 60
    ensures r % 10 == 0 && r <= 60
    ensures r - 5 <= m < r + 5
    ensures m % 10 == 0 ==> r == m
    ensures r == 60 <==> m >= 55
  {
    (m + 5) / 10 * 10
  }

  /** A value reported by a filled-in `<input type="time">`: "HH:MM" with HH below 24 and MM below 60. */
  predicate IsTimeValue(v: string) {
    && |v| == 5 && v[2] == ':'
    && AllDigits(v[..2]) && AllDigits(v[3..])
    && DigitsValue(v[..2]) < 24 && DigitsValue(v[3..]) < 60
  }

  function Hours(v: string): (h: nat)
    requires IsTimeValue(v)
    ensures h < 24
  {
    DigitsValue(v[..2])
  }

  function Minutes(v: string): (m: nat)
    requires IsTimeValue(v)
    ensures m < 60
  {
    DigitsValue(v[3..])
  }

  /** An hour and a minute printed with `String(...).padStart(2, '0')` and joined by a colon. */
  function TimeString(h: nat, m: nat): string {
    PadStart2(NatToString(h)) + ":" + PadStart2(NatToString(m))
  }

  /**
   * The time `handleTimeChange` stores for an input value: the value split
   * at ':' and read with `Number`, the minutes rounded, both parts printed
   * and padded. A cleared input ("") splits into one empty part, so the hour
   * reads as 0 and the missing minute rounds to NaN.
   */
  function NormalizeTime(v: string): (r: string)
    requires v == "" || IsTimeValue(v)
    ensures v == "" ==> r == "00:NaN"
  {
    if v == "" then PadStart2(NatToString(0)) + ":" + PadStart2("NaN")
    else TimeString(Hours(v), RoundMinutes(Minutes(v)))
  }

  /** An hour below 24 and a minute below 60 print as a time-input value that reads back as themselves. */
  lemma TimeStringIsTimeValue(h: nat, m: nat)
    requires h < 24 && m < 60
    ensures IsTimeValue(TimeString(h, m))
    ensures Hours(TimeString(h, m)) == h && Minutes(TimeString(h, m)) == m
  {
    var v := TimeString(h, m);
    PadStart2Value(h);
    PadStart2Value(m);
    assert v[..2] == PadStart2(NatToString(h));
    assert v[3..] == PadStart2(NatToString(m));
  }

  /**
   * The hour passes through untouched and the minute field holds the
   * rounded minute as two digits.
   */
  lemma NormalizeTimeKeepsHour(v: string)
    requires IsTimeValue(v)
    ensures |NormalizeTime(v)| == 5 && NormalizeTime(v)[..3] == v[..3]
    ensures AllDigits(NormalizeTime(v)[3..])
    ensures DigitsValue(NormalizeTime(v)[3..]) == RoundMinutes(Minutes(v))
  {
    var r := NormalizeTime(v);
    PadStart2RoundTrip(v[..2]);
    PadStart2Value(RoundMinutes(Minutes(v)));
    assert r[..2] == v[..2];
    assert r[3..] == PadStart2(NatToString(RoundMinutes(Minutes(v))));
  }

  /** A time already on a ten-minute step is stored exactly as entered. */
  lemma NormalizeTimeKeepsRounded(v: string)
    requires IsTimeValue(v) && Minutes(v) % 10 == 0
    ensures NormalizeTime(v) == v
  {
    PadStart2RoundTrip(v[..2]);
    PadStart2RoundTrip(v[3..]);
    assert v == v[..2] + ":" + v[3..];
  }

  /** Minutes 55 to 59 become "60" and the hour is not carried: the result is no valid time. */
  lemma NormalizeTimeNoCarry(v: string)
    requires IsTimeValue(v) && Minutes(v) >= 55
    ensures NormalizeTime(v) == v[..3] + "60"
    ensures !IsTimeValue(NormalizeTime(v))
  {
    var r := NormalizeTime(v);
    assert RoundMinutes(Minutes(v)) == 60;
    PadStart2RoundTrip(v[..2]);
    PadStart2OfNatToString(60);
    assert PadStart2(NatToString(60)) == "60";
    assert r == v[..2] + ":" + "60";
    assert v[..3] == v[..2] + ":";
    assert r == v[..3] + "60";
    DigitsValueOfPair(6, 0);
    assert r[3..] == "60";
  }

  /** Below minute 55 the stored time is itself a valid input that normalizes to itself. */
  lemma NormalizeTimeIdempotent(v: string)
    requires IsTimeValue(v) && Minutes(v) < 55
    ensures IsTimeValue(NormalizeTime(v))
    ensures Minutes(NormalizeTime(v)) % 10 == 0
    ensures NormalizeTime(NormalizeTime(v)) == NormalizeTime(v)
  {
    var r := NormalizeTime(v);
    TimeStringIsTimeValue(Hours(v), RoundMinutes(Minutes(v)));
    NormalizeTimeKeepsRounded(r);
  }

  /**
   * The departure time a fresh form starts with: the clock's minute is
   * rounded and written back with `Date.setMinutes`, which carries a minute
   * of 60 into the next hour (and hour 24 to 0). The result is always a
   * valid time on a ten-minute step.
   */
  function DefaultTime(hour: nat, minute: nat): (r: string)
    requires hour < 24 && minute < 60
    ensures IsTimeValue(r)
    ensures Minutes(r) == if minute >= 55 then 0 else RoundMinutes(minute)
    ensures Hours(r) == if minute >= 55 then (hour + 1) % 24 else hour
  {
    var m := RoundMinutes(minute);
    if m == 60 then
      var next: nat := (hour + 1) % 24;
      TimeStringIsTimeValue(next, 0);
      TimeString(next, 0)
    else
      TimeStringIsTimeValue(hour, m);
      TimeString(hour, m)
  }

  /**
   * The default time and the change handler agree on every clock reading
   * except minutes 55 to 59, where only the default carries.
   */
  lemma DefaultTimeVersusNormalize(hour: nat, minute: nat)
    requires hour < 24 && minute < 60
    ensures IsTimeValue(TimeString(hour, minute))
    ensures minute < 55 <==> DefaultTime(hour, minute) == NormalizeTime(TimeString(hour, minute))
  {
    TimeStringIsTimeValue(hour, minute);
    var v := TimeString(hour, minute);
    if minute >= 55 {
      NormalizeTimeNoCarry(v);
    }
  }
}
