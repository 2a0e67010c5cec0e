/** The "MM:SS" rendering of the simulation clock (App.js `formatTime`). */
module Clock {
  import opened Wrappers
  import opened Decimal

  /** Whole minutes, a colon, then seconds; each field zero-padded to two
      digits. The minutes field grows past two digits from 100 minutes on,
      because padding never truncates. */
  function FormatTime(seconds: nat): (r: string)
    ensures |r| >= 5
    ensures r[|r| - 3] == ':'
    ensures AllDigits(r[..|r| - 3]) && AllDigits(r[|r| - 2..])
    ensures |r| == 5 <==> seconds < 6000
    ensures |r| > 5 ==> r[0] != '0'
  {
    var mins := PadStart(NatToString(seconds / 60), 2, '0');
    var secs := PadStart(NatToString(seconds % 60), 2, '0');
    MinutesWidth(seconds);
    PaddedDigits(NatToString(seconds / 60), 2);
    PaddedDigits(NatToString(seconds % 60), 2);
    var r := mins + ":" + secs;
    assert r[..|r| - 3] == mins && r[|r| - 2..] == secs;
    WideMinutes(seconds);
    assert r[0] == mins[0];
    r
  }

  /** A minutes field wider than two characters is the bare rendering of the
      minutes, so it does not start with a zero. */
  lemma WideMinutes(seconds: nat)
    ensures var mins := PadStart(NatToString(seconds / 60), 2, '0');
      |mins| > 2 ==> mins[0] != '0'
  {
    var d := NatToString(seconds / 60);
    if |d| > 2 {
      assert PadStart(d, 2, '0') == d;
    }
  }

  /** The minutes field fits in two digits exactly below 6000 seconds. */
  lemma MinutesWidth(seconds: nat)
    ensures |PadStart(NatToString(seconds / 60), 2, '0')| == 2 <==> seconds < 6000
    ensures |PadStart(NatToString(seconds % 60), 2, '0')| == 2
  {
    assert seconds / 60 < 100 <==> seconds < 6000;
  }

  /** Reads back a clock string: digits, a colon, and exactly two digits of
      seconds below 60. */
  function ParseClock(r: string): Option<nat> {
    if |r| < 5 || r[|r| - 3] != ':' then None
    else
      var mins, secs := r[..|r| - 3], r[|r| - 2..];
      if AllDigits(mins) && AllDigits(secs) && ParseDigits(secs) < 60
      then Some(ParseDigits(mins) * 60 + ParseDigits(secs))
      else None
  }

  /** Reading back a minutes field, a colon and a two-digit seconds field. */
  lemma ParseClockFields(m: string, sec: string)
    requires |m| >= 2 && AllDigits(m)
    requires |sec| == 2 && AllDigits(sec) && ParseDigits(sec) < 60
    ensures ParseClock(m + ":" + sec) == Some(ParseDigits(m) * 60 + ParseDigits(sec))
  {
    var r := m + ":" + sec;
    assert |r| >= 5 && r[|r| - 3] == ':';
    assert r[..|r| - 3] == m;
    assert r[|r| - 2..] == sec;
  }

  /** The clock display loses nothing: the seconds count can be read back. */
  lemma ParseFormatTime(seconds: nat)
    ensures ParseClock(FormatTime(seconds)) == Some(seconds)
  {
    var a, b := seconds / 60, seconds % 60;
    assert seconds == a * 60 + b;
    var m := PadStart(NatToString(a), 2, '0');
    var sec := PadStart(NatToString(b), 2, '0');
    ParsePadded(a, 2);
    ParsePadded(b, 2);
    MinutesWidth(seconds);
    assert ParseDigits(m) == a && ParseDigits(sec) == b < 60;
    ParseClockFields(m, sec);
    assert FormatTime(seconds) == m + ":" + sec;
  }

  /** Distinct clock values render differently. */
  lemma FormatTimeInjective(a: nat, b: nat)
    requires FormatTime(a) == FormatTime(b)
    ensures a == b
  {
    ParseFormatTime(a);
    ParseFormatTime(b);
  }

  /** Below 100 minutes the display is exactly "MM:SS". */
  lemma FormatTimeShort(seconds: nat)
    requires seconds < 6000
    ensures var r := FormatTime(seconds);
      && |r| == 5 && r[2] == ':'
      && AllDigits(r[..2]) && AllDigits(r[3..])
      && ParseDigits(r[..2]) < 100
      && ParseDigits(r[3..]) < 60
      && ParseDigits(r[..2]) * 60 + ParseDigits(r[3..]) == seconds
  {
    ParseFormatTime(seconds);
  }
}
