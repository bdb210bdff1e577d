/**
 * The countdown display of the student dashboard: `formatTime(seconds)` renders
 * `m:ss`, and two thresholds colour the timer when little time is left.
 * `ParseTime` reads an `m:ss` text back; it is the partner that shows the
 * rendering loses nothing for non-negative durations.
 */
module TimeFormat {
  import opened Wrappers
  import opened Decimal

  /** JavaScript's `a % b`: the remainder takes the sign of the dividend. */
  function JsRem(a: int, b: int): (r: int)
    requires b > 0
    ensures a >= 0 ==> 0 <= r < b && r == a % b
    ensures a < 0 ==> -b < r <= 0
  {
    if a >= 0 then a % b else -((-a) % b)
  }

  /**
   * `${Math.floor(seconds / 60)}:${(seconds % 60).toString().padStart(2, '0')}`.
   * Dafny's `/` by a positive divisor is floor division, as `Math.floor` is.
   */
  function FormatTime(seconds: int): (t: string)
  {
    IntToString(seconds / 60) + ":" + PadStart2(IntToString(JsRem(seconds, 60)))
  }

  /** Reads `m:ss` (minutes in decimal, exactly two digits of seconds below 60). */
  function ParseTime(t: string): Option<int> {
    if |t| >= 4 && t[|t| - 3] == ':' && AllDigits(t[..|t| - 3]) && AllDigits(t[|t| - 2..])
       && DigitsValue(t[|t| - 2..]) < 60
    then Some(60 * DigitsValue(t[..|t| - 3]) + DigitsValue(t[|t| - 2..]))
    else None
  }

  /** For a non-negative duration both fields are plain decimal texts. */
  lemma FormatTimeParts(seconds: nat)
    ensures FormatTime(seconds) == NatToString(seconds / 60) + ":" + PadStart2(NatToString(seconds % 60))
  {
    assert JsRem(seconds, 60) == seconds % 60;
  }

  /** Where the pieces of `m + ":" + ss` sit, for two characters of seconds. */
  lemma TimeTextPieces(m: string, ss: string)
    requires |ss| == 2
    ensures var t := m + ":" + ss;
      |t| == |m| + 3 && t[|t| - 3] == ':' && t[..|t| - 3] == m && t[|t| - 2..] == ss
  {
    var t := m + ":" + ss;
    assert t[..|m|] == m;
    assert t[|m| + 1..] == ss;
  }

  /** A text made of minutes, a colon and two digits of seconds below 60 reads back as their value. */
  lemma ParseTimeOfParts(t: string, m: string, ss: string)
    requires |t| == |m| + 3 && t[|t| - 3] == ':' && t[..|t| - 3] == m && t[|t| - 2..] == ss
    requires |m| >= 1 && AllDigits(m) && |ss| == 2 && AllDigits(ss) && DigitsValue(ss) < 60
    ensures ParseTime(t) == Some(60 * DigitsValue(m) + DigitsValue(ss))
  {
  }

  /**
   * For a non-negative duration the text is the minutes, a colon and exactly two
   * digits of seconds, and reading it back gives the duration.
   */
  lemma FormatTimeRoundTrip(seconds: nat)
    ensures var t := FormatTime(seconds);
      |t| >= 4 && t[|t| - 3] == ':' && ParseTime(t) == Some(seconds)
  {
    var t := FormatTime(seconds);
    var m, ss := NatToString(seconds / 60), PadStart2(NatToString(seconds % 60));
    FormatTimeParts(seconds);
    TimeTextPieces(m, ss);
    PadStart2Value(seconds % 60);
    NatToStringRoundTrip(seconds / 60);
    ParseTimeOfParts(t, m, ss);
  }

  /** Two non-negative durations never render to the same text. */
  lemma FormatTimeInjective(a: nat, b: nat)
    ensures FormatTime(a) == FormatTime(b) ==> a == b
  {
    FormatTimeRoundTrip(a);
    FormatTimeRoundTrip(b);
  }

  /** A full chapter test, 3600 s, renders as "60:00". */
  lemma ChapterDurationText()
    ensures FormatTime(3600) == "60:00"
  {
    FormatTimeParts(3600);
    assert NatToString(60) == "60" by {
      SmallNatToString(60);
    }
    assert PadStart2(NatToString(0)) == "00" by {
      SmallNatToString(0);
    }
  }

  /** One second short of a chapter test, 3599 s, renders as "59:59". */
  lemma LastSecondText()
    ensures FormatTime(3599) == "59:59"
  {
    FormatTimeParts(3599);
    assert NatToString(59) == "59" by {
      SmallNatToString(59);
    }
  }

  /** A full mock exam, 7200 s, renders as "120:00". */
  lemma MockDurationText()
    ensures FormatTime(7200) == "120:00"
  {
    FormatTimeParts(7200);
    assert NatToString(120) == "120" by {
      SmallNatToString(12);
      assert NatToString(120) == NatToString(12) + [DigitChar(0)];
    }
    assert PadStart2(NatToString(0)) == "00" by {
      SmallNatToString(0);
    }
  }

  /** Seconds below ten are padded: 65 s renders as "1:05". */
  lemma PaddedSecondsText()
    ensures FormatTime(65) == "1:05"
  {
    FormatTimeParts(65);
    assert NatToString(1) == "1" by {
      SmallNatToString(1);
    }
    assert PadStart2(NatToString(5)) == "05" by {
      SmallNatToString(5);
    }
  }

  /** Below ten minutes the timer is drawn as running low. */
  function IsLowTime(seconds: int): (low: bool)
    ensures low <==> seconds < 600
  {
    seconds < 600
  }

  /** Below five minutes the timer is drawn as critical; critical time is always low time. */
  function IsCriticalTime(seconds: int): (critical: bool)
    ensures critical <==> seconds < 300
    ensures critical ==> IsLowTime(seconds)
    ensures !IsLowTime(seconds) ==> !critical
  {
    seconds < 300
  }
}
