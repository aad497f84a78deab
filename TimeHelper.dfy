/** Rendering a number of seconds as a short duration such as "1d 2h 0m 5s",
    with C#'s integer division and remainder (both round toward zero). */
module TimeHelper {
  import opened Text

  /** C#'s `a / b` for a positive divisor: the quotient rounded toward zero. */
  function TDiv(a: int, b: int): (q: int)
    requires b > 0
    ensures a >= 0 ==> q == a / b
    ensures a < 0 ==> q == -((-a) / b)
  {
    if a >= 0 then a / b else -((-a) / b)
  }

  /** C#'s `a % b` for a positive divisor: the remainder takes the sign of `a`. */
  function TMod(a: int, b: int): (m: int)
    requires b > 0
    ensures a == TDiv(a, b) * b + m
    ensures a >= 0 ==> 0 <= m < b
    ensures a < 0 ==> -b < m <= 0
  {
    a - TDiv(a, b) * b
  }

  datatype Breakdown = Breakdown(days: int, hours: int, minutes: int, seconds: int)

  /** Days, hours, minutes and seconds of a duration, as `GetInterval` works them out. */
  function Decompose(total: int): (b: Breakdown)
    ensures b.days * 86400 + b.hours * 3600 + b.minutes * 60 + b.seconds == total
    ensures total >= 0 ==> b.days >= 0 && 0 <= b.hours < 24 && 0 <= b.minutes < 60 && 0 <= b.seconds < 60
    ensures total < 0 ==> b.days <= 0 && -24 < b.hours <= 0 && -60 < b.minutes <= 0 && -60 < b.seconds <= 0
  {
    var days := TDiv(total, 86400);
    var remainder := TMod(total, 86400);
    var hours := TDiv(remainder, 3600);
    var rest := TMod(remainder, 3600);
    Breakdown(days, hours, TDiv(rest, 60), TMod(rest, 60))
  }

  function JoinWithSpaces(parts: seq<string>): string {
    if |parts| == 0 then ""
    else if |parts| == 1 then parts[0]
    else parts[0] + " " + JoinWithSpaces(parts[1..])
  }

  /** The reference rendering: every unit from the first positive one down
      to the seconds, which always appear, separated by single spaces. */
  function IntervalText(total: int): string {
    Render(Decompose(total))
  }

  function Render(b: Breakdown): string {
    var parts := [IntToString(b.days) + "d", IntToString(b.hours) + "h",
                  IntToString(b.minutes) + "m", IntToString(b.seconds) + "s"];
    var first := if b.days > 0 then 0 else if b.hours > 0 then 1 else if b.minutes > 0 then 2 else 3;
    JoinWithSpaces(parts[first..])
  }

  /** Joining unit texts that start with a digit or a sign. */
  lemma {:induction false} JoinShape(parts: seq<string>)
    requires |parts| >= 1
    requires forall i :: 0 <= i < |parts| ==> |parts[i]| >= 1
    ensures var j := JoinWithSpaces(parts);
            |j| >= 1 && j[0] == parts[0][0] && j[|j| - 1] == parts[|parts| - 1][|parts[|parts| - 1]| - 1]
  {
    if |parts| > 1 {
      JoinShape(parts[1..]);
    }
  }

  /** Joining unit texts ends with the last of them. */
  lemma {:induction false} JoinEndsWithLast(parts: seq<string>)
    requires |parts| >= 1
    ensures var j, last := JoinWithSpaces(parts), parts[|parts| - 1];
            |last| <= |j| && j[|j| - |last|..] == last
  {
    if |parts| > 1 {
      JoinEndsWithLast(parts[1..]);
      var rest := JoinWithSpaces(parts[1..]);
      var last := parts[|parts| - 1];
      assert parts[1..][|parts[1..]| - 1] == last;
      assert JoinWithSpaces(parts) == (parts[0] + " ") + rest;
      assert JoinWithSpaces(parts)[|JoinWithSpaces(parts)| - |last|..] == rest[|rest| - |last|..];
    }
  }

  /** A rendering starts with the number of its first unit: a digit or a minus sign. */
  lemma RenderStartsWithNumber(b: Breakdown)
    ensures var r := Render(b);
            r != [] && (r[0] == '-' || IsDigit(r[0]))
  {
    var parts := [IntToString(b.days) + "d", IntToString(b.hours) + "h",
                  IntToString(b.minutes) + "m", IntToString(b.seconds) + "s"];
    var first := if b.days > 0 then 0 else if b.hours > 0 then 1 else if b.minutes > 0 then 2 else 3;
    var shown := parts[first..];
    assert forall i :: 0 <= i < |shown| ==> |shown[i]| >= 1;
    JoinShape(shown);
    assert Render(b)[0] == shown[0][0];
  }

  /** A rendering has no white space at either end and ends with the
      seconds followed by 's'. */
  lemma RenderShape(b: Breakdown)
    ensures var r := Render(b);
            |r| >= 2 && !IsWhiteSpace(r[0]) && r[|r| - 1] == 's' && Trim(r) == r
    ensures var r, sec := Render(b), IntToString(b.seconds) + "s";
            |sec| <= |r| && r[|r| - |sec|..] == sec
  {
    var r := Render(b);
    RenderStartsWithNumber(b);
    RenderEndsWithSeconds(b);
    var sec := IntToString(b.seconds) + "s";
    assert r[|r| - 1] == r[|r| - |sec|..][|sec| - 1] == sec[|sec| - 1];
    TrimUnchanged(r);
  }

  /** Whatever units come before, a rendering ends with the seconds and 's'. */
  lemma RenderEndsWithSeconds(b: Breakdown)
    ensures var r, sec := Render(b), IntToString(b.seconds) + "s";
            |sec| <= |r| && r[|r| - |sec|..] == sec
  {
    var parts := [IntToString(b.days) + "d", IntToString(b.hours) + "h",
                  IntToString(b.minutes) + "m", IntToString(b.seconds) + "s"];
    var first := if b.days > 0 then 0 else if b.hours > 0 then 1 else if b.minutes > 0 then 2 else 3;
    JoinEndsWithLast(parts[first..]);
    assert parts[first..][|parts[first..]| - 1] == parts[3];
  }

  /** The units from index `first` on, each followed by one space except the last. */
  lemma SpacedUnitsAreJoined(d: string, h: string, m: string, sec: string, first: nat)
    requires first <= 3
    ensures (if first <= 0 then d + " " else "") + (if first <= 1 then h + " " else "")
            + (if first <= 2 then m + " " else "") + sec
            == JoinWithSpaces([d, h, m, sec][first..])
  {
    var parts := [d, h, m, sec];
    assert JoinWithSpaces([sec]) == sec;
    assert [m, sec][1..] == [sec];
    assert JoinWithSpaces([m, sec]) == m + " " + sec;
    assert [h, m, sec][1..] == [m, sec];
    assert JoinWithSpaces([h, m, sec]) == h + " " + (m + " " + sec);
    assert parts[1..] == [h, m, sec];
    assert JoinWithSpaces(parts) == d + " " + (h + " " + (m + " " + sec));
    if first == 0 {
      assert parts[0..] == parts;
    } else if first == 1 {
      assert parts[1..] == [h, m, sec];
    } else if first == 2 {
      assert parts[2..] == [m, sec];
    } else {
      assert parts[3..] == [sec];
    }
  }

  /** A number, its unit letter and a space, as one piece or as two. */
  lemma UnitThenSpace(number: string, unit: char)
    ensures (number + [unit]) + " " == number + [unit, ' ']
  {
  }

  /** The text `GetInterval` assembles from the four units is the reference rendering. */
  lemma AssembledText(days: int, hours: int, minutes: int, secs: int)
    ensures (if days > 0 then IntToString(days) + "d " else "")
            + (if hours > 0 || days > 0 then IntToString(hours) + "h " else "")
            + (if minutes > 0 || hours > 0 || days > 0 then IntToString(minutes) + "m " else "")
            + (IntToString(secs) + "s")
            == Render(Breakdown(days, hours, minutes, secs))
  {
    var d, h, m, sec := IntToString(days) + "d", IntToString(hours) + "h",
                        IntToString(minutes) + "m", IntToString(secs) + "s";
    var first := if days > 0 then 0 else if hours > 0 then 1 else if minutes > 0 then 2 else 3;
    assert Render(Breakdown(days, hours, minutes, secs)) == JoinWithSpaces([d, h, m, sec][first..]);
    SpacedUnitsAreJoined(d, h, m, sec, first);
    UnitThenSpace(IntToString(days), 'd');
    UnitThenSpace(IntToString(hours), 'h');
    UnitThenSpace(IntToString(minutes), 'm');
    var dayText := if days > 0 then IntToString(days) + "d " else "";
    var hourText := if hours > 0 || days > 0 then IntToString(hours) + "h " else "";
    var minuteText := if minutes > 0 || hours > 0 || days > 0 then IntToString(minutes) + "m " else "";
    assert dayText == (if first <= 0 then d + " " else "");
    assert hourText == (if first <= 1 then h + " " else "");
    assert minuteText == (if first <= 2 then m + " " else "");
    assert dayText + hourText + minuteText + sec == JoinWithSpaces([d, h, m, sec][first..]);
  }

  /** `GetInterval`. */
  method GetInterval(seconds: Int32) returns (r: string)
    ensures r == IntervalText(seconds)
  {
    var total := seconds;
    var days := TDiv(total, 86400);
    var remainder := TMod(total, 86400);
    var hours := TDiv(remainder, 3600);
    remainder := TMod(remainder, 3600);
    var minutes := TDiv(remainder, 60);
    var secs := TMod(remainder, 60);
    assert Decompose(seconds) == Breakdown(days, hours, minutes, secs);

    ghost var dayText := if days > 0 then IntToString(days) + "d " else "";
    ghost var hourText := if hours > 0 || days > 0 then IntToString(hours) + "h " else "";
    ghost var minuteText := if minutes > 0 || hours > 0 || days > 0 then IntToString(minutes) + "m " else "";
    var result := "";
    if days > 0 {
      result := result + (IntToString(days) + "d ");
    }
    assert result == dayText;
    if hours > 0 || days > 0 {
      result := result + (IntToString(hours) + "h ");
    }
    assert result == dayText + hourText;
    if minutes > 0 || hours > 0 || days > 0 {
      result := result + (IntToString(minutes) + "m ");
    }
    assert result == dayText + hourText + minuteText;
    result := result + (IntToString(secs) + "s");

    AssembledText(days, hours, minutes, secs);
    RenderShape(Breakdown(days, hours, minutes, secs));
    r := Trim(result);
  }

  /** Every unit from the first positive one down to the seconds is shown,
      zeros included: a number of days brings the hours, minutes and seconds
      with it, a number of hours the minutes and seconds, and so on. */
  lemma UnitsShownFromFirstPositive(total: int)
    ensures var b := Decompose(total);
            var d, h, m, sec := IntToString(b.days), IntToString(b.hours), IntToString(b.minutes), IntToString(b.seconds);
            (b.days > 0 ==> IntervalText(total) == (d + "d ") + (h + "h ") + (m + "m ") + (sec + "s"))
            && (b.days <= 0 && b.hours > 0 ==> IntervalText(total) == (h + "h ") + (m + "m ") + (sec + "s"))
            && (b.days <= 0 && b.hours <= 0 && b.minutes > 0 ==> IntervalText(total) == (m + "m ") + (sec + "s"))
            && (b.days <= 0 && b.hours <= 0 && b.minutes <= 0 ==> IntervalText(total) == sec + "s")
  {
    var b := Decompose(total);
    AssembledText(b.days, b.hours, b.minutes, b.seconds);
  }

  /** Under a minute only the seconds are shown. */
  lemma UnderAMinute(total: int)
    requires 0 <= total < 60
    ensures IntervalText(total) == IntToString(total) + "s"
  {
    assert Decompose(total) == Breakdown(0, 0, 0, total);
    AssembledText(0, 0, 0, total);
  }

  /** From one day on every unit is shown, zeros included. */
  lemma WholeDay()
    ensures IntervalText(86400) == "1d 0h 0m 0s"
  {
    OneDayBreakdown();
    UnitsShownFromFirstPositive(86400);
    OneText();
    ZeroText();
    OneDayText();
  }

  lemma OneDayText()
    ensures ("1" + "d ") + ("0" + "h ") + ("0" + "m ") + ("0" + "s") == "1d 0h 0m 0s"
  {
  }

  lemma OneDayBreakdown()
    ensures Decompose(86400) == Breakdown(1, 0, 0, 0)
  {
    assert TDiv(86400, 86400) == 1 && TMod(86400, 86400) == 0;
  }

  lemma ZeroText()
    ensures IntToString(0) == "0"
  {
  }

  lemma OneText()
    ensures IntToString(1) == "1"
  {
  }

  lemma MinusThirtyText()
    ensures IntToString(-30) == "-30"
  {
    assert NatToString(30) == NatToString(3) + [DigitChar(0)];
  }

  /** A negative duration shows only the seconds of its last partial minute,
      with their sign: minutes and larger units are dropped. */
  lemma NegativeShowsOnlySeconds(total: int)
    requires total < 0
    ensures IntervalText(total) == IntToString(Decompose(total).seconds) + "s"
  {
    var b := Decompose(total);
    AssembledText(b.days, b.hours, b.minutes, b.seconds);
  }

  /** For instance, minus ninety seconds is shown as "-30s". */
  lemma MinusNinetySeconds()
    ensures IntervalText(-90) == "-30s"
  {
    MinusNinetyBreakdown();
    NegativeShowsOnlySeconds(-90);
    assert IntervalText(-90) == IntToString(-30) + "s";
    MinusThirtyText();
    MinusThirtySecondsText();
  }

  lemma MinusThirtySecondsText()
    ensures "-30" + "s" == "-30s"
  {
  }

  lemma MinusNinetyBreakdown()
    ensures Decompose(-90) == Breakdown(0, 0, -1, -30)
  {
    assert TDiv(-90, 86400) == 0 && TMod(-90, 86400) == -90;
    assert TDiv(-90, 3600) == 0 && TMod(-90, 3600) == -90;
  }
}
