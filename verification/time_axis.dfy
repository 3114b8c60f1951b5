/**
 paa.py `render_html`: the row labels of the page, one per ten minutes
 from 06:00 to 20:00. The template rendering itself is not modelled.
 */
module TimeAxis {
  import opened Wrappers
  import opened Text
  import opened TimeBin

  /** Minutes after midnight of the first row, 06:00. */
  const AxisStart: nat := 360
  /** The step between rows, in minutes. */
  const AxisStep: nat := 10
  /** `range(85)`: the number of rows. */
  const AxisRows: nat := 85

  /** `strftime('%H:%M')` of the time `minutes` after a midnight: the day
      wraps, so only the time of day is shown, and the label reads back as
      that time of day. */
  function ClockLabel(minutes: nat): (text: string)
    ensures ReadClock(text) == Some(minutes % 1440)
  {
    var hours := ZeroPad2(minutes / 60 % 24);
    ZeroPad2RoundTrip(minutes / 60 % 24);
    ZeroPad2Excludes(minutes / 60 % 24, ':');
    PaddedPair(hours, minutes % 60);
    TimeOfDay(minutes);
    hours + ":" + ZeroPad2(minutes % 60)
  }

  /** Reads an `H:M` label back as minutes after midnight. */
  function ReadClock(text: string): Option<int> {
    var fields := Split(text, ':');
    if |fields| != 2 then None
    else match (ParseInt(fields[0]), ParseInt(fields[1]))
      case (Some(h), Some(m)) => Some(60 * h + m)
      case _ => None
  }

  lemma TimeOfDay(minutes: nat)
    ensures 60 * (minutes / 60 % 24) + minutes % 60 == minutes % 1440
  {
    var q := minutes / 60;
    var r := minutes % 60;
    var a := q / 24;
    var b := q % 24;
    assert minutes == 1440 * a + (60 * b + r) by {
      assert minutes == 60 * q + r;
      assert q == 24 * a + b;
    }
    DayRemainder(minutes, a, 60 * b + r);
  }

  lemma DayRemainder(n: nat, days: nat, rest: nat)
    requires n == 1440 * days + rest && rest < 1440
    ensures n % 1440 == rest
  {
  }

  /** The `times` list `render_html` hands to the template: row `i` is
      labelled with the time `i` steps after 06:00, from "06:00" to "20:00". */
  function Axis(): (labels: seq<string>)
    ensures |labels| == AxisRows
    ensures forall i :: 0 <= i < |labels| ==> labels[i] == ClockLabel(AxisStart + AxisStep * i)
    ensures forall i :: 0 <= i < |labels| ==> ReadClock(labels[i]) == Some(AxisStart + AxisStep * i)
    ensures labels[0] == "06:00" && labels[|labels| - 1] == "20:00"
  {
    var labels := seq(AxisRows, (i: nat) => ClockLabel(AxisStart + AxisStep * i));
    AxisLabels(labels);
    labels
  }

  /** The labels of the rows read back as their times, from "06:00" to "20:00". */
  lemma AxisLabels(labels: seq<string>)
    requires |labels| == AxisRows
    requires forall i :: 0 <= i < |labels| ==> labels[i] == ClockLabel(AxisStart + AxisStep * i)
    ensures forall i :: 0 <= i < |labels| ==> ReadClock(labels[i]) == Some(AxisStart + AxisStep * i)
    ensures labels[0] == "06:00" && labels[|labels| - 1] == "20:00"
  {
    forall j | 0 <= j < |labels|
      ensures ReadClock(labels[j]) == Some(AxisStart + AxisStep * j)
    {
      AxisWithinDay(j);
    }
    AxisEnds();
    assert labels[AxisRows - 1] == ClockLabel(AxisStart + AxisStep * (AxisRows - 1));
  }

  /** Every row falls within the same day, so its label reads back as the
      row's own time without wrapping past midnight. */
  lemma AxisWithinDay(i: nat)
    requires i < AxisRows
    ensures ReadClock(ClockLabel(AxisStart + AxisStep * i)) == Some(AxisStart + AxisStep * i)
    ensures AxisStart + AxisStep * i < 24 * 60
  {
    var minutes := AxisStart + AxisStep * i;
    DayRemainder(minutes, 0, minutes);
  }

  /** The first row reads 06:00 and the last 20:00. */
  lemma AxisEnds()
    ensures ClockLabel(AxisStart) == "06:00"
    ensures ClockLabel(AxisStart + AxisStep * (AxisRows - 1)) == "20:00"
  {
    LabelParts(AxisStart, 6, 0);
    LabelParts(AxisStart + AxisStep * (AxisRows - 1), 20, 0);
    OneDigit(6);
    OneDigit(0);
    TwoDigits(20);
    EndTexts();
  }

  lemma LabelParts(minutes: nat, h: nat, m: nat)
    requires minutes / 60 % 24 == h && minutes % 60 == m
    ensures ClockLabel(minutes) == ZeroPad2(h) + ":" + ZeroPad2(m)
  {
  }

  lemma EndTexts()
    ensures ['0', DigitChar(6)] + ":" + ['0', DigitChar(0)] == "06:00"
    ensures [DigitChar(2), DigitChar(0)] + ":" + ['0', DigitChar(0)] == "20:00"
  {
  }

  /** The minutes after midnight of the clock a table key shows for `h:m`:
      the time floored to ten minutes. */
  function KeyMinutes(h: int, m: int): int {
    60 * h + TableWidth * FloorDiv(m, TableWidth)
  }

  /** The table key of an in-range `H:M` time is the date, a `T` and the
      zero-padded clock label of the time floored to ten minutes; for a time
      within the axis's span those are the minutes of its own row, so the
      key carries that row's label. */
  lemma TableKeyOnAxis(date: string, time: string, h: int, m: int)
    requires |Split(time, ':')| == 2
    requires ParseInt(Split(time, ':')[0]) == Some(h) && ParseInt(Split(time, ':')[1]) == Some(m)
    requires 0 <= h < 24 && 0 <= m < 60
    ensures 0 <= KeyMinutes(h, m) < 1440
    ensures TableKey(date, time) == Success(date + "T" + ClockLabel(KeyMinutes(h, m)))
    ensures AxisStart <= 60 * h + m < AxisStart + AxisStep * AxisRows ==>
      var i := (60 * h + m - AxisStart) / AxisStep;
      0 <= i < AxisRows && AxisStart + AxisStep * i == KeyMinutes(h, m)
  {
    ClockOf(h, m);
    TableKeyClock(date, time, h, m);
    Regroup(date, "T", ZeroPad2(h), ":", ZeroPad2(TableWidth * FloorDiv(m, TableWidth)));
    if AxisStart <= 60 * h + m < AxisStart + AxisStep * AxisRows {
      AxisRowOf(h, m);
    }
  }

  lemma Regroup(a: string, b: string, c: string, d: string, e: string)
    ensures a + b + c + d + e == a + b + (c + d + e)
  {
  }

  /** The label of the key clock of `h:m` is the padded hour and the padded
      floored minute. */
  lemma ClockOf(h: int, m: int)
    requires 0 <= h < 24 && 0 <= m < 60
    ensures 0 <= KeyMinutes(h, m) < 1440
    ensures ClockLabel(KeyMinutes(h, m)) == ZeroPad2(h) + ":" + ZeroPad2(TableWidth * FloorDiv(m, TableWidth))
  {
    var r := TableWidth * FloorDiv(m, TableWidth);
    assert 0 <= r < 60;
    var minutes := KeyMinutes(h, m);
    assert minutes == 60 * h + r;
    ClockDivMod(h, r);
    LabelParts(minutes, h, r);
  }

  lemma ClockDivMod(h: int, r: int)
    requires 0 <= h < 24 && 0 <= r < 60
    ensures (60 * h + r) / 60 % 24 == h && (60 * h + r) % 60 == r
  {
    assert (60 * h + r) / 60 == h;
  }

  lemma TableKeyClock(date: string, time: string, h: int, m: int)
    requires |Split(time, ':')| == 2
    requires ParseInt(Split(time, ':')[0]) == Some(h) && ParseInt(Split(time, ':')[1]) == Some(m)
    ensures TableKey(date, time) == Success(date + "T" + ZeroPad2(h) + ":" + ZeroPad2(TableWidth * FloorDiv(m, TableWidth)))
  {
  }

  /** The axis row of a time within the axis's span starts at the time
      floored to ten minutes. */
  lemma AxisRowOf(h: int, m: int)
    requires 0 <= m < 60
    requires AxisStart <= 60 * h + m < AxisStart + AxisStep * AxisRows
    ensures var i := (60 * h + m - AxisStart) / AxisStep;
      0 <= i < AxisRows && AxisStart + AxisStep * i == KeyMinutes(h, m)
  {
    var k := 6 * h - 36;
    assert 60 * h + m - AxisStart == 10 * k + m;
    assert (10 * k + m) / 10 == k + m / 10;
  }
}
