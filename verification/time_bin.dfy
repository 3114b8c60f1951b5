/**
 Time-of-day handling: the `bin_time` bucketing of paa2.py, the ten-minute
 table key of paa.py, and the `rsplit(':', 1)[0]` truncation the paa.py
 extractors apply to every slot time.
 */
module TimeBin {
  import opened Wrappers
  import opened Text

  /** The default bucket width of `bin_time`, in minutes. */
  const DefaultWidth := 15

  /** The bucket width of the paa.py table keys, in minutes. */
  const TableWidth := 10

  /** Python's `a // b`: the floor of the quotient, for either sign of `b`. */
  function FloorDiv(a: int, b: int): int
    requires b != 0
  {
    if b > 0 then a / b else (-a) / (-b)
  }

  lemma FloorDivBounds(a: int, b: int)
    requires b > 0
    ensures b * FloorDiv(a, b) <= a < b * FloorDiv(a, b) + b
  {
  }

  lemma PositiveFloorOfMultiple(q: int, b: int)
    requires b > 0
    ensures (q * b) / b == q && (q * b) % b == 0
  {
    var r := (q * b) / b;
    var z := (q * b) % b;
    assert q * b == b * r + z;
    assert b * (q - r) == z;
    assert q - r >= 1 ==> b * (q - r) >= b;
    assert q - r <= -1 ==> b * (q - r) <= -b;
  }

  lemma FloorOfMultiple(q: int, b: int)
    requires b != 0
    ensures FloorDiv(q * b, b) == q
  {
    if b > 0 {
      PositiveFloorOfMultiple(q, b);
    } else {
      PositiveFloorOfMultiple(q, -b);
      assert -(q * b) == q * (-b);
    }
  }

  /** Flooring to a positive width gives a multiple of the width within one width below. */
  lemma FloorToMultiple(m: int, w: int)
    requires w > 0
    ensures var bucket := FloorDiv(m, w) * w;
      bucket % w == 0 && bucket <= m && m - w < bucket
  {
    FloorDivBounds(m, w);
    PositiveFloorOfMultiple(FloorDiv(m, w), w);
  }

  /** A colon-free field joined to a zero-padded number splits back into the
      two, and the number reads back. */
  lemma PaddedPair(x: string, n: int)
    requires ':' !in x
    ensures Split(x + ":" + ZeroPad2(n), ':') == [x, ZeroPad2(n)]
    ensures ParseInt(ZeroPad2(n)) == Some(n) && |ZeroPad2(n)| >= 2
  {
    ZeroPad2RoundTrip(n);
    ZeroPad2Excludes(n, ':');
    SplitTwoFields(x, ':', ZeroPad2(n));
  }

  /** The text before the first colon: the hour field, kept verbatim by `bin_time`. */
  function HourField(t: string): string {
    Split(t, ':')[0]
  }

  /** The minute field of `t`, read by `int()`; `None` when there is no second
      field or it is not an integer. */
  function MinuteOf(t: string): Option<int> {
    var fields := Split(t, ':');
    if |fields| >= 2 then ParseInt(fields[1]) else None
  }

  /** paa2.py `bin_time(t, minutes)`: unpack at least two colon fields, floor
      the minute to a multiple of `minutes`, and rejoin the verbatim hour
      with the zero-padded minute, dropping every later field. */
  function BinTime(t: string, minutes: int): (r: Result<string>)
    ensures r.Success? <==> MinuteOf(t).Some? && minutes != 0
    ensures r.Failure? ==> r.error == if MinuteOf(t).None? then ValueError else ZeroDivisionError
  {
    var fields := Split(t, ':');
    if |fields| < 2 then Failure(ValueError)
    else
      match ParseInt(fields[1])
      case None => Failure(ValueError)
      case Some(m) =>
        if minutes == 0 then Failure(ZeroDivisionError)
        else Success(fields[0] + ":" + ZeroPad2(FloorDiv(m, minutes) * minutes))
  }

  /** The output has exactly two fields: the input's hour field unchanged and
      a minute of at least two characters. */
  lemma BinTimeFields(t: string, minutes: int)
    requires BinTime(t, minutes).Success?
    ensures var out := Split(BinTime(t, minutes).value, ':');
      |out| == 2 && out[0] == HourField(t) && |out[1]| >= 2
  {
    var fields := Split(t, ':');
    var m := ParseInt(fields[1]).value;
    PaddedPair(fields[0], FloorDiv(m, minutes) * minutes);
  }

  /** The bucket floors the minute: a multiple of the width, never above the
      input minute and less than one width below it. */
  lemma BinTimeFloor(t: string, minutes: int)
    requires minutes > 0
    requires BinTime(t, minutes).Success?
    ensures MinuteOf(BinTime(t, minutes).value).Some?
    ensures var m := MinuteOf(t).value;
      var bucket := MinuteOf(BinTime(t, minutes).value).value;
      bucket % minutes == 0 && bucket <= m && m - minutes < bucket
  {
    var fields := Split(t, ':');
    var m := ParseInt(fields[1]).value;
    var mb := FloorDiv(m, minutes) * minutes;
    PaddedPair(fields[0], mb);
    assert MinuteOf(BinTime(t, minutes).value) == Some(mb);
    FloorToMultiple(m, minutes);
  }

  /** Bucketing a bucket label gives the label back. */
  lemma BinTimeIdempotent(t: string, minutes: int)
    requires BinTime(t, minutes).Success?
    ensures BinTime(BinTime(t, minutes).value, minutes) == BinTime(t, minutes)
  {
    var fields := Split(t, ':');
    var m := ParseInt(fields[1]).value;
    var q := FloorDiv(m, minutes);
    var mb := q * minutes;
    PaddedPair(fields[0], mb);
    FloorOfMultiple(q, minutes);
  }

  /** The worked example of the `bin_time` docstring: "12:40:00" falls in the 12:30 bucket at width 15. */
  lemma BinTimeDocExample()
    ensures BinTime("12:40:00", 15) == Success("12:30")
  {
    assert ParseInt("40") == Some(40) by {
      assert AllDigits("40");
      assert "40"[..1] == "4";
      assert DigitsValue("4") == 4;
    }
    assert ZeroPad2(30) == "30" by {
      assert FormatNat(30) == FormatNat(3) + [DigitChar(0)];
    }
    BinTimeExample("12", "40", "00", 40, 30);
    DocText();
  }

  lemma DocText()
    ensures "12" + ":" + "40" + ":" + "00" == "12:40:00"
    ensures "12" + ":" + "30" == "12:30"
  {
  }

  /** The first bucket of the day: "00:07:00" falls in 00:00. */
  lemma BinTimeMidnightExample()
    ensures BinTime("00:07:00", 15) == Success("00:00")
  {
    assert ParseInt("07") == Some(7) by {
      assert AllDigits("07");
      assert "07"[..1] == "0";
      assert DigitsValue("0") == 0;
    }
    assert ZeroPad2(0) == "00" by {
      assert FormatNat(0) == "0";
    }
    BinTimeExample("00", "07", "00", 7, 0);
    MidnightText();
  }

  lemma MidnightText()
    ensures "00" + ":" + "07" + ":" + "00" == "00:07:00"
    ensures "00" + ":" + "00" == "00:00"
  {
  }

  /** The last bucket of the day: "23:59:59" falls in 23:45. */
  lemma BinTimeLateExample()
    ensures BinTime("23:59:59", 15) == Success("23:45")
  {
    assert ParseInt("59") == Some(59) by {
      assert AllDigits("59");
      assert "59"[..1] == "5";
      assert DigitsValue("5") == 5;
    }
    assert ZeroPad2(45) == "45" by {
      assert FormatNat(45) == FormatNat(4) + [DigitChar(5)];
    }
    BinTimeExample("23", "59", "59", 59, 45);
    LateText();
  }

  lemma LateText()
    ensures "23" + ":" + "59" + ":" + "59" == "23:59:59"
    ensures "23" + ":" + "45" == "23:45"
  {
  }

  lemma BinTimeExample(h: string, m: string, sec: string, minute: nat, bucket: nat)
    requires ':' !in h && ':' !in m && ':' !in sec
    requires ParseInt(m) == Some(minute) && minute / 15 * 15 == bucket
    ensures BinTime(h + ":" + m + ":" + sec, 15) == Success(h + ":" + ZeroPad2(bucket))
  {
    ThreeFields(h, m, sec);
  }

  lemma ThreeFields(a: string, b: string, c: string)
    requires ':' !in a && ':' !in b && ':' !in c
    ensures Split(a + ":" + b + ":" + c, ':') == [a, b, c]
  {
    assert a + ":" + b + ":" + c == a + [':'] + (b + [':'] + c);
    SplitAfterField(a, ':', b + [':'] + c);
    SplitTwoFields(b, ':', c);
  }

  /** paa.py `s.rsplit(':', 1)[0]`: everything before the last colon, or all of
      `s` when it has none. */
  function DropLastField(s: string): (r: string)
    ensures r <= s
    ensures ':' !in s ==> r == s
    ensures ':' in s ==> |r| < |s| && s[|r|] == ':' && ':' !in s[|r| + 1..]
    decreases |s|
  {
    if ':' !in s then s
    else if s[|s| - 1] == ':' then s[..|s| - 1]
    else
      var r := DropLastField(s[..|s| - 1]);
      assert s[..|s| - 1][|r| + 1..] + [s[|s| - 1]] == s[|r| + 1..];
      r
  }

  /** Dropping the last field of `a:b` leaves `a`: "12:40:00" becomes "12:40". */
  lemma DropLastFieldOf(a: string, b: string)
    requires ':' !in b
    ensures DropLastField(a + ":" + b) == a
  {
    var s := a + ":" + b;
    var r := DropLastField(s);
    assert s[|a|] == ':';
    assert s[|a| + 1..] == b;
  }

  /** `time` has exactly two colon fields, both read by `int()`. */
  predicate ReadsAsClock(time: string) {
    var fields := Split(time, ':');
    |fields| == 2 && ParseInt(fields[0]).Some? && ParseInt(fields[1]).Some?
  }

  /** paa.py `provider_info_to_table_dicts` key of one time on `date`: exactly
      two colon fields, both read by `int()`; the minute floored to a multiple
      of ten; `dateTHH:MM` with both numbers zero-padded. */
  function TableKey(date: string, time: string): Result<string> {
    var fields := Split(time, ':');
    if |fields| != 2 then Failure(ValueError)
    else
      match (ParseInt(fields[0]), ParseInt(fields[1]))
      case (Some(h), Some(m)) => Success(date + "T" + ZeroPad2(h) + ":" + ZeroPad2(TableWidth * FloorDiv(m, TableWidth)))
      case _ => Failure(ValueError)
  }

  /** A table key exists exactly when the time reads as `H:M`, and is
      otherwise a ValueError. It is the date, a `T`, and a clock whose hour
      reads back as the time's hour and whose minute is the time's minute
      floored to ten, both written with at least two characters. */
  lemma TableKeyMeaning(date: string, time: string)
    ensures TableKey(date, time).Success? <==> ReadsAsClock(time)
    ensures TableKey(date, time).Failure? ==> TableKey(date, time).error == ValueError
    ensures TableKey(date, time).Success? ==>
      var key := TableKey(date, time).value;
      && |key| > |date|
      && key[..|date| + 1] == date + "T"
      && var clock := Split(key[|date| + 1..], ':');
      && |clock| == 2
      && |clock[0]| >= 2 && |clock[1]| >= 2
      && ParseInt(clock[0]) == ParseInt(Split(time, ':')[0])
      && ParseInt(clock[1]).Some?
      && var bucket := ParseInt(clock[1]).value;
      var m := ParseInt(Split(time, ':')[1]).value;
      bucket % TableWidth == 0 && bucket <= m && m - TableWidth < bucket
  {
    if ReadsAsClock(time) {
      TableKeyOf(date, time);
    }
  }

  lemma TableKeyOf(date: string, time: string)
    requires ReadsAsClock(time)
    ensures TableKey(date, time).Success?
    ensures
      var key := TableKey(date, time).value;
      && |key| > |date|
      && key[..|date| + 1] == date + "T"
      && var clock := Split(key[|date| + 1..], ':');
      && |clock| == 2
      && |clock[0]| >= 2 && |clock[1]| >= 2
      && ParseInt(clock[0]) == ParseInt(Split(time, ':')[0])
      && ParseInt(clock[1]).Some?
      && var bucket := ParseInt(clock[1]).value;
      var m := ParseInt(Split(time, ':')[1]).value;
      bucket % TableWidth == 0 && bucket <= m && m - TableWidth < bucket
  {
    var fields := Split(time, ':');
    var h := ParseInt(fields[0]).value;
    var m := ParseInt(fields[1]).value;
    var mb := TableWidth * FloorDiv(m, TableWidth);
    var clock := ZeroPad2(h) + ":" + ZeroPad2(mb);
    assert TableKey(date, time).value == date + "T" + clock;
    KeyParts(date, clock);
    ClockParts(h, mb);
    FloorToMultiple(m, TableWidth);
  }

  lemma KeyParts(date: string, clock: string)
    ensures var key := date + "T" + clock;
      |key| > |date| && key[..|date| + 1] == date + "T" && key[|date| + 1..] == clock
  {
    var key := date + "T" + clock;
    assert key[..|date| + 1] == date + "T";
    assert key[|date| + 1..] == clock;
  }

  lemma ClockParts(h: int, mb: int)
    ensures var clock := Split(ZeroPad2(h) + ":" + ZeroPad2(mb), ':');
      && clock == [ZeroPad2(h), ZeroPad2(mb)]
      && |ZeroPad2(h)| >= 2 && |ZeroPad2(mb)| >= 2
      && ParseInt(ZeroPad2(h)) == Some(h) && ParseInt(ZeroPad2(mb)) == Some(mb)
  {
    ZeroPad2RoundTrip(h);
    ZeroPad2Excludes(h, ':');
    PaddedPair(ZeroPad2(h), mb);
  }
}
