/**
 The string operations the scheduling code relies on: `str.split` on one
 separator character, `int()` of a decimal string, `str()` of an integer
 and the `0>2` zero-padding format.
 */
module Text {
  import opened Wrappers

  /** Python's `s.split(sep)` for a one-character separator: the fields between
      separators, always at least one (the empty string splits to `[""]`). */
  function Split(s: string, sep: char): (fields: seq<string>)
    ensures |fields| >= 1
    ensures forall i :: 0 <= i < |fields| ==> sep !in fields[i]
    decreases |s|
  {
    if |s| == 0 then [""]
    else
      var rest := Split(s[1..], sep);
      if s[0] == sep then [""] + rest
      else [[s[0]] + rest[0]] + rest[1..]
  }

  /** Python's `sep.join(fields)`. */
  function Join(fields: seq<string>, sep: char): string
    decreases |fields|
  {
    if |fields| == 0 then ""
    else if |fields| == 1 then fields[0]
    else fields[0] + [sep] + Join(fields[1..], sep)
  }

  lemma {:induction false} SplitJoin(s: string, sep: char)
    ensures Join(Split(s, sep), sep) == s
    decreases |s|
  {
    if |s| > 0 {
      SplitJoin(s[1..], sep);
      var rest := Split(s[1..], sep);
      if s[0] == sep {
        assert [s[0]] + s[1..] == s;
      } else {
        if |rest| == 1 {
          assert [s[0]] + s[1..] == s;
        } else {
          assert ([s[0]] + rest[0]) + [sep] + Join(rest[1..], sep) == [s[0]] + (rest[0] + [sep] + Join(rest[1..], sep));
          assert [s[0]] + s[1..] == s;
        }
      }
    }
  }

  lemma {:induction false} SplitNoSeparator(s: string, sep: char)
    requires sep !in s
    ensures Split(s, sep) == [s]
    decreases |s|
  {
    if |s| > 0 {
      SplitNoSeparator(s[1..], sep);
      assert [s[0]] + s[1..] == s;
    }
  }

  lemma {:induction false} SplitAfterField(a: string, sep: char, b: string)
    requires sep !in a
    ensures Split(a + [sep] + b, sep) == [a] + Split(b, sep)
    decreases |a|
  {
    if |a| == 0 {
      assert a + [sep] + b == [sep] + b;
      assert ([sep] + b)[1..] == b;
    } else {
      var s := a + [sep] + b;
      assert s[1..] == a[1..] + [sep] + b;
      SplitAfterField(a[1..], sep, b);
      assert [a[0]] + a[1..] == a;
    }
  }

  /** Splitting undoes joining whenever no field contains the separator. */
  lemma {:induction false} JoinSplit(fields: seq<string>, sep: char)
    requires |fields| >= 1
    requires forall i :: 0 <= i < |fields| ==> sep !in fields[i]
    ensures Split(Join(fields, sep), sep) == fields
    decreases |fields|
  {
    if |fields| == 1 {
      SplitNoSeparator(fields[0], sep);
    } else {
      JoinSplit(fields[1..], sep);
      SplitAfterField(fields[0], sep, Join(fields[1..], sep));
      assert [fields[0]] + fields[1..] == fields;
    }
  }

  /** The two-field case the time formats use: `a:b` splits back into `[a, b]`. */
  lemma SplitTwoFields(a: string, sep: char, b: string)
    requires sep !in a && sep !in b
    ensures Split(a + [sep] + b, sep) == [a, b]
  {
    SplitAfterField(a, sep, b);
    SplitNoSeparator(b, sep);
  }

  predicate IsDigit(c: char) {
    '0' <= c <= '9'
  }

  predicate AllDigits(s: string) {
    forall i :: 0 <= i < |s| ==> IsDigit(s[i])
  }

  function DigitChar(d: nat): (c: char)
    requires d < 10
    ensures IsDigit(c)
  {
    ('0' as int + d) as char
  }

  function DigitValue(c: char): (d: nat)
    requires IsDigit(c)
    ensures d < 10
  {
    c as int - '0' as int
  }

  /** The value of a string of decimal digits, leading zeros allowed. */
  function DigitsValue(s: string): nat
    requires AllDigits(s)
    decreases |s|
  {
    if |s| == 0 then 0 else 10 * DigitsValue(s[..|s| - 1]) + DigitValue(s[|s| - 1])
  }

  /** The shortest decimal spelling of a natural number, as `str(n)` writes it. */
  function FormatNat(n: nat): (s: string)
    ensures 1 <= |s|
    ensures AllDigits(s)
    ensures DigitsValue(s) == n
    ensures n >= 10 ==> |s| >= 2
    decreases n
  {
    if n < 10 then [DigitChar(n)]
    else
      var prefix := FormatNat(n / 10);
      var s := prefix + [DigitChar(n % 10)];
      assert s[..|s| - 1] == prefix;
      s
  }

  /** A leading zero does not change the value of a digit string. */
  lemma {:induction false} LeadingZero(s: string)
    requires AllDigits(s)
    ensures AllDigits("0" + s)
    ensures DigitsValue("0" + s) == DigitsValue(s)
    decreases |s|
  {
    if |s| > 0 {
      var z := "0" + s;
      assert z[..|z| - 1] == "0" + s[..|s| - 1];
      LeadingZero(s[..|s| - 1]);
    }
  }

  /** Python's `str(n)` for an integer. */
  function FormatInt(n: int): (s: string)
    ensures 1 <= |s|
  {
    if n < 0 then "-" + FormatNat(-n) else FormatNat(n)
  }

  /** Python's `int(s)` on an optional sign followed by ASCII digits; anything
      else is a `ValueError` (`None` here). */
  function ParseInt(s: string): Option<int> {
    if |s| >= 2 && (s[0] == '-' || s[0] == '+') && AllDigits(s[1..]) then
      var magnitude: int := DigitsValue(s[1..]);
      Some(if s[0] == '-' then -magnitude else magnitude)
    else if |s| >= 1 && AllDigits(s) then Some(DigitsValue(s))
    else None
  }

  /** `f'{n:0>2}'` for an integer `n`, the minute and hour format of the
      source: `str(n)` with zeros on the left up to two characters. */
  function ZeroPad2(n: int): (s: string)
    ensures |s| >= 2
  {
    var digits := FormatInt(n);
    if |digits| >= 2 then digits else "0" + digits
  }

  /** A single digit is padded with one zero. */
  lemma OneDigit(n: nat)
    requires n < 10
    ensures ZeroPad2(n) == ['0', DigitChar(n)]
  {
    assert FormatInt(n) == [DigitChar(n)];
  }

  /** Two digits need no padding. */
  lemma TwoDigits(n: nat)
    requires 10 <= n < 100
    ensures ZeroPad2(n) == [DigitChar(n / 10), DigitChar(n % 10)]
  {
    assert FormatNat(n / 10) == [DigitChar(n / 10)];
    assert FormatInt(n) == [DigitChar(n / 10), DigitChar(n % 10)];
  }

  /** The zero-padded spelling reads back as the number it was made from,
      has at least two characters and never contains a separator. */
  lemma ZeroPad2RoundTrip(n: int)
    ensures ParseInt(ZeroPad2(n)) == Some(n)
    ensures |ZeroPad2(n)| >= 2
    ensures forall i :: 0 <= i < |ZeroPad2(n)| ==> IsDigit(ZeroPad2(n)[i]) || ZeroPad2(n)[i] == '-'
  {
    var s := ZeroPad2(n);
    if n < 0 {
      assert s == "-" + FormatNat(-n);
      assert s[1..] == FormatNat(-n);
    } else if n >= 10 {
      assert s == FormatNat(n);
    } else {
      assert s == "0" + FormatNat(n);
      LeadingZero(FormatNat(n));
    }
  }

  /** A character that is neither a digit nor '-', such as ':' or 'T', never occurs in a zero-padded number. */
  lemma ZeroPad2Excludes(n: int, c: char)
    requires !IsDigit(c) && c != '-'
    ensures c !in ZeroPad2(n)
  {
    ZeroPad2RoundTrip(n);
  }
}
