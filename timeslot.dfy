/**
 * The timeslot parser of the raw booking route: turns the client's
 * "DD/MM/YYYY HHh" text into the arguments of `new Date(year, month - 1, day,
 * hour, 0, 0)`. The result is `None` (null) only when the text has no second
 * space-separated token; any other text gives a date, valid or not.
 */
module Timeslot {
  import opened Wrappers
  import opened Strings
  import opened Dates

  /** Element `k` of a destructured array: `undefined` past its end. */
  function At(parts: seq<string>, k: nat): Option<string>
  {
    if k < |parts| then Some(parts[k]) else None
  }

  /** `parseInt(v)`; `parseInt(undefined)` is NaN. */
  function ParseIntOpt(v: Option<string>): Option<int>
  {
    match v
    case None => None
    case Some(s) => ParseInt(s)
  }

  /** `n - 1`, where NaN stays NaN. */
  function Decrement(n: Option<int>): Option<int>
  {
    match n
    case None => None
    case Some(k) => Some(k - 1)
  }

  /** `new Date(year, monthIndex, day, hour, 0, 0)`: invalid as soon as one argument is NaN. */
  function MakeDate(year: Option<int>, monthIndex: Option<int>, day: Option<int>, hour: Option<int>): DateValue
  {
    if year.Some? && monthIndex.Some? && day.Some? && hour.Some? then
      Calendar(year.value, monthIndex.value, day.value, hour.value, 0, 0)
    else InvalidDate
  }

  /**
   * The date part is split on "/" into day, month and year; the first "h" of the
   * hour part is removed. Without an hour part, `.replace` is called on
   * `undefined`, throws, and the catch sets the result to null.
   */
  function ParseTimeslot(timeslot: string): Option<DateValue>
  {
    var tokens := Split(timeslot, ' ');
    var dateParts := Split(tokens[0], '/');
    if |tokens| < 2 then None
    else
      var hour := ReplaceFirst(tokens[1], 'h');
      Some(MakeDate(
        ParseIntOpt(At(dateParts, 2)),
        Decrement(ParseIntOpt(At(dateParts, 1))),
        ParseIntOpt(At(dateParts, 0)),
        ParseInt(hour)))
  }

  /** The parse is null exactly when the text holds no space. */
  lemma NullIffNoSpace(timeslot: string)
    ensures ParseTimeslot(timeslot).None? <==> ' ' !in timeslot
  {
    SplitSingle(timeslot, ' ');
  }

  /** The text the client is expected to send: "DD/MM/YYYY HHh". */
  function SlotText(day: nat, month: nat, year: nat, hour: nat): string
  {
    FormatNat(day) + "/" + FormatNat(month) + "/" + FormatNat(year) + " " + FormatNat(hour) + "h"
  }

  /**
   * "DD/MM/YYYY HHh" with any digit strings, zero-padded or not, parses to
   * (year, month - 1, day, hour) at minute and second 0, where each number is
   * the decimal value of its digit string, whatever further space-separated
   * tokens follow it.
   */
  lemma DigitSlot(d: string, m: string, y: string, h: string, rest: string,
                  day: nat, month: nat, year: nat, hour: nat)
    requires IsDigits(d) && IsDigits(m) && IsDigits(y) && IsDigits(h)
    requires rest == [] || rest[0] == ' '
    requires day == DigitsValue(d, false) && month == DigitsValue(m, false)
    requires year == DigitsValue(y, false) && hour == DigitsValue(h, false)
    ensures ParseTimeslot(d + "/" + m + "/" + y + " " + h + "h" + rest)
         == Some(Calendar(year, month - 1, day, hour, 0, 0))
  {
    ParseIntDigits(d);
    ParseIntDigits(m);
    ParseIntDigits(y);
    ParseIntDigits(h);
    ParsedSlot(d, m, y, h, rest, day, month, year, hour);
  }

  /** The slot over digit strings whose parseInt values are known. */
  lemma ParsedSlot(d: string, m: string, y: string, h: string, rest: string,
                   day: int, month: int, year: int, hour: int)
    requires IsDigits(d) && IsDigits(m) && IsDigits(y) && IsDigits(h)
    requires rest == [] || rest[0] == ' '
    requires ParseInt(d) == Some(day) && ParseInt(m) == Some(month)
    requires ParseInt(y) == Some(year) && ParseInt(h) == Some(hour)
    ensures ParseTimeslot(d + "/" + m + "/" + y + " " + h + "h" + rest)
         == Some(Calendar(year, month - 1, day, hour, 0, 0))
  {
    var t := d + "/" + m + "/" + y + " " + h + "h" + rest;
    SlotTokens(d, m, y, h, rest);
    ParseFromFields(t, d, m, y, h, day, month, year, hour);
  }

  /** The tokens and "/"-fields of "d/m/y hh" over digit strings. */
  lemma SlotTokens(d: string, m: string, y: string, h: string, rest: string)
    requires IsDigits(d) && IsDigits(m) && IsDigits(y) && IsDigits(h)
    requires rest == [] || rest[0] == ' '
    ensures var tokens := Split(d + "/" + m + "/" + y + " " + h + "h" + rest, ' ');
      |tokens| >= 2 && Split(tokens[0], '/') == [d, m, y] && ReplaceFirst(tokens[1], 'h') == h
  {
    var datePart := d + "/" + m + "/" + y;
    var t := d + "/" + m + "/" + y + " " + h + "h" + rest;
    var tokens := Split(t, ' ');
    assert |tokens| >= 2 && tokens[0] == datePart && tokens[1] == h + "h" by {
      DigitsSlash(d, m, y);
      NoSeparatorInDigits(h, ' ');
      assert t == datePart + " " + (h + "h") + rest;
      FirstTwoWords(datePart, h + "h", rest);
    }
    assert Split(tokens[0], '/') == [d, m, y] by {
      NoSeparatorInDigits(d, '/');
      NoSeparatorInDigits(m, '/');
      NoSeparatorInDigits(y, '/');
      DateFields(d, m, y);
    }
    assert ReplaceFirst(tokens[1], 'h') == h by {
      NoSeparatorInDigits(h, 'h');
      ReplaceFirstAt(h, 'h', "");
      assert h + ['h'] + "" == h + "h" && h + "" == h;
    }
  }

  /** The numbers written without leading zeros: (year, month - 1, day, hour). */
  lemma WellFormedTimeslot(day: nat, month: nat, year: nat, hour: nat, rest: string)
    requires rest == [] || rest[0] == ' '
    ensures ParseTimeslot(SlotText(day, month, year, hour) + rest)
         == Some(Calendar(year, month - 1, day, hour, 0, 0))
  {
    var d, m, y, h := FormatNat(day), FormatNat(month), FormatNat(year), FormatNat(hour);
    assert SlotText(day, month, year, hour) + rest == d + "/" + m + "/" + y + " " + h + "h" + rest;
    DigitsValueFormat(day);
    DigitsValueFormat(month);
    DigitsValueFormat(year);
    DigitsValueFormat(hour);
    DigitSlot(d, m, y, h, rest, day, month, year, hour);
  }

  /** A zero-padded slot: "05/03/2025 09h" is 5 March 2025, 09:00 (month index 2). */
  lemma PaddedSlot()
    ensures ParseTimeslot("05/03/2025 09h") == Some(Calendar(2025, 2, 5, 9, 0, 0))
  {
    PaddedFields();
    assert "05/03/2025 09h" == "05" + "/" + "03" + "/" + "2025" + " " + "09" + "h" + "";
    DigitSlot("05", "03", "2025", "09", "", 5, 3, 2025, 9);
  }

  lemma PaddedFields()
    ensures IsDigits("05") && IsDigits("03") && IsDigits("2025") && IsDigits("09")
    ensures DigitsValue("05", false) == 5 && DigitsValue("03", false) == 3
    ensures DigitsValue("2025", false) == 2025 && DigitsValue("09", false) == 9
  {
    FormatSmall();
    DigitsValueFormat(2025);
    assert DigitsValue("0", false) == 0 by { assert "0"[..0] == ""; }
    assert "05"[..1] == "0" && "03"[..1] == "0" && "09"[..1] == "0";
  }

  /** The parse, once the tokens and fields are known. */
  lemma ParseFromFields(t: string, d: string, m: string, y: string, h: string,
                        day: int, month: int, year: int, hour: int)
    requires |Split(t, ' ')| >= 2
    requires Split(Split(t, ' ')[0], '/') == [d, m, y]
    requires ReplaceFirst(Split(t, ' ')[1], 'h') == h
    requires ParseInt(d) == Some(day) && ParseInt(m) == Some(month)
    requires ParseInt(y) == Some(year) && ParseInt(h) == Some(hour)
    ensures ParseTimeslot(t) == Some(Calendar(year, month - 1, day, hour, 0, 0))
  {
  }

  /** "d/m/y" over digit strings holds no space. */
  lemma DigitsSlash(d: string, m: string, y: string)
    requires forall i :: 0 <= i < |d| ==> IsDecimalDigit(d[i])
    requires forall i :: 0 <= i < |m| ==> IsDecimalDigit(m[i])
    requires forall i :: 0 <= i < |y| ==> IsDecimalDigit(y[i])
    ensures ' ' !in d + "/" + m + "/" + y
  {
    var s := d + "/" + m + "/" + y;
    forall i | 0 <= i < |s| ensures s[i] != ' ' {
      if i < |d| { assert s[i] == d[i]; }
      else if i == |d| { assert s[i] == '/'; }
      else if i < |d| + 1 + |m| { assert s[i] == m[i - |d| - 1]; }
      else if i == |d| + 1 + |m| { assert s[i] == '/'; }
      else { assert s[i] == y[i - |d| - |m| - 2]; }
    }
  }

  lemma NoSeparatorInDigits(s: string, c: char)
    requires forall i :: 0 <= i < |s| ==> IsDecimalDigit(s[i])
    requires !IsDecimalDigit(c)
    ensures c !in s
  {
  }

  /** "d/m/y" splits on "/" into its three fields. */
  lemma DateFields(d: string, m: string, y: string)
    requires '/' !in d && '/' !in m && '/' !in y
    ensures Split(d + "/" + m + "/" + y, '/') == [d, m, y]
  {
    assert d + "/" + m + "/" + y == d + ['/'] + (m + ['/'] + y);
    SplitAtFirst(d, '/', m + ['/'] + y);
    SplitAtFirst(m, '/', y);
    SplitSingle(y, '/');
  }

  /** The example from the route's comment: "30/10/2025 14h" is 30 October 2025, 14:00 (month index 9). */
  lemma ExampleSlot()
    ensures ParseTimeslot("30/10/2025 14h") == Some(Calendar(2025, 9, 30, 14, 0, 0))
  {
    FormatSmall();
    assert SlotText(30, 10, 2025, 14) + "" == "30/10/2025 14h";
    WellFormedTimeslot(30, 10, 2025, 14, "");
  }

  lemma FormatSmall()
    ensures FormatNat(30) == "30" && FormatNat(10) == "10" && FormatNat(14) == "14"
    ensures FormatNat(2025) == "2025"
  {
    assert FormatNat(3) == "3";
    assert FormatNat(1) == "1";
    assert FormatNat(2) == "2";
    assert FormatNat(20) == FormatNat(2) + "0";
    assert FormatNat(202) == FormatNat(20) + "2";
    assert FormatNat(2025) == FormatNat(202) + "5";
  }

  /** Text without a space gives null; the booking is still created with that text kept verbatim. */
  lemma GarbageSlot()
    ensures ParseTimeslot("garbage") == None
  {
    NullIffNoSpace("garbage");
  }

  /** A first token with fewer than three "/"-fields leaves the year NaN: the date is invalid, not null. */
  lemma MissingDateFieldIsInvalid(timeslot: string)
    requires ' ' in timeslot
    requires |Split(Split(timeslot, ' ')[0], '/')| < 3
    ensures ParseTimeslot(timeslot) == Some(InvalidDate)
  {
    NullIffNoSpace(timeslot);
  }

  /** Non-numeric parts do not give null: they give an invalid date. */
  lemma NonNumericSlotIsInvalid()
    ensures ParseTimeslot("demain 14h") == Some(InvalidDate)
  {
    var slot := "demain 14h";
    assert slot == "demain" + [' '] + "14h";
    assert slot[6] == ' ';
    SplitAtFirst("demain", ' ', "14h");
    SplitSingle("demain", '/');
    MissingDateFieldIsInvalid(slot);
  }
}
