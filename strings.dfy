/**
 * The JavaScript string operations the timeslot parser and the bearer-header
 * extraction rely on: `split` on a one-character separator, `replace` of the
 * first occurrence of one character, and `parseInt` without a radix.
 */
module Strings {
  import opened Wrappers

  /** `s.split(c)`: the pieces between the occurrences of `c`, in order; never empty. */
  function Split(s: string, c: char): (r: seq<string>)
    ensures |r| >= 1
    ensures forall i :: 0 <= i < |r| ==> c !in r[i]
  {
    if |s| == 0 then [""]
    else
      var rest := Split(s[1..], c);
      if s[0] == c then [""] + rest
      else [[s[0]] + rest[0]] + rest[1..]
  }

  /** `parts.join(c)`. */
  function Join(parts: seq<string>, c: char): string
  {
    if |parts| == 0 then ""
    else if |parts| == 1 then parts[0]
    else parts[0] + [c] + Join(parts[1..], c)
  }

  /** Joining the pieces of a split gives back the original string. */
  lemma {:induction false} JoinSplit(s: string, c: char)
    ensures Join(Split(s, c), c) == s
  {
    if |s| > 0 {
      var rest := Split(s[1..], c);
      JoinSplit(s[1..], c);
      if s[0] == c {
        assert Split(s, c) == [""] + rest;
      } else if |rest| > 1 {
        assert Join(rest, c) == rest[0] + [c] + Join(rest[1..], c);
        assert Split(s, c)[1..] == rest[1..];
      }
    }
  }

  /** Splitting at the first separator: the piece before it, then the split of what follows. */
  lemma {:induction false} SplitAtFirst(a: string, c: char, b: string)
    requires c !in a
    ensures Split(a + [c] + b, c) == [a] + Split(b, c)
  {
    if |a| == 0 {
      assert (a + [c] + b)[1..] == b;
    } else {
      assert (a + [c] + b)[1..] == a[1..] + [c] + b;
      SplitAtFirst(a[1..], c, b);
      assert [a[0]] + a[1..] == a;
    }
  }

  /** A string without the separator splits into itself alone, and only such a string does. */
  lemma {:induction false} SplitSingle(s: string, c: char)
    ensures |Split(s, c)| == 1 <==> c !in s
    ensures c !in s ==> Split(s, c) == [s]
  {
    if |s| > 0 {
      SplitSingle(s[1..], c);
      assert [s[0]] + s[1..] == s;
    }
  }

  /** Splitting the join of separator-free pieces gives back the pieces. */
  lemma {:induction false} SplitJoin(parts: seq<string>, c: char)
    requires |parts| >= 1
    requires forall i :: 0 <= i < |parts| ==> c !in parts[i]
    ensures Split(Join(parts, c), c) == parts
  {
    if |parts| == 1 {
      SplitSingle(parts[0], c);
    } else {
      SplitJoin(parts[1..], c);
      SplitAtFirst(parts[0], c, Join(parts[1..], c));
      assert [parts[0]] + parts[1..] == parts;
    }
  }

  /** The first two space-separated words of "first second rest", when `rest` is empty or starts a new word. */
  lemma FirstTwoWords(first: string, second: string, rest: string)
    requires ' ' !in first && ' ' !in second
    requires rest == [] || rest[0] == ' '
    ensures var words := Split(first + " " + second + rest, ' ');
      |words| >= 2 && words[0] == first && words[1] == second
  {
    assert first + " " + second + rest == first + [' '] + (second + rest);
    SplitAtFirst(first, ' ', second + rest);
    if rest == [] {
      assert second + rest == second;
      SplitSingle(second, ' ');
    } else {
      assert second + rest == second + [' '] + rest[1..];
      SplitAtFirst(second, ' ', rest[1..]);
    }
  }

  /** `s.replace(c, "")` for a one-character pattern: removes the first occurrence of `c`. */
  function ReplaceFirst(s: string, c: char): (r: string)
    ensures c !in s ==> r == s
    ensures c in s ==> |r| == |s| - 1
  {
    if |s| == 0 then s
    else if s[0] == c then s[1..]
    else [s[0]] + ReplaceFirst(s[1..], c)
  }

  /** Only the first occurrence goes: everything after it is kept, later occurrences included. */
  lemma {:induction false} ReplaceFirstAt(a: string, c: char, b: string)
    requires c !in a
    ensures ReplaceFirst(a + [c] + b, c) == a + b
  {
    if |a| > 0 {
      assert (a + [c] + b)[1..] == a[1..] + [c] + b;
      ReplaceFirstAt(a[1..], c, b);
      assert [a[0]] + (a[1..] + b) == a + b;
    } else {
      assert (a + [c] + b)[1..] == b;
    }
  }

  predicate IsDecimalDigit(ch: char) { '0' <= ch <= '9' }

  /** A digit in base 10, or in base 16 when `hex` holds (either case). */
  predicate IsDigitIn(ch: char, hex: bool)
  {
    IsDecimalDigit(ch) || (hex && ('a' <= ch <= 'f' || 'A' <= ch <= 'F'))
  }

  function DigitValue(ch: char): nat
  {
    if IsDecimalDigit(ch) then ch as int - '0' as int
    else if 'a' <= ch <= 'f' then ch as int - 'a' as int + 10
    else if 'A' <= ch <= 'F' then ch as int - 'A' as int + 10
    else 0
  }

  /** Length of the longest prefix of `s` made of digits. */
  function DigitRun(s: string, hex: bool): (n: nat)
    ensures n <= |s|
    ensures forall i :: 0 <= i < n ==> IsDigitIn(s[i], hex)
    ensures n < |s| ==> !IsDigitIn(s[n], hex)
  {
    if |s| == 0 || !IsDigitIn(s[0], hex) then 0 else 1 + DigitRun(s[1..], hex)
  }

  /** The number a digit string denotes, most significant digit first. */
  function DigitsValue(digits: string, hex: bool): nat
  {
    if |digits| == 0 then 0
    else DigitsValue(digits[..|digits| - 1], hex) * (if hex then 16 else 10) + DigitValue(digits[|digits| - 1])
  }

  /**
   * `parseInt(s)`: an optional sign, then a `0x`/`0X` prefix switches to base 16,
   * then the longest run of digits; `None` (NaN) when that run is empty.
   */
  function ParseInt(s: string): Option<int>
  {
    var negative := |s| > 0 && s[0] == '-';
    var unsigned := if |s| > 0 && (s[0] == '-' || s[0] == '+') then s[1..] else s;
    var hex := |unsigned| >= 2 && unsigned[0] == '0' && (unsigned[1] == 'x' || unsigned[1] == 'X');
    var body := if hex then unsigned[2..] else unsigned;
    var n := DigitRun(body, hex);
    if n == 0 then None
    else
      var magnitude: int := DigitsValue(body[..n], hex);
      Some(if negative then -magnitude else magnitude)
  }

  function DigitChar(d: nat): char
    requires d < 10
  {
    ('0' as int + d) as char
  }

  /** The decimal rendering of a natural number, without leading zeros. */
  function FormatNat(n: nat): (r: string)
    ensures |r| >= 1
    ensures forall i :: 0 <= i < |r| ==> IsDecimalDigit(r[i])
    ensures n >= 10 ==> r[0] != '0'
  {
    (if n < 10 then "" else FormatNat(n / 10)) + [DigitChar(n % 10)]
  }

  lemma DigitCharValue(d: nat)
    requires d < 10
    ensures IsDecimalDigit(DigitChar(d)) && DigitValue(DigitChar(d)) == d
  {
  }

  lemma {:induction false} DigitsValueFormat(n: nat)
    ensures DigitsValue(FormatNat(n), false) == n
  {
    var r := FormatNat(n);
    var prefix := if n < 10 then "" else FormatNat(n / 10);
    assert r == prefix + [DigitChar(n % 10)];
    assert r[..|r| - 1] == prefix;
    assert r[|r| - 1] == DigitChar(n % 10);
    DigitCharValue(n % 10);
    if n >= 10 {
      DigitsValueFormat(n / 10);
      assert DigitsValue(r, false) == (n / 10) * 10 + n % 10;
    } else {
      assert DigitsValue(prefix, false) == 0;
    }
  }

  /**
   * parseInt reads the leading digits and stops at the first character that is
   * not one; the one exception is a lone "0" followed by an x, which starts a
   * hexadecimal number.
   */
  lemma ParseIntLeadingDigits(n: nat, tail: string)
    requires tail == [] || !IsDecimalDigit(tail[0])
    requires n == 0 && |tail| > 0 ==> tail[0] != 'x' && tail[0] != 'X'
    ensures ParseInt(FormatNat(n) + tail) == Some(n)
  {
    var f := FormatNat(n);
    var s := f + tail;
    assert s[0] == f[0];
    assert !(|s| >= 2 && s[0] == '0' && (s[1] == 'x' || s[1] == 'X')) by {
      if |f| == 1 && |s| >= 2 { assert s[1] == tail[0]; }
      if |f| >= 2 { assert s[1] == f[1]; }
    }
    ParseIntDecimal(s);
    DigitRunExact(f, tail);
    assert s[..|f|] == f;
    DigitsValueFormat(n);
  }

  /** Text that starts with a digit and not with "0x" is read as its leading decimal digits. */
  lemma ParseIntDecimal(s: string)
    requires |s| > 0 && IsDecimalDigit(s[0])
    requires !(|s| >= 2 && s[0] == '0' && (s[1] == 'x' || s[1] == 'X'))
    ensures ParseInt(s) == Some(DigitsValue(s[..DigitRun(s, false)], false))
  {
  }

  /** A non-empty string of decimal digits, leading zeros allowed. */
  predicate IsDigits(s: string)
  {
    |s| > 0 && forall i :: 0 <= i < |s| ==> IsDecimalDigit(s[i])
  }

  /** parseInt of a digit string is the number it denotes, leading zeros included. */
  lemma ParseIntDigits(s: string)
    requires IsDigits(s)
    ensures ParseInt(s) == Some(DigitsValue(s, false))
  {
    ParseIntDecimal(s);
    DigitRunExact(s, []);
    assert s + [] == s;
    assert s[..|s|] == s;
  }

  /** A leading "-" before unsigned text negates what parseInt reads from that text. */
  lemma ParseIntMinus(f: string)
    requires f == [] || (f[0] != '-' && f[0] != '+')
    ensures ParseInt("-" + f) == if ParseInt(f).Some? then Some(-ParseInt(f).value) else None
  {
    assert ("-" + f)[0] == '-' && ("-" + f)[1..] == f;
  }

  /** parseInt of "-" and a decimal rendering is minus that number. */
  lemma ParseIntNegative(n: nat)
    ensures ParseInt("-" + FormatNat(n)) == Some(-(n as int))
  {
    var f := FormatNat(n);
    ParseIntMinus(f);
    ParseIntDigits(f);
    DigitsValueFormat(n);
  }

  /** A non-empty string of hexadecimal digits, in either case. */
  predicate IsHexDigits(s: string)
  {
    |s| > 0 && forall i :: 0 <= i < |s| ==> IsDigitIn(s[i], true)
  }

  /** A "0x" prefix switches to base 16: the hex digits after it are read as their value. */
  lemma ParseIntHex(s: string)
    requires IsHexDigits(s)
    ensures ParseInt("0x" + s) == Some(DigitsValue(s, true))
  {
    var t := "0x" + s;
    assert t[0] == '0' && t[1] == 'x' && t[2..] == s;
    assert DigitRun(s, true) == |s|;
    assert s[..|s|] == s;
  }

  /** Both branches together: "-0x1A" is -26. */
  lemma NegativeHexExample()
    ensures ParseInt("-0x1A") == Some(-26)
  {
    var t := "-0x1A";
    assert t[1..] == "0x" + "1A";
    ParseIntHex("1A");
    assert "1A"[..1] == "1" && "1"[..0] == "";
    assert DigitsValue("1A", true) == 26;
  }

  /** The digit run of a digit string followed by a non-digit is that digit string. */
  lemma DigitRunExact(f: string, tail: string)
    requires forall i :: 0 <= i < |f| ==> IsDecimalDigit(f[i])
    requires tail == [] || !IsDecimalDigit(tail[0])
    ensures DigitRun(f + tail, false) == |f|
  {
    var s := f + tail;
    assert forall i :: 0 <= i < |f| ==> s[i] == f[i];
    assert |tail| > 0 ==> s[|f|] == tail[0];
  }

  /** Without a leading digit or sign, parseInt gives NaN. */
  lemma ParseIntNoDigits(s: string)
    requires s == [] || (!IsDecimalDigit(s[0]) && s[0] != '-' && s[0] != '+')
    ensures ParseInt(s) == None
  {
  }
}
