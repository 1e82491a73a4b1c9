/**
 * `Kernel#Integer(s, exception: false)` on a String, which reads the key
 * of an experiment condition: white space around, a sign, a radix prefix
 * (a bare leading `0` meaning octal) and `_` separators.
 */
module RubyIntegers {
  import opened Wrappers
  import opened Text

  /** Ruby's `ISSPACE`: space, tab, line feed, vertical tab, form feed and carriage return. */
  predicate IsSpace(c: char) { c == ' ' || 9 <= c as int <= 13 }

  /** The value of a digit in the bases up to 36 (letters of either case count from 10); 36 for anything else. */
  function DigitValueOf(c: char): (d: nat)
    ensures d <= 36
    ensures IsDigit(c) ==> d == c as int - '0' as int
  {
    if '0' <= c <= '9' then c as int - '0' as int
    else if 'a' <= c <= 'z' then c as int - 'a' as int + 10
    else if 'A' <= c <= 'Z' then c as int - 'A' as int + 10
    else 36
  }

  /** No two `_` in a row. */
  predicate NoDoubledSeparator(s: string)
  {
    |s| < 2 || ((s[0] != '_' || s[1] != '_') && NoDoubledSeparator(s[1..]))
  }

  /** Digits of `base` with single `_` separators between two digits: none leading, trailing or doubled. */
  predicate UnderscoredDigits(s: string, base: nat)
  {
    && |s| > 0
    && s[0] != '_' && s[|s| - 1] != '_'
    && (forall i :: 0 <= i < |s| ==> s[i] == '_' || DigitValueOf(s[i]) < base)
    && NoDoubledSeparator(s)
  }

  /** A string without `_` has no doubled separator. */
  lemma {:induction false} NoSeparatorNoDoubled(s: string)
    requires forall i :: 0 <= i < |s| ==> s[i] != '_'
    ensures NoDoubledSeparator(s)
  {
    if |s| >= 2 {
      NoSeparatorNoDoubled(s[1..]);
    }
  }

  /** The value of digits in `base`, most significant first, the `_` separators skipped. */
  function UnderscoredValue(s: string, base: nat): nat
  {
    if |s| == 0 then 0
    else if s[|s| - 1] == '_' then UnderscoredValue(s[..|s| - 1], base)
    else UnderscoredValue(s[..|s| - 1], base) * base + DigitValueOf(s[|s| - 1])
  }

  /** `s` without its leading white space. */
  function TrimStart(s: string): (r: string)
    ensures |r| <= |s|
    ensures |r| > 0 ==> !IsSpace(r[0])
  {
    if |s| > 0 && IsSpace(s[0]) then TrimStart(s[1..]) else s
  }

  /** `s` without its trailing white space. */
  function TrimEnd(s: string): (r: string)
    ensures r <= s
    ensures |r| > 0 ==> !IsSpace(r[|r| - 1])
  {
    if |s| > 0 && IsSpace(s[|s| - 1]) then TrimEnd(s[..|s| - 1]) else s
  }

  /**
   * The base a radix prefix selects and the digits after it: `0x`, `0b`,
   * `0o` and `0d` (either case) select 16, 2, 8 and 10; any other leading
   * `0` followed by more characters selects 8 and stays a digit; otherwise
   * the base is 10.
   */
  function BaseAndDigits(body: string): (r: (nat, string))
    ensures r.0 == 2 || r.0 == 8 || r.0 == 10 || r.0 == 16
    ensures r.1 == body || (|body| >= 2 && body[0] == '0' && r.1 == body[2..])
    ensures |body| > 0 && body[0] != '0' ==> r == (10, body)
  {
    if |body| >= 2 && body[0] == '0' then
      if body[1] == 'x' || body[1] == 'X' then (16, body[2..])
      else if body[1] == 'b' || body[1] == 'B' then (2, body[2..])
      else if body[1] == 'o' || body[1] == 'O' then (8, body[2..])
      else if body[1] == 'd' || body[1] == 'D' then (10, body[2..])
      else (8, body)
    else (10, body)
  }

  /** The number after the sign: an optional radix prefix, then digits of that base with single `_` separators. */
  function UnsignedOrNil(body: string): (r: Option<nat>)
    ensures |body| == 0 ==> r.None?
  {
    var split := BaseAndDigits(body);
    if UnderscoredDigits(split.1, split.0) then Some(UnderscoredValue(split.1, split.0)) else None
  }

  /**
   * `Integer(s, exception: false)` on a String: optional white space, an
   * optional sign, an optional radix prefix, then digits of that base with
   * single `_` separators, then optional white space; nil for anything else.
   */
  function IntegerOrNil(s: string): Option<int>
  {
    var t := TrimEnd(TrimStart(s));
    if |t| > 0 && (t[0] == '-' || t[0] == '+') then
      var v := UnsignedOrNil(t[1..]);
      if v.None? then None else if t[0] == '-' then Some(0 - v.value) else Some(v.value)
    else
      var v := UnsignedOrNil(t);
      if v.None? then None else Some(v.value)
  }

  /** Without separators, base-10 digits have their decimal value. */
  lemma {:induction false} UnderscoredValueOfDigits(s: string)
    requires AllDigits(s)
    ensures UnderscoredValue(s, 10) == DigitsValue(s)
  {
    if |s| > 0 {
      UnderscoredValueOfDigits(s[..|s| - 1]);
    }
  }

  /** Decimal digits without a leading zero read as the decimal number they spell. */
  lemma UnsignedOrNilOfDecimal(d: string)
    requires |d| > 0 && AllDigits(d) && (|d| == 1 || d[0] != '0')
    ensures UnsignedOrNil(d) == Some(DigitsValue(d))
  {
    assert BaseAndDigits(d) == (10, d);
    NoSeparatorNoDoubled(d);
    UnderscoredValueOfDigits(d);
  }

  /** A string that neither starts nor ends with white space is its own trimmed form. */
  lemma TrimOfUnspaced(s: string)
    requires |s| > 0 && !IsSpace(s[0]) && !IsSpace(s[|s| - 1])
    ensures TrimEnd(TrimStart(s)) == s
  {
    assert TrimStart(s) == s;
  }

  /** A `-` in front of an unsigned number that ends in no white space negates it. */
  lemma IntegerOrNilOfNegated(d: string)
    requires |d| > 0 && !IsSpace(d[|d| - 1]) && UnsignedOrNil(d).Some?
    ensures IntegerOrNil("-" + d) == Some(0 - UnsignedOrNil(d).value)
  {
    var s := "-" + d;
    assert TrimEnd(TrimStart(s)) == s && s[1..] == d by {
      assert s[|s| - 1] == d[|d| - 1];
      assert s[1..] == d;
      TrimOfUnspaced(s);
    }
  }

  /** Decimal digits without a leading zero read as the decimal number they spell. */
  lemma {:induction false} IntegerOrNilOfDecimal(d: string)
    requires |d| > 0 && AllDigits(d) && (|d| == 1 || d[0] != '0')
    ensures IntegerOrNil(d) == Some(DigitsValue(d))
  {
    UnsignedOrNilOfDecimal(d);
    TrimOfUnspaced(d);
  }

  /** The same digits after a `-` read as the negated number. */
  lemma {:induction false} IntegerOrNilOfNegativeDecimal(d: string)
    requires |d| > 0 && AllDigits(d) && (|d| == 1 || d[0] != '0')
    ensures IntegerOrNil("-" + d) == Some(0 - DigitsValue(d))
  {
    UnsignedOrNilOfDecimal(d);
    IntegerOrNilOfNegated(d);
  }

  /** Trimming a blank string leaves nothing. */
  lemma {:induction false} TrimStartOfBlank(s: string)
    requires forall i :: 0 <= i < |s| ==> IsSpace(s[i])
    ensures TrimStart(s) == ""
  {
    if |s| > 0 {
      TrimStartOfBlank(s[1..]);
    }
  }

  /** A blank string, the empty one included, is not a number. */
  lemma IntegerOrNilOfBlank(s: string)
    requires forall i :: 0 <= i < |s| ==> IsSpace(s[i])
    ensures IntegerOrNil(s) == None
  {
    TrimStartOfBlank(s);
  }

  /** An experiment key printed by `Integer#to_s` is read back by `Integer()` as itself. */
  lemma IntegerOrNilOfIntToString(n: int)
    ensures IntegerOrNil(IntToString(n)) == Some(n)
  {
    if n < 0 {
      IntegerOrNilOfNegativeDecimal(NatToDigits(-n));
    } else {
      IntegerOrNilOfDecimal(NatToDigits(n));
    }
  }

  /** A leading zero makes the digits octal: "012" is 10. */
  lemma IntegerOrNilLeadingZeroIsOctal()
    ensures IntegerOrNil("012") == Some(10)
  {
    assert UnsignedOrNil("012") == Some(10) by {
      assert BaseAndDigits("012") == (8, "012");
      assert NoDoubledSeparator("012") by {
        assert "012"[1..] == "12";
      }
      assert UnderscoredValue("012", 8) == 10 by {
        assert "012"[..2] == "01";
        assert "01"[..1] == "0";
        assert "0"[..0] == "";
      }
    }
    TrimOfUnspaced("012");
    IntegerOrNilOfTrimmed("012", "012");
  }

  /** Under a leading zero, 8 is no digit: "08" is not a number. */
  lemma IntegerOrNilLeadingZeroRejectsEight()
    ensures IntegerOrNil("08") == None
  {
    assert UnsignedOrNil("08") == None by {
      assert BaseAndDigits("08") == (8, "08");
      assert DigitValueOf("08"[1]) == 8;
    }
    TrimOfUnspaced("08");
    IntegerOrNilOfTrimmed("08", "08");
  }

  /** A `0x` prefix reads hexadecimal digits of either case, after the sign: "-0x1A" is -26. */
  lemma IntegerOrNilHexadecimal()
    ensures IntegerOrNil("-0x1A") == Some(-26)
  {
    assert TrimStart("-0x1A") == "-0x1A";
    assert TrimEnd("-0x1A") == "-0x1A";
    assert "-0x1A"[1..] == "0x1A";
    assert BaseAndDigits("0x1A") == (16, "1A");
    assert UnderscoredValue("1A", 16) == 26 by {
      assert "1A"[..1] == "1";
      assert "1"[..0] == "";
    }
  }

  /** A string whose trimmed form starts with no sign reads as that form's unsigned number. */
  lemma IntegerOrNilOfTrimmed(s: string, t: string)
    requires TrimEnd(TrimStart(s)) == t
    requires |t| > 0 && t[0] != '-' && t[0] != '+'
    ensures IntegerOrNil(s) == if UnsignedOrNil(t).Some? then Some(UnsignedOrNil(t).value) else None
  {
  }

  /** Single `_` separators are skipped: "1_000" is 1000. */
  lemma UnsignedOrNilSkipsSeparators()
    ensures UnsignedOrNil("1_000") == Some(1000)
  {
    assert BaseAndDigits("1_000") == (10, "1_000");
    assert NoDoubledSeparator("1_000") by {
      assert "1_000"[1..] == "_000" && "_000"[1..] == "000" && "000"[1..] == "00";
    }
    assert UnderscoredValue("1_000", 10) == 1000 by {
      assert "1_000"[..4] == "1_00";
      assert "1_00"[..3] == "1_0";
      assert "1_0"[..2] == "1_";
      assert "1_"[..1] == "1";
      assert "1"[..0] == "";
    }
  }

  /** A leading space and a trailing line feed are trimmed. */
  lemma TrimSurroundingSpace()
    ensures TrimEnd(TrimStart(" 1_000\n")) == "1_000"
  {
    assert " 1_000\n"[1..] == "1_000\n";
    assert TrimStart("1_000\n") == "1_000\n";
    assert "1_000\n"[..5] == "1_000";
  }

  /** White space around the number is skipped: " 1_000\n" is 1000. */
  lemma IntegerOrNilSkipsSpace()
    ensures IntegerOrNil(" 1_000\n") == Some(1000)
  {
    TrimSurroundingSpace();
    UnsignedOrNilSkipsSeparators();
    IntegerOrNilOfTrimmed(" 1_000\n", "1_000");
  }

  /** Two `_` in a row are not a separator: "1__000" is not a number. */
  lemma IntegerOrNilRejectsDoubledSeparator()
    ensures IntegerOrNil("1__000") == None
  {
    assert TrimEnd(TrimStart("1__000")) == "1__000";
    assert UnsignedOrNil("1__000") == None by {
      assert BaseAndDigits("1__000") == (10, "1__000");
      assert !NoDoubledSeparator("1__000") by {
        assert "1__000"[1..] == "__000";
      }
    }
    IntegerOrNilOfTrimmed("1__000", "1__000");
  }
}
