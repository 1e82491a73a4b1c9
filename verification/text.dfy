/**
 * The handful of Ruby `String` and `Integer` operations the core relies on:
 * `upcase` (used by every enum lookup), `Integer#to_s`, `String#to_i`,
 * `Float(s, exception: false)`, `<=>`, `include?`, `start_with?`,
 * `end_with?` and `split('.')`.
 */
module Text {
  import opened Wrappers

  // ----- upcase -----

  predicate IsAsciiLower(c: char) { 'a' <= c <= 'z' }

  function UpcaseChar(c: char): char
  {
    if IsAsciiLower(c) then (c as int - 32) as char else c
  }

  /** `String#upcase` restricted to ASCII letters. */
  function Upcase(s: string): (r: string)
    ensures |r| == |s|
    ensures forall i :: 0 <= i < |s| ==> !IsAsciiLower(r[i])
    ensures forall i :: 0 <= i < |s| && !IsAsciiLower(s[i]) ==> r[i] == s[i]
    ensures forall i :: 0 <= i < |s| && IsAsciiLower(s[i]) ==> r[i] as int + 32 == s[i] as int
  {
    if |s| == 0 then "" else [UpcaseChar(s[0])] + Upcase(s[1..])
  }

  /** Upper-casing twice is upper-casing once. */
  lemma UpcaseIdempotent(s: string)
    ensures Upcase(Upcase(s)) == Upcase(s)
  {
    var u := Upcase(s);
    assert forall i :: 0 <= i < |u| ==> Upcase(u)[i] == u[i];
  }

  /** A string holding no lower-case ASCII letter is its own upper case. */
  lemma UpcaseOfUpper(s: string)
    requires forall i :: 0 <= i < |s| ==> !IsAsciiLower(s[i])
    ensures Upcase(s) == s
  {
    assert forall i :: 0 <= i < |s| ==> Upcase(s)[i] == s[i];
  }

  // ----- decimal integers -----

  predicate IsDigit(c: char) { '0' <= c <= '9' }

  predicate AllDigits(s: string) { forall i :: 0 <= i < |s| ==> IsDigit(s[i]) }

  function DigitChar(d: nat): (c: char)
    requires d < 10
    ensures IsDigit(c) && c as int - '0' as int == d
  {
    ('0' as int + d) as char
  }

  /** The value of a string of decimal digits, most significant first. */
  function DigitsValue(s: string): nat
    requires AllDigits(s)
  {
    if |s| == 0 then 0 else DigitsValue(s[..|s| - 1]) * 10 + (s[|s| - 1] as int - '0' as int)
  }

  /** The decimal digits of `n`, without leading zeros. */
  function NatToDigits(n: nat): (r: string)
    ensures 1 <= |r| && AllDigits(r)
    ensures |r| > 1 ==> r[0] != '0'
    ensures DigitsValue(r) == n
  {
    if n < 10 then [DigitChar(n)]
    else
      var r := NatToDigits(n / 10) + [DigitChar(n % 10)];
      assert r[..|r| - 1] == NatToDigits(n / 10);
      r
  }

  /** `Integer#to_s`. */
  function IntToString(n: int): (r: string)
    ensures 1 <= |r|
    ensures n < 0 <==> r[0] == '-'
  {
    if n < 0 then "-" + NatToDigits(-n) else NatToDigits(n)
  }

  /** The longest prefix of `s` made of digits. */
  function DigitPrefix(s: string): (r: string)
    ensures r <= s && AllDigits(r)
    ensures |r| < |s| ==> !IsDigit(s[|r|])
  {
    if |s| == 0 || !IsDigit(s[0]) then "" else [s[0]] + DigitPrefix(s[1..])
  }

  /**
   * `String#to_i`: an optional sign and the digits that follow it; 0 when
   * there are none. Leading white space and `_` separators, which Ruby also
   * accepts, cannot occur in the strings the core applies it to.
   */
  function ToI(s: string): int
  {
    if |s| > 0 && s[0] == '-' then 0 - DigitsValue(DigitPrefix(s[1..]))
    else if |s| > 0 && s[0] == '+' then DigitsValue(DigitPrefix(s[1..]))
    else DigitsValue(DigitPrefix(s))
  }

  /** `s.to_i.to_s == s`: the string is the canonical decimal form of an integer. */
  predicate IsCanonicalInteger(s: string)
  {
    IntToString(ToI(s)) == s
  }

  lemma DigitPrefixOfDigits(s: string, rest: string)
    requires AllDigits(s)
    requires |rest| == 0 || !IsDigit(rest[0])
    ensures DigitPrefix(s + rest) == s
  {
    if |s| > 0 {
      assert (s + rest)[1..] == s[1..] + rest;
      DigitPrefixOfDigits(s[1..], rest);
    }
  }

  /** `n.to_s.to_i == n`, so every `Integer#to_s` output is canonical. */
  lemma {:induction false} ToIOfIntToString(n: int)
    ensures ToI(IntToString(n)) == n
    ensures IsCanonicalInteger(IntToString(n))
  {
    var m: nat := if n < 0 then -n else n;
    var d := NatToDigits(m);
    DigitPrefixOfDigits(d, "");
    assert d + "" == d;
    if n < 0 {
      assert IntToString(n)[1..] == d;
    }
  }

  /**
   * `Float(s, exception: false)` for the forms the model covers: an optional
   * sign followed by one or more decimal digits and nothing else.
   */
  function ParseNumber(s: string): (r: Option<int>)
  {
    if |s| > 0 && (s[0] == '-' || s[0] == '+') then
      var body := s[1..];
      if |body| > 0 && AllDigits(body) then
        Some(if s[0] == '-' then 0 - DigitsValue(body) else DigitsValue(body))
      else None
    else if |s| > 0 && AllDigits(s) then Some(DigitsValue(s))
    else None
  }

  /** A number printed by `to_s` parses back to itself. */
  lemma ParseNumberOfIntToString(n: int)
    ensures ParseNumber(IntToString(n)) == Some(n)
  {
    if n < 0 {
      assert IntToString(n)[1..] == NatToDigits(-n);
    }
  }

  /** A string with a letter in it is not a number. */
  lemma ParseNumberRejectsLetter(s: string, i: int)
    requires 0 <= i < |s| && ('a' <= s[i] <= 'z' || 'A' <= s[i] <= 'Z')
    ensures ParseNumber(s) == None
  {
    if |s| > 0 && (s[0] == '-' || s[0] == '+') {
      if i > 0 {
        assert !IsDigit(s[1..][i - 1]);
      }
    } else {
      assert !IsDigit(s[i]);
    }
  }

  // ----- ordering -----

  /** `String#<=>`: lexicographic order over the characters' code points. */
  function Compare(a: string, b: string): (r: int)
    ensures -1 <= r <= 1
  {
    if |a| == 0 then (if |b| == 0 then 0 else -1)
    else if |b| == 0 then 1
    else if a[0] < b[0] then -1
    else if a[0] > b[0] then 1
    else Compare(a[1..], b[1..])
  }

  lemma {:induction false} CompareZeroIffEqual(a: string, b: string)
    ensures Compare(a, b) == 0 <==> a == b
  {
    if |a| > 0 && |b| > 0 && a[0] == b[0] {
      CompareZeroIffEqual(a[1..], b[1..]);
      if a[1..] == b[1..] {
        assert a == [a[0]] + a[1..] && b == [b[0]] + b[1..];
      }
    }
  }

  lemma {:induction false} CompareAntisymmetric(a: string, b: string)
    ensures Compare(a, b) == -Compare(b, a)
  {
    if |a| > 0 && |b| > 0 && a[0] == b[0] {
      CompareAntisymmetric(a[1..], b[1..]);
    }
  }

  lemma {:induction false} CompareTransitive(a: string, b: string, c: string)
    requires Compare(a, b) < 0 && Compare(b, c) < 0
    ensures Compare(a, c) < 0
  {
    if |a| > 0 && |b| > 0 && |c| > 0 && a[0] == b[0] && b[0] == c[0] {
      CompareTransitive(a[1..], b[1..], c[1..]);
    }
  }

  // ----- substrings -----

  /** `String#start_with?` */
  predicate StartsWith(s: string, prefix: string) { prefix <= s }

  /** `String#end_with?` */
  predicate EndsWith(s: string, suffix: string)
  {
    |suffix| <= |s| && s[|s| - |suffix|..] == suffix
  }

  predicate OccursAt(s: string, part: string, i: int)
  {
    0 <= i <= |s| - |part| && s[i..i + |part|] == part
  }

  /** `String#include?` */
  predicate Includes(s: string, part: string)
  {
    exists i :: 0 <= i <= |s| - |part| && OccursAt(s, part, i)
  }

  lemma StartsWithImpliesIncludes(s: string, prefix: string)
    requires StartsWith(s, prefix)
    ensures Includes(s, prefix)
  {
    assert OccursAt(s, prefix, 0);
  }

  lemma EndsWithImpliesIncludes(s: string, suffix: string)
    requires EndsWith(s, suffix)
    ensures Includes(s, suffix)
  {
    assert OccursAt(s, suffix, |s| - |suffix|);
  }

  // ----- split -----

  /** Every field between occurrences of `sep`, empty fields included. */
  function SplitAll(s: string, sep: char): (r: seq<string>)
    ensures |r| >= 1
    ensures forall k :: 0 <= k < |r| ==> sep !in r[k]
  {
    if |s| == 0 then [""]
    else
      var rest := SplitAll(s[1..], sep);
      if s[0] == sep then [""] + rest else [[s[0]] + rest[0]] + rest[1..]
  }

  function Join(parts: seq<string>, sep: char): string
  {
    if |parts| == 0 then "" else if |parts| == 1 then parts[0] else parts[0] + [sep] + Join(parts[1..], sep)
  }

  lemma {:induction false} JoinSplitAll(s: string, sep: char)
    ensures Join(SplitAll(s, sep), sep) == s
  {
    if |s| > 0 {
      var rest := SplitAll(s[1..], sep);
      JoinSplitAll(s[1..], sep);
      if s[0] == sep {
        assert SplitAll(s, sep) == [""] + rest;
        assert ([""] + rest)[1..] == rest;
        assert s == [sep] + s[1..];
      } else {
        var r := SplitAll(s, sep);
        assert r[1..] == rest[1..];
        if |rest| == 1 {
          assert s == [s[0]] + rest[0];
        } else {
          assert s == [s[0]] + (rest[0] + [sep] + Join(rest[1..], sep));
        }
      }
    }
  }

  function DropTrailingEmpty(parts: seq<string>): (r: seq<string>)
    ensures r <= parts
    ensures |r| > 0 ==> r[|r| - 1] != ""
    ensures forall k :: |r| <= k < |parts| ==> parts[k] == ""
  {
    if |parts| == 0 then []
    else if parts[|parts| - 1] == "" then DropTrailingEmpty(parts[..|parts| - 1])
    else parts
  }

  /** `String#split(sep)` with a one-character separator: trailing empty fields are removed. */
  function Split(s: string, sep: char): (r: seq<string>)
    ensures forall k :: 0 <= k < |r| ==> sep !in r[k]
  {
    DropTrailingEmpty(SplitAll(s, sep))
  }

  /** On a string whose fields are all non-empty, `split` gives back every field. */
  lemma SplitNonEmptyFields(parts: seq<string>, sep: char)
    requires |parts| >= 1
    requires forall k :: 0 <= k < |parts| ==> parts[k] != "" && sep !in parts[k]
    ensures Split(Join(parts, sep), sep) == parts
  {
    SplitAllJoin(parts, sep);
  }

  lemma {:induction false} SplitAllJoin(parts: seq<string>, sep: char)
    requires |parts| >= 1
    requires forall k :: 0 <= k < |parts| ==> sep !in parts[k]
    ensures SplitAll(Join(parts, sep), sep) == parts
  {
    if |parts| == 1 {
      SplitAllField(parts[0], sep);
    } else {
      SplitAllJoin(parts[1..], sep);
      SplitAllPrefix(parts[0], Join(parts[1..], sep), sep);
      assert [parts[0]] + parts[1..] == parts;
    }
  }

  lemma {:induction false} SplitAllField(w: string, sep: char)
    requires sep !in w
    ensures SplitAll(w, sep) == [w]
  {
    if |w| > 0 {
      SplitAllField(w[1..], sep);
      assert [w[0]] + w[1..] == w;
    }
  }

  lemma {:induction false} SplitAllPrefix(w: string, rest: string, sep: char)
    requires sep !in w
    ensures SplitAll(w + [sep] + rest, sep) == [w] + SplitAll(rest, sep)
  {
    if |w| == 0 {
      assert w + [sep] + rest == [sep] + rest;
      assert ([sep] + rest)[1..] == rest;
    } else {
      assert (w + [sep] + rest)[1..] == w[1..] + [sep] + rest;
      SplitAllPrefix(w[1..], rest, sep);
      assert [w[0]] + w[1..] == w;
    }
  }
}
