/**
 * `Version`, `CoreVersion` and `MetadataVersion`: semantic versions as the
 * targeting rules compare them. The syntax follows sections 2, 9 and 10 of
 * Semantic Versioning 2.0.0 with optional minor and patch numbers; the
 * order compares the core numbers and then the pre-release identifiers,
 * ignores build metadata, and ranks a version WITHOUT pre-release below
 * one with it (the reverse of section 11).
 */
module Versions {
  import opened Wrappers
  import opened RubyValues
  import Text

  datatype CoreVersion = CoreVersion(major: nat, minor: nat, patch: nat)

  /** Pre-release and build metadata are kept as their dot-separated identifiers. */
  datatype Version = Version(core: CoreVersion, prerelease: seq<string>, build: seq<string>)

  // ----- syntax -----

  /** The position of the first `c` in `s`, or `|s|` when there is none. */
  function IndexOfChar(s: string, c: char): (r: nat)
    ensures r <= |s| && c !in s[..r]
    ensures r < |s| ==> s[r] == c
  {
    if |s| == 0 then 0
    else if s[0] == c then 0
    else
      var r := 1 + IndexOfChar(s[1..], c);
      assert s[..r] == [s[0]] + s[1..][..r - 1];
      r
  }

  /** `0|[1-9]\d*`: a core number without leading zeros. */
  predicate IsCoreNumber(f: string)
  {
    |f| > 0 && Text.AllDigits(f) && (f[0] == '0' ==> f == "0")
  }

  /** `[0-9A-Za-z-]` */
  predicate IsIdentifierChar(c: char)
  {
    Text.IsDigit(c) || 'a' <= c <= 'z' || 'A' <= c <= 'Z' || c == '-'
  }

  /** `[0-9A-Za-z-]+` */
  predicate IsIdentifier(w: string)
  {
    |w| > 0 && forall j :: 0 <= j < |w| ==> IsIdentifierChar(w[j])
  }

  /** `[0-9A-Za-z-]+(?:\.[0-9A-Za-z-]+)*`: dot-separated non-empty identifiers. */
  predicate IsPrereleaseText(p: string)
  {
    var fields := Text.SplitAll(p, '.');
    forall k :: 0 <= k < |fields| ==> IsIdentifier(fields[k])
  }

  /** `\s` in a Ruby regular expression. */
  predicate IsSpace(c: char)
  {
    c == ' ' || c == '\t' || c == '\n' || c == '\r' || c == '\U{000C}' || c == '\U{000B}'
  }

  /** `\S+` */
  predicate IsBuildText(b: string)
  {
    |b| > 0 && forall j :: 0 <= j < |b| ==> !IsSpace(b[j])
  }

  /** The pieces of a candidate version string: core, then `-` pre-release, then `+` build. */
  datatype Pieces = Pieces(core: seq<string>, prerelease: Option<string>, build: Option<string>)

  /**
   * Cuts a string at its first `+` (the core and the pre-release contain
   * none) and the part before it at its first `-` (the core contains none).
   */
  function Cut(s: string): (r: Pieces)
    ensures r.build.Some? <==> '+' in s
    ensures r.build.None? ==> (r.prerelease.Some? <==> '-' in s)
  {
    var plus := IndexOfChar(s, '+');
    var head := s[..plus];
    var dash := IndexOfChar(head, '-');
    assert plus < |s| ==> s[plus] == '+';
    assert plus == |s| ==> head == s;
    Pieces(
      Text.SplitAll(head[..dash], '.'),
      if dash < |head| then Some(head[dash + 1..]) else None,
      if plus < |s| then Some(s[plus + 1..]) else None)
  }

  predicate WellFormed(p: Pieces)
  {
    && 1 <= |p.core| <= 3
    && (forall k :: 0 <= k < |p.core| ==> IsCoreNumber(p.core[k]))
    && (p.prerelease.None? || IsPrereleaseText(p.prerelease.value))
    && (p.build.None? || IsBuildText(p.build.value))
  }

  /** `match[k] || 0).to_i`: a core number, 0 when absent. */
  function CoreNumber(fields: seq<string>, k: nat): nat
    requires forall i :: 0 <= i < |fields| ==> IsCoreNumber(fields[i])
  {
    if k < |fields| then
      assert IsCoreNumber(fields[k]);
      Text.DigitsValue(fields[k])
    else 0
  }

  /**
   * `MetadataVersion.parse`: no identifiers when absent; otherwise the
   * dot-separated fields of the text, which join back into it, less the
   * empty fields at the end (`split('.')`).
   */
  function ParseMetadata(text: Option<string>): (r: seq<string>)
    ensures text.None? ==> r == []
    ensures text.Some? ==>
      var fields := Text.SplitAll(text.value, '.');
      && Text.Join(fields, '.') == text.value
      && r <= fields
      && (forall k :: |r| <= k < |fields| ==> fields[k] == "")
      && (|r| > 0 ==> r[|r| - 1] != "")
  {
    if text.None? then []
    else
      Text.JoinSplitAll(text.value, '.');
      Text.Split(text.value, '.')
  }

  /** A well-formed pre-release keeps every identifier, and they join back into it. */
  lemma ParseMetadataOfPrerelease(text: string)
    requires IsPrereleaseText(text)
    ensures Text.Join(ParseMetadata(Some(text)), '.') == text
    ensures forall k :: 0 <= k < |ParseMetadata(Some(text))| ==> IsIdentifier(ParseMetadata(Some(text))[k])
  {
    var fields := Text.SplitAll(text, '.');
    var r := ParseMetadata(Some(text));
    assert fields[|fields| - 1] != "" by {
      assert IsIdentifier(fields[|fields| - 1]);
    }
    assert r == fields;
  }

  /** A version string that is one whole line: the pattern anchored at both ends. */
  function ParseLine(s: string): (r: Option<Version>)
    ensures r.Some? <==> WellFormed(Cut(s))
  {
    var p := Cut(s);
    if WellFormed(p) then
      Some(Version(CoreVersion(CoreNumber(p.core, 0), CoreNumber(p.core, 1), CoreNumber(p.core, 2)),
                   ParseMetadata(p.prerelease), ParseMetadata(p.build)))
    else None
  }

  /** `Version.parse_or_nil` with the pattern anchored at the start and end of the whole string. */
  function ParseOrNil(value: Value): (r: Option<Version>)
    ensures !value.Str? ==> r.None?
    ensures value.Str? ==> r == ParseLine(value.s)
  {
    if value.Str? then ParseLine(value.s) else None
  }

  /** The position of the first line that is a version string by itself, or the number of lines when none is. */
  function FirstVersionLineIndex(lines: seq<string>): (k: nat)
    ensures k <= |lines|
    ensures forall j :: 0 <= j < k ==> ParseLine(lines[j]).None?
    ensures k < |lines| ==> ParseLine(lines[k]).Some?
  {
    if |lines| == 0 || ParseLine(lines[0]).Some? then 0
    else
      var k := FirstVersionLineIndex(lines[1..]);
      assert forall j :: 1 <= j <= k ==> lines[j] == lines[1..][j - 1];
      k + 1
  }

  /**
   * `Version.parse_or_nil` as written: Ruby's `^` and `$` match at every
   * line boundary and no part of the pattern matches a newline, so the
   * first line that is a version string by itself is parsed, and nil
   * comes back only when no line is one.
   */
  function ParseOrNilAsWritten(value: Value): (r: Option<Version>)
    ensures !value.Str? ==> r.None?
    ensures value.Str? ==>
      var lines := Text.SplitAll(value.s, '\n');
      var k := FirstVersionLineIndex(lines);
      && (k < |lines| ==> r == ParseLine(lines[k]))
      && (k == |lines| ==> r.None?)
  {
    if value.Str? then
      var lines := Text.SplitAll(value.s, '\n');
      var k := FirstVersionLineIndex(lines);
      if k < |lines| then ParseLine(lines[k]) else None
    else None
  }

  /** On a string without a newline the two readings of the pattern agree. */
  lemma AsWrittenAgreesOnOneLine(s: string)
    requires '\n' !in s
    ensures ParseOrNilAsWritten(Str(s)) == ParseOrNil(Str(s))
  {
    Text.SplitAllField(s, '\n');
  }

  /** No version starts with a letter. */
  lemma ParseLineRejectsLeadingLetter(s: string)
    requires |s| > 0 && ('a' <= s[0] <= 'z' || 'A' <= s[0] <= 'Z')
    ensures ParseLine(s).None?
  {
    var plus := IndexOfChar(s, '+');
    var head := s[..plus];
    var dash := IndexOfChar(head, '-');
    var text := head[..dash];
    assert |text| > 0 && text[0] == s[0];
    var field := Text.SplitAll(text, '.')[0];
    assert |field| > 0 && field[0] == s[0];
    assert !Text.IsDigit(field[0]);
  }

  /** A bare number `n` parses as n.0.0, as `'15'` parses as 15.0.0. */
  lemma ParseLineOfNumber(n: nat)
    ensures ParseLine(Text.NatToDigits(n)) == Some(Version(CoreVersion(n, 0, 0), [], []))
  {
    var d := Text.NatToDigits(n);
    assert forall j :: 0 <= j < |d| ==> Text.IsDigit(d[j]);
    assert IndexOfChar(d, '+') == |d|;
    assert d[..|d|] == d;
    assert IndexOfChar(d, '-') == |d|;
    Text.SplitAllField(d, '.');
    assert Cut(d).core == [d];
    if d[0] == '0' {
      assert |d| == 1;
      assert d == "0";
    }
    assert IsCoreNumber(d);
  }

  /** A core number in canonical form, e.g. `0` or `42`. */
  lemma NatToDigitsIsCoreNumber(n: nat)
    ensures IsCoreNumber(Text.NatToDigits(n))
  {
    var d := Text.NatToDigits(n);
    if d[0] == '0' {
      assert |d| == 1;
      assert d == "0";
    }
  }

  /** `a.b` parses as a.b.0, as `'15.143'` parses as 15.143.0. */
  lemma ParseLineOfTwoNumbers(a: nat, b: nat)
    ensures ParseLine(Text.NatToDigits(a) + "." + Text.NatToDigits(b)) == Some(Version(CoreVersion(a, b, 0), [], []))
  {
    var da, db := Text.NatToDigits(a), Text.NatToDigits(b);
    var s := da + "." + db;
    assert forall j :: 0 <= j < |s| ==> Text.IsDigit(s[j]) || s[j] == '.' by {
      forall j | 0 <= j < |s|
        ensures Text.IsDigit(s[j]) || s[j] == '.'
      {
        if j < |da| { assert s[j] == da[j]; }
        else if j > |da| { assert s[j] == db[j - |da| - 1]; }
      }
    }
    assert IndexOfChar(s, '+') == |s|;
    assert s[..|s|] == s;
    assert IndexOfChar(s, '-') == |s|;
    assert Text.SplitAll(s, '.') == [da, db] by {
      Text.SplitAllPrefix(da, db, '.');
      Text.SplitAllField(db, '.');
    }
    NatToDigitsIsCoreNumber(a);
    NatToDigitsIsCoreNumber(b);
  }

  /**
   * A version string after a first line of text is accepted by the pattern
   * as written, though the whole string is not a version.
   */
  lemma AsWrittenAcceptsSecondLine()
    ensures ParseOrNil(Str("x\n1")).None?
    ensures ParseOrNilAsWritten(Str("x\n1")) == Some(Version(CoreVersion(1, 0, 0), [], []))
  {
    assert Text.SplitAll("x\n1", '\n') == ["x", "1"] by {
      Text.SplitAllPrefix("x", "1", '\n');
      Text.SplitAllField("1", '\n');
      assert "x\n1" == "x" + ['\n'] + "1";
    }
    ParseLineRejectsLeadingLetter("x");
    ParseLineRejectsLeadingLetter("x\n1");
    ParseLineOfNumber(1);
    assert Text.NatToDigits(1) == "1";
  }

  // ----- order -----

  /** `Integer#<=>` */
  function CompareInt(a: int, b: int): (r: int)
    ensures r == -1 <==> a < b
    ensures r == 0 <==> a == b
    ensures r == 1 <==> a > b
  {
    if a < b then -1 else if a > b then 1 else 0
  }

  /** (major, minor, patch) of `a` precedes that of `b` in lexicographic order. */
  predicate CoreLess(a: CoreVersion, b: CoreVersion)
  {
    a.major < b.major || (a.major == b.major && (a.minor < b.minor || (a.minor == b.minor && a.patch < b.patch)))
  }

  /** `CoreVersion#<=>`: the (major, minor, patch) triples compared lexicographically. */
  function CompareCore(a: CoreVersion, b: CoreVersion): (r: int)
    ensures r == 0 <==> a == b
    ensures r == -1 <==> CoreLess(a, b)
    ensures r == 1 <==> CoreLess(b, a)
  {
    if a.major != b.major then CompareInt(a.major, b.major)
    else if a.minor != b.minor then CompareInt(a.minor, b.minor)
    else CompareInt(a.patch, b.patch)
  }

  /**
   * `MetadataVersion#compare_single_identifier`: numerically when both
   * identifiers are canonical integers (`to_i.to_s` gives them back),
   * otherwise by string order.
   */
  function CompareSingleIdentifier(id1: string, id2: string): (r: int)
    ensures -1 <= r <= 1
    ensures r == 0 <==> id1 == id2
    ensures Text.IsCanonicalInteger(id1) && Text.IsCanonicalInteger(id2) ==>
      (r == -1 <==> Text.ToI(id1) < Text.ToI(id2)) && (r == 1 <==> Text.ToI(id1) > Text.ToI(id2))
    ensures !(Text.IsCanonicalInteger(id1) && Text.IsCanonicalInteger(id2)) ==> r == Text.Compare(id1, id2)
  {
    Text.CompareZeroIffEqual(id1, id2);
    if Text.IsCanonicalInteger(id1) && Text.IsCanonicalInteger(id2) then CompareInt(Text.ToI(id1), Text.ToI(id2))
    else Text.Compare(id1, id2)
  }

  /** The position of the first pair of identifiers that differ, or the shorter length when one list is a prefix of the other. */
  function FirstDifference(a: seq<string>, b: seq<string>): (k: nat)
    ensures k <= |a| && k <= |b| && a[..k] == b[..k]
    ensures k < |a| && k < |b| ==> a[k] != b[k]
  {
    if |a| == 0 || |b| == 0 || a[0] != b[0] then 0
    else
      var k := FirstDifference(a[1..], b[1..]);
      assert a[..k + 1] == [a[0]] + a[1..][..k] && b[..k + 1] == [b[0]] + b[1..][..k];
      k + 1
  }

  /**
   * `MetadataVersion#compare_identifiers`: the first pair that differs
   * decides; when one list is a prefix of the other the shorter is smaller.
   */
  function CompareIdentifiers(a: seq<string>, b: seq<string>): (r: int)
    ensures -1 <= r <= 1
    ensures var k := FirstDifference(a, b);
      && (k < |a| && k < |b| ==> r == CompareSingleIdentifier(a[k], b[k]))
      && (k == |a| || k == |b| ==> r == CompareInt(|a|, |b|))
  {
    if |a| == 0 || |b| == 0 then CompareInt(|a|, |b|)
    else
      var c := CompareSingleIdentifier(a[0], b[0]);
      if c != 0 then c else CompareIdentifiers(a[1..], b[1..])
  }

  /** `MetadataVersion#<=>`: an empty list is below every non-empty one. */
  function CompareMetadata(a: seq<string>, b: seq<string>): (r: int)
    ensures -1 <= r <= 1
    ensures a == [] && b != [] ==> r == -1
    ensures a != [] && b == [] ==> r == 1
    ensures a == [] && b == [] ==> r == 0
    ensures a != [] && b != [] ==> r == CompareIdentifiers(a, b)
  {
    if a == [] && b == [] then 0
    else if a == [] then -1
    else if b == [] then 1
    else CompareIdentifiers(a, b)
  }

  /** `Version#<=>`: the core decides; on a tie, the pre-release. Build metadata is never consulted. */
  function CompareVersion(v: Version, w: Version): (r: int)
    ensures -1 <= r <= 1
    ensures v.core != w.core ==> r == CompareCore(v.core, w.core)
    ensures v.core == w.core ==> r == CompareMetadata(v.prerelease, w.prerelease)
  {
    var c := CompareCore(v.core, w.core);
    if c != 0 then c else CompareMetadata(v.prerelease, w.prerelease)
  }

  /** `Version#==`: the comparison is 0. */
  predicate VersionEquals(v: Version, w: Version)
  {
    CompareVersion(v, w) == 0
  }

  lemma CompareSingleIdentifierAntisymmetric(id1: string, id2: string)
    ensures CompareSingleIdentifier(id1, id2) == -CompareSingleIdentifier(id2, id1)
  {
    Text.CompareAntisymmetric(id1, id2);
  }

  lemma {:induction false} CompareIdentifiersAntisymmetric(a: seq<string>, b: seq<string>)
    ensures CompareIdentifiers(a, b) == -CompareIdentifiers(b, a)
  {
    if |a| > 0 && |b| > 0 {
      CompareSingleIdentifierAntisymmetric(a[0], b[0]);
      CompareIdentifiersAntisymmetric(a[1..], b[1..]);
    }
  }

  lemma {:induction false} CompareIdentifiersZero(a: seq<string>, b: seq<string>)
    ensures CompareIdentifiers(a, b) == 0 <==> a == b
  {
    if |a| > 0 && |b| > 0 {
      CompareIdentifiersZero(a[1..], b[1..]);
      if a[0] == b[0] && a[1..] == b[1..] {
        assert a == [a[0]] + a[1..] && b == [b[0]] + b[1..];
      }
    }
  }

  /** Swapping the operands negates the comparison. */
  lemma CompareVersionAntisymmetric(v: Version, w: Version)
    ensures CompareVersion(v, w) == -CompareVersion(w, v)
  {
    CompareIdentifiersAntisymmetric(v.prerelease, w.prerelease);
  }

  /** Two versions are equal exactly when their cores and pre-releases are; build metadata is ignored. */
  lemma VersionEqualsIff(v: Version, w: Version)
    ensures VersionEquals(v, w) <==> v.core == w.core && v.prerelease == w.prerelease
  {
    CompareIdentifiersZero(v.prerelease, w.prerelease);
  }

  /** A version without pre-release ranks below the same core with one. */
  lemma NoPrereleaseIsLower(core: CoreVersion, prerelease: seq<string>, build1: seq<string>, build2: seq<string>)
    requires prerelease != []
    ensures CompareVersion(Version(core, [], build1), Version(core, prerelease, build2)) == -1
  {
  }

  /**
   * Mixing numeric and string order makes the pre-release order cyclic:
   * 1.0.0-2 < 1.0.0-10 (numbers), 1.0.0-10 < 1.0.0-1a and 1.0.0-1a < 1.0.0-2 (strings).
   */
  lemma PrereleaseOrderNotTransitive()
    ensures var core := CoreVersion(1, 0, 0);
      && CompareVersion(Version(core, ["2"], []), Version(core, ["10"], [])) == -1
      && CompareVersion(Version(core, ["10"], []), Version(core, ["1a"], [])) == -1
      && CompareVersion(Version(core, ["1a"], []), Version(core, ["2"], [])) == -1
  {
    assert Text.IsCanonicalInteger("2") by {
      assert Text.DigitPrefix("2") == "2";
      assert Text.DigitsValue("2") == 2 by { assert "2"[..0] == ""; }
    }
    assert Text.IsCanonicalInteger("10") by {
      assert Text.DigitPrefix("10") == "10";
      assert Text.DigitsValue("10") == 10 by { assert "10"[..1] == "1"; assert "1"[..0] == ""; }
      assert Text.NatToDigits(10) == "10";
    }
    assert !Text.IsCanonicalInteger("1a") by {
      assert Text.IntToString(Text.ToI("1a"))[0] != 'a';
      assert |Text.IntToString(1)| == 1;
    }
    assert Text.ToI("10") == 10 && Text.ToI("2") == 2;
  }
}
