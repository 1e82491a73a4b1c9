/**
 * The eight operator matchers. Each has a string, a number, a boolean and
 * a version variant; an operator that makes no sense for a kind of value
 * is constantly false for it.
 */
module OperatorMatchers {
  import Text
  import opened TargetOperators
  import opened Versions

  /** One matcher object per operator. */
  datatype OperatorMatcher =
    | InMatcher
    | ContainsMatcher
    | StartsWithMatcher
    | EndsWithMatcher
    | GreaterThanMatcher
    | GreaterThanOrEqualToMatcher
    | LessThanMatcher
    | LessThanOrEqualToMatcher

  /** `OperatorMatcherFactory#get`: the matcher registered for the operator (every operator has one). */
  function GetOperatorMatcher(operator: TargetOperator): OperatorMatcher
  {
    match operator
    case IN => InMatcher
    case CONTAINS => ContainsMatcher
    case STARTS_WITH => StartsWithMatcher
    case ENDS_WITH => EndsWithMatcher
    case GT => GreaterThanMatcher
    case GTE => GreaterThanOrEqualToMatcher
    case LT => LessThanMatcher
    case LTE => LessThanOrEqualToMatcher
  }

  /** Distinct operators get distinct matchers, and every matcher serves some operator. */
  lemma OperatorMatcherFactoryIsBijective(a: TargetOperator, b: TargetOperator, m: OperatorMatcher)
    ensures GetOperatorMatcher(a) == GetOperatorMatcher(b) ==> a == b
    ensures exists op :: GetOperatorMatcher(op) == m
  {
    match m
    case InMatcher => assert GetOperatorMatcher(IN) == m;
    case ContainsMatcher => assert GetOperatorMatcher(CONTAINS) == m;
    case StartsWithMatcher => assert GetOperatorMatcher(STARTS_WITH) == m;
    case EndsWithMatcher => assert GetOperatorMatcher(ENDS_WITH) == m;
    case GreaterThanMatcher => assert GetOperatorMatcher(GT) == m;
    case GreaterThanOrEqualToMatcher => assert GetOperatorMatcher(GTE) == m;
    case LessThanMatcher => assert GetOperatorMatcher(LT) == m;
    case LessThanOrEqualToMatcher => assert GetOperatorMatcher(LTE) == m;
  }

  /** `string_matches`: equality, substring, prefix, suffix, and `String#<=>` order. */
  function StringMatches(m: OperatorMatcher, value: string, matchValue: string): bool
  {
    match m
    case InMatcher => value == matchValue
    case ContainsMatcher => Text.Includes(value, matchValue)
    case StartsWithMatcher => Text.StartsWith(value, matchValue)
    case EndsWithMatcher => Text.EndsWith(value, matchValue)
    case GreaterThanMatcher => Text.Compare(value, matchValue) > 0
    case GreaterThanOrEqualToMatcher => Text.Compare(value, matchValue) >= 0
    case LessThanMatcher => Text.Compare(value, matchValue) < 0
    case LessThanOrEqualToMatcher => Text.Compare(value, matchValue) <= 0
  }

  /** `number_matches`: equality and numeric order; the string operators are false. */
  function NumberMatches(m: OperatorMatcher, value: int, matchValue: int): bool
  {
    match m
    case InMatcher => value == matchValue
    case ContainsMatcher => false
    case StartsWithMatcher => false
    case EndsWithMatcher => false
    case GreaterThanMatcher => value > matchValue
    case GreaterThanOrEqualToMatcher => value >= matchValue
    case LessThanMatcher => value < matchValue
    case LessThanOrEqualToMatcher => value <= matchValue
  }

  /** `boolean_matches`: equality only. */
  function BooleanMatches(m: OperatorMatcher, value: bool, matchValue: bool): bool
  {
    match m
    case InMatcher => value == matchValue
    case _ => false
  }

  /** `version_matches`: `Version#==` and `Version#<=>` order; the string operators are false. */
  function VersionMatches(m: OperatorMatcher, value: Version, matchValue: Version): bool
  {
    match m
    case InMatcher => VersionEquals(value, matchValue)
    case ContainsMatcher => false
    case StartsWithMatcher => false
    case EndsWithMatcher => false
    case GreaterThanMatcher => CompareVersion(value, matchValue) > 0
    case GreaterThanOrEqualToMatcher => CompareVersion(value, matchValue) >= 0
    case LessThanMatcher => CompareVersion(value, matchValue) < 0
    case LessThanOrEqualToMatcher => CompareVersion(value, matchValue) <= 0
  }

  /**
   * On strings: `>=` is `>` or IN, `<=` is `<` or IN, `<` is `>` with the
   * operands swapped, and exactly one of `<`, IN, `>` holds.
   */
  lemma StringOrderLaws(a: string, b: string)
    ensures StringMatches(GreaterThanOrEqualToMatcher, a, b) == (StringMatches(GreaterThanMatcher, a, b) || StringMatches(InMatcher, a, b))
    ensures StringMatches(LessThanOrEqualToMatcher, a, b) == (StringMatches(LessThanMatcher, a, b) || StringMatches(InMatcher, a, b))
    ensures StringMatches(LessThanMatcher, a, b) == StringMatches(GreaterThanMatcher, b, a)
    ensures StringMatches(LessThanMatcher, a, b) || StringMatches(InMatcher, a, b) || StringMatches(GreaterThanMatcher, a, b)
    ensures !(StringMatches(LessThanMatcher, a, b) && StringMatches(GreaterThanMatcher, a, b))
  {
    Text.CompareZeroIffEqual(a, b);
    Text.CompareAntisymmetric(a, b);
  }

  /** Prefixes and suffixes are substrings. */
  lemma StringAffixesAreContained(a: string, b: string)
    ensures StringMatches(StartsWithMatcher, a, b) ==> StringMatches(ContainsMatcher, a, b)
    ensures StringMatches(EndsWithMatcher, a, b) ==> StringMatches(ContainsMatcher, a, b)
  {
    if Text.StartsWith(a, b) {
      Text.StartsWithImpliesIncludes(a, b);
    }
    if Text.EndsWith(a, b) {
      Text.EndsWithImpliesIncludes(a, b);
    }
  }

  /** `'a' > 'A'`, `'aa' > 'a'` and `'2023-01-16' > '2023-01-15'`. */
  lemma StringOrderExamples()
    ensures StringMatches(GreaterThanMatcher, "a", "A")
    ensures StringMatches(GreaterThanMatcher, "aa", "a")
    ensures StringMatches(GreaterThanMatcher, "2023-01-16", "2023-01-15")
  {
    assert Text.Compare("aa", "a") == Text.Compare("a", "") by { assert "aa"[1..] == "a" && "a"[1..] == ""; }
    var s, t := "2023-01-16", "2023-01-15";
    assert Text.Compare(s, t) == Text.Compare(s[9..], t[9..]) by {
      assert s[1..] == "023-01-16" && t[1..] == "023-01-15";
      assert s[2..] == "23-01-16" && t[2..] == "23-01-15";
      assert s[3..] == "3-01-16" && t[3..] == "3-01-15";
      assert s[4..] == "-01-16" && t[4..] == "-01-15";
      assert s[5..] == "01-16" && t[5..] == "01-15";
      assert s[6..] == "1-16" && t[6..] == "1-15";
      assert s[7..] == "-16" && t[7..] == "-15";
      assert s[8..] == "16" && t[8..] == "15";
    }
  }

  /** On numbers: the same order laws; containment operators never match. */
  lemma NumberOrderLaws(m: OperatorMatcher, a: int, b: int)
    ensures NumberMatches(GreaterThanOrEqualToMatcher, a, b) == (NumberMatches(GreaterThanMatcher, a, b) || NumberMatches(InMatcher, a, b))
    ensures NumberMatches(LessThanOrEqualToMatcher, a, b) == (NumberMatches(LessThanMatcher, a, b) || NumberMatches(InMatcher, a, b))
    ensures NumberMatches(LessThanMatcher, a, b) == NumberMatches(GreaterThanMatcher, b, a)
    ensures m in {ContainsMatcher, StartsWithMatcher, EndsWithMatcher} ==> !NumberMatches(m, a, b)
  {
  }

  /** On booleans only IN can match, and it is equality. */
  lemma BooleanOnlyEquality(m: OperatorMatcher, a: bool, b: bool)
    ensures BooleanMatches(m, a, b) <==> m == InMatcher && a == b
  {
  }

  /**
   * On versions: the same order laws; IN holds exactly when core and
   * pre-release agree (build metadata is ignored); containment operators
   * never match.
   */
  lemma VersionOrderLaws(m: OperatorMatcher, a: Version, b: Version)
    ensures VersionMatches(GreaterThanOrEqualToMatcher, a, b) == (VersionMatches(GreaterThanMatcher, a, b) || VersionMatches(InMatcher, a, b))
    ensures VersionMatches(LessThanOrEqualToMatcher, a, b) == (VersionMatches(LessThanMatcher, a, b) || VersionMatches(InMatcher, a, b))
    ensures VersionMatches(LessThanMatcher, a, b) == VersionMatches(GreaterThanMatcher, b, a)
    ensures VersionMatches(InMatcher, a, b) <==> a.core == b.core && a.prerelease == b.prerelease
    ensures m in {ContainsMatcher, StartsWithMatcher, EndsWithMatcher} ==> !VersionMatches(m, a, b)
  {
    CompareVersionAntisymmetric(a, b);
    VersionEqualsIff(a, b);
  }
}

/**
 * The value matchers: both sides are coerced to the matcher's kind by the
 * same rule, and the operator is applied only when both coercions succeed.
 */
module ValueMatchers {
  import opened Wrappers
  import opened RubyValues
  import Text
  import opened ValueTypes
  import opened Versions
  import opened OperatorMatchers

  datatype ValueMatcher = StringMatcher | NumberMatcher | BooleanMatcher | VersionMatcher

  /** `StringMatcher#as_string`: strings as they are, numbers as their decimal text. */
  function AsString(v: Value): (r: Option<string>)
  {
    match v
    case Str(s) => Some(s)
    case Num(n) => Some(Text.IntToString(n))
    case _ => None
  }

  /** `NumberMatcher#as_number`: numbers as they are, strings through `Float(s, exception: false)`. */
  function AsNumber(v: Value): (r: Option<int>)
  {
    match v
    case Num(n) => Some(n)
    case Str(s) => Text.ParseNumber(s)
    case _ => None
  }

  /** `BooleanMatcher#as_boolean`: only `true` and `false`. */
  function AsBoolean(v: Value): (r: Option<bool>)
  {
    if v.Bool? then Some(v.b) else None
  }

  /** Whether the matcher's coercion accepts the value. */
  predicate Coerces(vm: ValueMatcher, v: Value)
  {
    match vm
    case StringMatcher => AsString(v).Some?
    case NumberMatcher => AsNumber(v).Some?
    case BooleanMatcher => AsBoolean(v).Some?
    case VersionMatcher => ParseOrNil(v).Some?
  }

  /** `ValueMatcher#matches`: coerce both sides, false if either fails, else the operator's verdict. */
  function ValueMatches(vm: ValueMatcher, om: OperatorMatcher, value: Value, matchValue: Value): (r: bool)
    ensures r ==> Coerces(vm, value) && Coerces(vm, matchValue)
  {
    match vm
    case StringMatcher =>
      var a, b := AsString(value), AsString(matchValue);
      a.Some? && b.Some? && StringMatches(om, a.value, b.value)
    case NumberMatcher =>
      var a, b := AsNumber(value), AsNumber(matchValue);
      a.Some? && b.Some? && NumberMatches(om, a.value, b.value)
    case BooleanMatcher =>
      var a, b := AsBoolean(value), AsBoolean(matchValue);
      a.Some? && b.Some? && BooleanMatches(om, a.value, b.value)
    case VersionMatcher =>
      var a, b := ParseOrNil(value), ParseOrNil(matchValue);
      a.Some? && b.Some? && VersionMatches(om, a.value, b.value)
  }

  /** `ValueMatcherFactory#get`: JSON values are matched as strings; NULL and UNKNOWN raise. */
  function GetValueMatcher(t: ValueType): (r: Result<ValueMatcher>)
    ensures r.Failure? <==> t == NULL || t == UNKNOWN
  {
    match t
    case STRING => Ok(StringMatcher)
    case NUMBER => Ok(NumberMatcher)
    case BOOLEAN => Ok(BooleanMatcher)
    case VERSION => Ok(VersionMatcher)
    case JSON => Ok(StringMatcher)
    case _ => Failure("Unsupported ValueType [" + Name(t) + "]")
  }

  /** String coercion: the text of a number equals the number's string; `true` is not a string. */
  lemma StringCoercionExamples(n: int)
    ensures ValueMatches(StringMatcher, InMatcher, Str(Text.IntToString(n)), Num(n))
    ensures !ValueMatches(StringMatcher, InMatcher, Bool(true), Bool(true))
  {
  }

  /** Number coercion: numeric strings match their number; booleans and strings with letters never match. */
  lemma NumberCoercionExamples(n: int, b: bool, s: string, i: int)
    requires 0 <= i < |s| && ('a' <= s[i] <= 'z' || 'A' <= s[i] <= 'Z')
    ensures ValueMatches(NumberMatcher, InMatcher, Str(Text.IntToString(n)), Num(n))
    ensures forall om :: !ValueMatches(NumberMatcher, om, Bool(b), Num(n))
    ensures forall om :: !ValueMatches(NumberMatcher, om, Str(s), Num(n))
  {
    Text.ParseNumberOfIntToString(n);
    Text.ParseNumberRejectsLetter(s, i);
  }

  /** Boolean coercion accepts only booleans: 1, 0 and "true" fail. */
  lemma BooleanCoercionExamples(v: Value)
    ensures Coerces(BooleanMatcher, v) <==> v.Bool?
  {
  }

  /** Version coercion fails on anything but a string, and `'1'` IN `'1.0'` holds. */
  lemma VersionCoercionExamples(v: Value)
    ensures !v.Str? ==> !Coerces(VersionMatcher, v)
    ensures ValueMatches(VersionMatcher, InMatcher, Str("1"), Str("1.0"))
  {
    ParseLineOfNumber(1);
    ParseLineOfTwoNumbers(1, 0);
    assert Text.NatToDigits(1) == "1" && Text.NatToDigits(0) == "0";
    assert "1" + "." + "0" == "1.0";
    VersionEqualsIff(Version(CoreVersion(1, 0, 0), [], []), Version(CoreVersion(1, 0, 0), [], []));
  }
}

/**
 * `ValueOperatorMatcher`: a user value against a condition's candidate
 * values; an array value matches when one of its elements does, and the
 * match type's polarity is applied last.
 */
module ValueOperatorMatchers {
  import opened Wrappers
  import opened RubyValues
  import opened Seqs
  import opened TargetMatchTypes
  import opened Model
  import opened OperatorMatchers
  import opened ValueMatchers

  /** `single_matches`: some candidate matches the value. */
  predicate SingleMatches(value: Value, candidates: seq<Value>, vm: ValueMatcher, om: OperatorMatcher)
  {
    Any(candidates, (c: Value) => ValueMatches(vm, om, value, c))
  }

  /** `internal_matches`: an array matches when some element matches as a single value. */
  predicate InternalMatches(value: Value, candidates: seq<Value>, vm: ValueMatcher, om: OperatorMatcher)
  {
    if value.Arr? then Any(value.items, (v: Value) => SingleMatches(v, candidates, vm, om))
    else SingleMatches(value, candidates, vm, om)
  }

  /** `ValueOperatorMatcher#matches`: fails when the value type has no matcher. */
  function MatchesValue(value: Value, m: TargetMatch): (r: Result<bool>)
    ensures r.Failure? <==> GetValueMatcher(m.valueType).Failure?
    ensures r.Ok? ==> r.value == Matches(m.matchType,
      InternalMatches(value, m.values, GetValueMatcher(m.valueType).value, GetOperatorMatcher(m.operator)))
  {
    var vm := GetValueMatcher(m.valueType);
    if vm.Failure? then Failure(vm.error)
    else
      var om := GetOperatorMatcher(m.operator);
      Ok(Matches(m.matchType, InternalMatches(value, m.values, vm.value, om)))
  }

  /**
   * A scalar matches exactly when some candidate matches it, an array
   * exactly when some element and some candidate match; NOT_MATCH negates.
   */
  lemma MatchesValueMeaning(value: Value, m: TargetMatch)
    requires GetValueMatcher(m.valueType).Ok?
    ensures var vm, om := GetValueMatcher(m.valueType).value, GetOperatorMatcher(m.operator);
      var raw := if value.Arr?
        then exists i, j :: 0 <= i < |value.items| && 0 <= j < |m.values| && ValueMatches(vm, om, value.items[i], m.values[j])
        else exists j :: 0 <= j < |m.values| && ValueMatches(vm, om, value, m.values[j]);
      MatchesValue(value, m) == Ok(if m.matchType == MATCH then raw else !raw)
  {
  }

  /** No candidates, or an empty array value: MATCH is false and NOT_MATCH is true. */
  lemma MatchesValueOfNothing(value: Value, m: TargetMatch)
    requires GetValueMatcher(m.valueType).Ok?
    requires m.values == [] || value == Arr([])
    ensures MatchesValue(value, m) == Ok(m.matchType == NOT_MATCH)
  {
  }

  /** NOT_MATCH gives exactly the negation of MATCH on the same value and candidates. */
  lemma MatchesValuePolarity(value: Value, m: TargetMatch)
    requires GetValueMatcher(m.valueType).Ok?
    ensures MatchesValue(value, m.(matchType := NOT_MATCH)).value == !MatchesValue(value, m.(matchType := MATCH)).value
  {
  }

  /** Only the set of candidates and of array elements matters, not their order or repetition. */
  lemma MatchesValueIgnoresOrder(value1: Value, value2: Value, m: TargetMatch, candidates: seq<Value>)
    requires forall c :: c in m.values <==> c in candidates
    requires value1.Arr? <==> value2.Arr?
    requires value1.Arr? ==> forall v :: v in value1.items <==> v in value2.items
    requires !value1.Arr? ==> value1 == value2
    ensures MatchesValue(value1, m) == MatchesValue(value2, m.(values := candidates))
  {
    var r1, r2 := MatchesValue(value1, m), MatchesValue(value2, m.(values := candidates));
    if r1.Ok? {
      var vm, om := GetValueMatcher(m.valueType).value, GetOperatorMatcher(m.operator);
      forall v
        ensures SingleMatches(v, m.values, vm, om) == SingleMatches(v, candidates, vm, om)
      {
        if SingleMatches(v, m.values, vm, om) {
          var j :| 0 <= j < |m.values| && ValueMatches(vm, om, v, m.values[j]);
          assert m.values[j] in candidates;
        }
        if SingleMatches(v, candidates, vm, om) {
          var j :| 0 <= j < |candidates| && ValueMatches(vm, om, v, candidates[j]);
          assert candidates[j] in m.values;
        }
      }
      if value1.Arr? {
        if InternalMatches(value1, m.values, vm, om) {
          var i :| 0 <= i < |value1.items| && SingleMatches(value1.items[i], m.values, vm, om);
          assert value1.items[i] in value2.items;
        }
        if InternalMatches(value2, candidates, vm, om) {
          var i :| 0 <= i < |value2.items| && SingleMatches(value2.items[i], candidates, vm, om);
          assert value2.items[i] in value1.items;
        }
      }
    }
  }
}
