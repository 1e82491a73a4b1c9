/**
 * The SDK's enumerations. Each one has a `Name` (the `name` attribute), a
 * lookup table from registered names, written here as a `match`,
 * and `FromOrNil` (the lookup after `upcase`, so it is case-insensitive).
 * Every `else raise "unsupported ..."` branch that the source has
 * for these types is unreachable here because the datatypes are closed.
 */
module ValueTypes {
  import opened Wrappers
  import opened Text
  import opened RubyValues

  datatype ValueType = NULL | UNKNOWN | STRING | NUMBER | BOOLEAN | VERSION | JSON

  function Name(t: ValueType): string
  {
    match t
    case NULL => "NULL"
    case UNKNOWN => "UNKNOWN"
    case STRING => "STRING"
    case NUMBER => "NUMBER"
    case BOOLEAN => "BOOLEAN"
    case VERSION => "VERSION"
    case JSON => "JSON"
  }

  /** The lookup table (`@types`): registered name to type. */
  function Table(key: string): Option<ValueType>
  {
    match key
    case "NULL" => Some(NULL)
    case "UNKNOWN" => Some(UNKNOWN)
    case "STRING" => Some(STRING)
    case "NUMBER" => Some(NUMBER)
    case "BOOLEAN" => Some(BOOLEAN)
    case "VERSION" => Some(VERSION)
    case "JSON" => Some(JSON)
    case _ => None
  }

  /** `from_or_nil`: the type registered under the upper-cased name. */
  function FromOrNil(name: string): Option<ValueType>
  {
    Table(Upcase(name))
  }

  /** The lookup ignores letter case. */
  lemma FromOrNilIgnoresCase(name: string)
    ensures FromOrNil(Upcase(name)) == FromOrNil(name)
  {
    UpcaseIdempotent(name);
  }

  /** The table holds `t` under its registered name and under no other key. */
  lemma TableIff(key: string, t: ValueType)
    ensures Table(key) == Some(t) <==> key == Name(t)
  {
  }

  /** The lookup finds `t` exactly when the upper-cased name is `t`'s registered name. */
  lemma FromOrNilIff(name: string, t: ValueType)
    ensures FromOrNil(name) == Some(t) <==> Upcase(name) == Name(t)
  {
    TableIff(Upcase(name), t);
  }

  /** `ValueType.string?` */
  predicate IsString(v: Value) { v.Str? }

  /** `ValueType.empty_string?` */
  predicate IsEmptyString(v: Value) { v.Str? && |v.s| == 0 }

  /** `ValueType.not_empty_string?` */
  predicate IsNotEmptyString(v: Value) { v.Str? && |v.s| > 0 }

  /** `ValueType.number?` */
  predicate IsNumber(v: Value) { v.Num? }

  /** `ValueType.boolean?` */
  predicate IsBoolean(v: Value) { v.Bool? }

  /** Every string is either empty or not, never both; nil is neither. */
  lemma StringKinds(v: Value)
    ensures IsString(v) <==> (IsEmptyString(v) || IsNotEmptyString(v))
    ensures !(IsEmptyString(v) && IsNotEmptyString(v))
    ensures v.Null? ==> !IsString(v) && !IsNumber(v) && !IsBoolean(v)
  {
  }
}

module TargetKeyTypes {
  import opened Wrappers
  import opened Text

  datatype TargetKeyType = USER_ID | USER_PROPERTY | HACKLE_PROPERTY | SEGMENT | AB_TEST | FEATURE_FLAG

  function Name(t: TargetKeyType): string
  {
    match t
    case USER_ID => "USER_ID"
    case USER_PROPERTY => "USER_PROPERTY"
    case HACKLE_PROPERTY => "HACKLE_PROPERTY"
    case SEGMENT => "SEGMENT"
    case AB_TEST => "AB_TEST"
    case FEATURE_FLAG => "FEATURE_FLAG"
  }

  /** The lookup table (`@types`): registered name to type. */
  function Table(key: string): Option<TargetKeyType>
  {
    match key
    case "USER_ID" => Some(USER_ID)
    case "USER_PROPERTY" => Some(USER_PROPERTY)
    case "HACKLE_PROPERTY" => Some(HACKLE_PROPERTY)
    case "SEGMENT" => Some(SEGMENT)
    case "AB_TEST" => Some(AB_TEST)
    case "FEATURE_FLAG" => Some(FEATURE_FLAG)
    case _ => None
  }

  /** `from_or_nil`: the type registered under the upper-cased name. */
  function FromOrNil(name: string): Option<TargetKeyType>
  {
    Table(Upcase(name))
  }

  /** The lookup ignores letter case. */
  lemma FromOrNilIgnoresCase(name: string)
    ensures FromOrNil(Upcase(name)) == FromOrNil(name)
  {
    UpcaseIdempotent(name);
  }

  /** The table holds `t` under its registered name and under no other key. */
  lemma TableIff(key: string, t: TargetKeyType)
    ensures Table(key) == Some(t) <==> key == Name(t)
  {
  }

  /** The lookup finds `t` exactly when the upper-cased name is `t`'s registered name. */
  lemma FromOrNilIff(name: string, t: TargetKeyType)
    ensures FromOrNil(name) == Some(t) <==> Upcase(name) == Name(t)
  {
    TableIff(Upcase(name), t);
  }
}

module TargetMatchTypes {
  import opened Wrappers
  import opened Text

  datatype TargetMatchType = MATCH | NOT_MATCH

  /** The `name` attribute; note the space in `NOT MATCH`. */
  function Name(t: TargetMatchType): string
  {
    match t
    case MATCH => "MATCH"
    case NOT_MATCH => "NOT MATCH"
  }

  /** The key under which the lookup table stores each type. */
  function WireName(t: TargetMatchType): string
  {
    match t
    case MATCH => "MATCH"
    case NOT_MATCH => "NOT_MATCH"
  }

  /** The lookup table (`@types`): registered name to type. */
  function Table(key: string): Option<TargetMatchType>
  {
    match key
    case "MATCH" => Some(MATCH)
    case "NOT_MATCH" => Some(NOT_MATCH)
    case _ => None
  }

  /** `from_or_nil`: the type registered under the upper-cased name. */
  function FromOrNil(name: string): Option<TargetMatchType>
  {
    Table(Upcase(name))
  }

  /** The lookup ignores letter case. */
  lemma FromOrNilIgnoresCase(name: string)
    ensures FromOrNil(Upcase(name)) == FromOrNil(name)
  {
    UpcaseIdempotent(name);
  }

  /** The table holds `t` under its registered name and under no other key. */
  lemma TableIff(key: string, t: TargetMatchType)
    ensures Table(key) == Some(t) <==> key == WireName(t)
  {
  }

  /** The lookup finds `t` exactly when the upper-cased name is `t`'s registered name. */
  lemma FromOrNilIff(name: string, t: TargetMatchType)
    ensures FromOrNil(name) == Some(t) <==> Upcase(name) == WireName(t)
  {
    TableIff(Upcase(name), t);
  }

  /** The printed name of NOT_MATCH is not a key of the table, so it does not parse back. */
  lemma NotMatchNameDoesNotParse()
    ensures FromOrNil(Name(NOT_MATCH)) == None
  {
    UpcaseOfUpper("NOT MATCH");
    assert "NOT MATCH"[3] != "NOT_MATCH"[3];
    TableIff("NOT MATCH", MATCH);
    TableIff("NOT MATCH", NOT_MATCH);
  }

  /** `TargetMatchType.matches`: MATCH keeps the result, NOT_MATCH negates it. */
  function Matches(t: TargetMatchType, matches: bool): bool
  {
    match t
    case MATCH => matches
    case NOT_MATCH => !matches
  }

  /** NOT_MATCH is the negation of MATCH, and applying a type twice gives the original result. */
  lemma MatchesPolarity(t: TargetMatchType, b: bool)
    ensures Matches(NOT_MATCH, b) == !Matches(MATCH, b)
    ensures Matches(t, Matches(t, b)) == b
    ensures Matches(t, b) == (b == (t == MATCH))
  {
  }
}

module TargetOperators {
  import opened Wrappers
  import opened Text

  datatype TargetOperator = IN | CONTAINS | STARTS_WITH | ENDS_WITH | GT | GTE | LT | LTE

  function Name(t: TargetOperator): string
  {
    match t
    case IN => "IN"
    case CONTAINS => "CONTAINS"
    case STARTS_WITH => "STARTS_WITH"
    case ENDS_WITH => "ENDS_WITH"
    case GT => "GT"
    case GTE => "GTE"
    case LT => "LT"
    case LTE => "LTE"
  }

  /** The lookup table (`@types`): registered name to type. */
  function Table(key: string): Option<TargetOperator>
  {
    match key
    case "IN" => Some(IN)
    case "CONTAINS" => Some(CONTAINS)
    case "STARTS_WITH" => Some(STARTS_WITH)
    case "ENDS_WITH" => Some(ENDS_WITH)
    case "GT" => Some(GT)
    case "GTE" => Some(GTE)
    case "LT" => Some(LT)
    case "LTE" => Some(LTE)
    case _ => None
  }

  /** `from_or_nil`: the type registered under the upper-cased name. */
  function FromOrNil(name: string): Option<TargetOperator>
  {
    Table(Upcase(name))
  }

  /** The lookup ignores letter case. */
  lemma FromOrNilIgnoresCase(name: string)
    ensures FromOrNil(Upcase(name)) == FromOrNil(name)
  {
    UpcaseIdempotent(name);
  }

  /** The table holds `t` under its registered name and under no other key. */
  lemma TableIff(key: string, t: TargetOperator)
    ensures Table(key) == Some(t) <==> key == Name(t)
  {
  }

  /** The lookup finds `t` exactly when the upper-cased name is `t`'s registered name. */
  lemma FromOrNilIff(name: string, t: TargetOperator)
    ensures FromOrNil(name) == Some(t) <==> Upcase(name) == Name(t)
  {
    TableIff(Upcase(name), t);
  }
}

module ExperimentTypes {
  import opened Wrappers
  import opened Text

  datatype ExperimentType = AB_TEST | FEATURE_FLAG

  function Name(t: ExperimentType): string
  {
    match t
    case AB_TEST => "AB_TEST"
    case FEATURE_FLAG => "FEATURE_FLAG"
  }

  /** The lookup table (`@types`): registered name to type. */
  function Table(key: string): Option<ExperimentType>
  {
    match key
    case "AB_TEST" => Some(AB_TEST)
    case "FEATURE_FLAG" => Some(FEATURE_FLAG)
    case _ => None
  }

  /** `from_or_nil`: the type registered under the upper-cased name. */
  function FromOrNil(name: string): Option<ExperimentType>
  {
    Table(Upcase(name))
  }

  /** The lookup ignores letter case. */
  lemma FromOrNilIgnoresCase(name: string)
    ensures FromOrNil(Upcase(name)) == FromOrNil(name)
  {
    UpcaseIdempotent(name);
  }

  /** The table holds `t` under its registered name and under no other key. */
  lemma TableIff(key: string, t: ExperimentType)
    ensures Table(key) == Some(t) <==> key == Name(t)
  {
  }

  /** The lookup finds `t` exactly when the upper-cased name is `t`'s registered name. */
  lemma FromOrNilIff(name: string, t: ExperimentType)
    ensures FromOrNil(name) == Some(t) <==> Upcase(name) == Name(t)
  {
    TableIff(Upcase(name), t);
  }
}

module ExperimentStatuses {
  import opened Wrappers
  import opened Text

  datatype ExperimentStatus = DRAFT | RUNNING | PAUSED | COMPLETED

  function Name(t: ExperimentStatus): string
  {
    match t
    case DRAFT => "DRAFT"
    case RUNNING => "RUNNING"
    case PAUSED => "PAUSED"
    case COMPLETED => "COMPLETED"
  }

  /** The server's execution status that maps to each status. */
  function WireName(t: ExperimentStatus): string
  {
    match t
    case DRAFT => "READY"
    case RUNNING => "RUNNING"
    case PAUSED => "PAUSED"
    case COMPLETED => "STOPPED"
  }

  /** The lookup table (`@types`): registered name to type. */
  function Table(key: string): Option<ExperimentStatus>
  {
    match key
    case "READY" => Some(DRAFT)
    case "RUNNING" => Some(RUNNING)
    case "PAUSED" => Some(PAUSED)
    case "STOPPED" => Some(COMPLETED)
    case _ => None
  }

  /** `from_or_nil`: the type registered under the upper-cased name. */
  function FromOrNil(name: string): Option<ExperimentStatus>
  {
    Table(Upcase(name))
  }

  /** The lookup ignores letter case. */
  lemma FromOrNilIgnoresCase(name: string)
    ensures FromOrNil(Upcase(name)) == FromOrNil(name)
  {
    UpcaseIdempotent(name);
  }

  /** The table holds `t` under its registered name and under no other key. */
  lemma TableIff(key: string, t: ExperimentStatus)
    ensures Table(key) == Some(t) <==> key == WireName(t)
  {
  }

  /** The lookup finds `t` exactly when the upper-cased name is `t`'s registered name. */
  lemma FromOrNilIff(name: string, t: ExperimentStatus)
    ensures FromOrNil(name) == Some(t) <==> Upcase(name) == WireName(t)
  {
    TableIff(Upcase(name), t);
  }

  /** The name DRAFT is not a server status: it does not parse back. */
  lemma DraftNameDoesNotParse()
    ensures FromOrNil(Name(DRAFT)) == None
  {
    UpcaseOfUpper("DRAFT");
  }

  /** The name COMPLETED is not a server status: it does not parse back. */
  lemma CompletedNameDoesNotParse()
    ensures FromOrNil(Name(COMPLETED)) == None
  {
    assert Upcase("COMPLETED") == "COMPLETED" by { UpcaseOfUpper("COMPLETED"); }
    assert Table("COMPLETED") == None;
  }
}

module ActionTypes {
  import opened Wrappers
  import opened Text

  datatype ActionType = VARIATION | BUCKET

  function Name(t: ActionType): string
  {
    match t
    case VARIATION => "VARIATION"
    case BUCKET => "BUCKET"
  }

  /** The lookup table (`@types`): registered name to type. */
  function Table(key: string): Option<ActionType>
  {
    match key
    case "VARIATION" => Some(VARIATION)
    case "BUCKET" => Some(BUCKET)
    case _ => None
  }

  /** `from_or_nil`: the type registered under the upper-cased name. */
  function FromOrNil(name: string): Option<ActionType>
  {
    Table(Upcase(name))
  }

  /** The lookup ignores letter case. */
  lemma FromOrNilIgnoresCase(name: string)
    ensures FromOrNil(Upcase(name)) == FromOrNil(name)
  {
    UpcaseIdempotent(name);
  }

  /** The table holds `t` under its registered name and under no other key. */
  lemma TableIff(key: string, t: ActionType)
    ensures Table(key) == Some(t) <==> key == Name(t)
  {
  }

  /** The lookup finds `t` exactly when the upper-cased name is `t`'s registered name. */
  lemma FromOrNilIff(name: string, t: ActionType)
    ensures FromOrNil(name) == Some(t) <==> Upcase(name) == Name(t)
  {
    TableIff(Upcase(name), t);
  }
}

module SegmentTypes {
  import opened Wrappers
  import opened Text

  datatype SegmentType = USER_ID | USER_PROPERTY

  function Name(t: SegmentType): string
  {
    match t
    case USER_ID => "USER_ID"
    case USER_PROPERTY => "USER_PROPERTY"
  }

  /** The lookup table (`@types`): registered name to type. */
  function Table(key: string): Option<SegmentType>
  {
    match key
    case "USER_ID" => Some(USER_ID)
    case "USER_PROPERTY" => Some(USER_PROPERTY)
    case _ => None
  }

  /** `from_or_nil`: the type registered under the upper-cased name. */
  function FromOrNil(name: string): Option<SegmentType>
  {
    Table(Upcase(name))
  }

  /** The lookup ignores letter case. */
  lemma FromOrNilIgnoresCase(name: string)
    ensures FromOrNil(Upcase(name)) == FromOrNil(name)
  {
    UpcaseIdempotent(name);
  }

  /** The table holds `t` under its registered name and under no other key. */
  lemma TableIff(key: string, t: SegmentType)
    ensures Table(key) == Some(t) <==> key == Name(t)
  {
  }

  /** The lookup finds `t` exactly when the upper-cased name is `t`'s registered name. */
  lemma FromOrNilIff(name: string, t: SegmentType)
    ensures FromOrNil(name) == Some(t) <==> Upcase(name) == Name(t)
  {
    TableIff(Upcase(name), t);
  }
}

/** The explanation attached to every decision. */
module DecisionReasons {
  datatype DecisionReason =
    | SDK_NOT_READY
    | EXCEPTION
    | INVALID_INPUT
    | EXPERIMENT_NOT_FOUND
    | EXPERIMENT_DRAFT
    | EXPERIMENT_PAUSED
    | EXPERIMENT_COMPLETED
    | OVERRIDDEN
    | TRAFFIC_NOT_ALLOCATED
    | TRAFFIC_ALLOCATED
    | TRAFFIC_ALLOCATED_BY_TARGETING
    | NOT_IN_MUTUAL_EXCLUSION_EXPERIMENT
    | IDENTIFIER_NOT_FOUND
    | VARIATION_DROPPED
    | NOT_IN_EXPERIMENT_TARGET
    | FEATURE_FLAG_NOT_FOUND
    | FEATURE_FLAG_INACTIVE
    | INDIVIDUAL_TARGET_MATCH
    | TARGET_RULE_MATCH
    | DEFAULT_RULE
    | REMOTE_CONFIG_PARAMETER_NOT_FOUND
    | TYPE_MISMATCH
}
