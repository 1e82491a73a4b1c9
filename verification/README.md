# Hackle Ruby SDK decision core, in Dafny

This project models the part of the Hackle Ruby SDK that decides what a
user sees and records what was decided:

- **Workspace** (`workspace.dfy`, `model.dfy`, `enums.dfy`): the
  experiments, feature flags, buckets, containers, segments, event types,
  parameter configurations and remote-config parameters of one workspace
  document. It covers the decoding rules that drop unknown conditions,
  targets, segments and parameters, and the key and id indexes that
  `Workspace.create` builds.
- **Bucketing** (`bucketing.dfy`): the bucketer's slot number, from a
  MurmurHash3 value that is a parameter, and the slot lookup in a bucket.
- **Matching** (`matching.dfy`, `text.dfy`, `integers.dfy`,
  `versions.dfy`, `conditions.dfy`): the operators, the value coercions,
  semantic versions, Ruby's `Integer(s, exception: false)` that reads
  the key of an experiment condition, and the user, segment and
  experiment condition matchers. The target matcher is also here.
- **Builders and users** (`builders.dfy`, `users.dfy`, `values.dfy`): the
  properties and identifiers builders with their limits, the parameter
  config lookup, and the resolution of a `Hackle::User` into a
  `HackleUser`.
- **Evaluation** (`evaluators.dfy`, `flows.dfy`, `resolvers.dfy`,
  `evaluation_spec.dfy`, `evaluation_scans.dfy`, `engine.dfy`):
  - the evaluator context and its request stack;
  - the experiment evaluation flows (the A/B test and feature-flag
    pipelines);
  - the experiment resolver;
  - the remote-config determiner and evaluator;
  - the delegating and contextual evaluators.

  `EvaluationSpec` gives the whole evaluation as mutually recursive
  functions that thread the in-flight requests and the evaluations made
  so far. `EvaluationEngine.DelegatingEvaluator` performs it with methods
  that change an `EvaluatorContext` object in place, and each method is
  proved to agree with the function it implements. `EvaluationScans`
  shows that the rule, audience and condition searches are Ruby's
  `find`, `any?` and `all?`. The specification proves four things:
  - every nested experiment is evaluated at most once per decision;
  - evaluations are only appended;
  - an evaluation answers the request it was made for;
  - neither pipeline falls through to its end.
- **Events** (`events.dfy`, `processor.dfy`):
  - the user event factory;
  - the dispatcher's payload serialisation;
  - the event processor, as a bounded queue, a current batch and the log
    of dispatched batches. Between messages the batch stays below the
    dispatch size, and the dispatched batches followed by the current
    batch are exactly the events consumed, in order.
- **Core and public objects** (`core.dfy`, `remote_config.dfy`,
  `event.dfy`):
  - `HackleCore`'s experiment, feature-flag, remote-config, track and
    close operations;
  - `Hackle::RemoteConfig`;
  - `Hackle::Event` with its builder.

Ruby's `nil`, dynamic values and raised errors appear as `Option`, a
`Value` datatype and a `Result` whose `Failure` carries the error
message. Ruby hashes that the SDK builds are ordered association lists,
because insertion order decides which keys survive the 128-property cap.

## Model

| member | source | states |
|---|---|---|
| Bucketing.Bit31 | lib/hackle/internal/evaluation/bucketer/bucketer.rb:39 | the bit test is zero exactly when the unsigned hash is below 2^31 |
| Bucketing.ToSigned | lib/hackle/internal/evaluation/bucketer/bucketer.rb:39-43 | the result is the signed 32-bit reading of the unsigned hash: in [-2^31, 2^31), equal to it below 2^31, 2^32 less above, congruent modulo 2^32 |
| Bucketing.Hash | lib/hackle/internal/evaluation/bucketer/bucketer.rb:37-44 | the hash is a signed 32-bit value congruent to MurmurHash3's unsigned output |
| Bucketing.FloorMod | lib/hackle/internal/evaluation/bucketer/bucketer.rb:28 | Ruby's `%`: fails exactly on a zero divisor, takes the divisor's sign, and satisfies a == b * floor(a / b) + r |
| Bucketing.CalculateSlotNumber | lib/hackle/internal/evaluation/bucketer/bucketer.rb:26-29 | a zero slot size raises; otherwise the slot number lies in [0, slot size) and is the remainder of the hash's absolute value |
| Bucketing.Bucketing | lib/hackle/internal/evaluation/bucketer/bucketer.rb:17-20 | a zero slot size raises with the slot-number error; otherwise the result is the FIRST slot of the bucket holding the identifier's slot number (no earlier slot holds it), and nil exactly when no slot holds it |
| Bucketing.BucketingOfCoveringBucket | lib/hackle/internal/evaluation/bucketer/bucketer.rb:17-20 | slots covering [0, slot size) allocate every identifier |
| Bucketing.BucketingOfEmptyBucket | lib/hackle/internal/evaluation/bucketer/bucketer.rb:17-20 | a bucket without slots allocates nobody |
| Bucketing.BucketingWithFixedHash | lib/hackle/internal/model/bucket.rb:54-56 | with hash 42 and 10000 slots, [0, 42) misses and [0, 43) holds the identifier: the end of a slot is exclusive |
| Model.GetSlotOrNil | lib/hackle/internal/model/bucket.rb:30-35 | nil exactly when no slot contains the number; otherwise the FIRST slot, in list order, whose half-open range contains it |
| Model.GetSlotOfDisjoint | lib/hackle/internal/model/bucket.rb:30-35 | with non-overlapping slots the lookup returns the one slot that contains the number, whatever the slots' order |
| Model.GetVariationOrNilById | lib/hackle/internal/model/experiment.rb:107-109 | nil exactly when no variation has the id; otherwise the FIRST variation, in list order, with that id |
| Model.GetVariationOrNilByKey | lib/hackle/internal/model/experiment.rb:113-115 | nil exactly when no variation has the key; otherwise the FIRST variation, in list order, with that key |
| Model.WinnerVariationOrNil | lib/hackle/internal/model/experiment.rb:118-120 | nil without a winner id; otherwise the id lookup of the winner id, so the first variation with that id or nil |
| Model.GetGroupOrNil | lib/hackle/internal/model/container.rb:25-30 | nil exactly when no group has the id; otherwise the FIRST group, in list order, with that id |
| Targeting.SupportsTable | lib/hackle/internal/model/targeting.rb:19-43 | IDENTIFIER targets allow only SEGMENT keys, PROPERTY targets every key but USER_ID, SEGMENT targets only USER_ID, USER_PROPERTY and HACKLE_PROPERTY |
| Versions.Cut | lib/hackle/internal/model/version.rb:27 | a build part exists exactly when the string holds a `+`, and, without one, a pre-release part exactly when it holds a `-` |
| Versions.ParseMetadata | lib/hackle/internal/model/version.rb:108-112 | absent metadata has no identifiers; present metadata gives its dot-separated fields, which join back into the text, less the empty fields at the end, as `split('.')` |
| Versions.ParseMetadataOfPrerelease | lib/hackle/internal/model/version.rb:108-112 | a well-formed pre-release keeps every identifier, each non-empty, and they join back into the text |
| Versions.ParseLine | lib/hackle/internal/model/version.rb:27-41 | a line parses exactly when it has one to three canonical core numbers, an optional pre-release of non-empty identifiers and an optional non-blank build |
| Versions.ParseOrNil | lib/hackle/internal/model/version.rb:31-41 | anything but a String gives nil; a String parses exactly when the whole string is a version (corrected anchoring, see Findings) |
| Versions.FirstVersionLineIndex | lib/hackle/internal/model/version.rb:27-34 | the position of the FIRST line that is a version by itself: no earlier line is one, and it is the line count only when no line is one |
| Versions.ParseOrNilAsWritten | lib/hackle/internal/model/version.rb:27-41 | the pattern as written: anything but a String gives nil; a String gives the version of its first line that is a version by itself, and nil exactly when no line is one |
| Versions.AsWrittenAgreesOnOneLine | lib/hackle/internal/model/version.rb:27-41 | on a string without a newline the as-written and corrected parsers agree |
| Versions.AsWrittenAcceptsSecondLine | lib/hackle/internal/model/version.rb:27 | "x\n1" is not a version, yet the pattern as written parses it as 1.0.0 |
| Versions.ParseLineRejectsLeadingLetter | lib/hackle/internal/model/version.rb:27 | no string starting with a letter is a version |
| Versions.ParseLineOfNumber | lib/hackle/internal/model/version.rb:37 | a bare number n parses as n.0.0 with no pre-release and no build |
| Versions.ParseLineOfTwoNumbers | lib/hackle/internal/model/version.rb:37 | "a.b" parses as a.b.0 |
| Versions.CompareInt | lib/hackle/internal/model/version.rb:85 | Integer <=>: -1, 0 or 1 exactly when less, equal or greater |
| Versions.CompareCore | lib/hackle/internal/model/version.rb:82-86 | 0 exactly on equal cores, -1 or 1 exactly when (major, minor, patch) is lexicographically smaller or larger |
| Versions.CompareSingleIdentifier | lib/hackle/internal/model/version.rb:135-143 | two canonical integers (`to_i.to_s` gives them back) compare by value, anything else by `String#<=>`; the result is 0 exactly for the same string |
| Versions.CompareSingleIdentifierAntisymmetric | lib/hackle/internal/model/version.rb:135-143 | swapping two identifiers negates their comparison |
| Versions.FirstDifference | lib/hackle/internal/model/version.rb:127-130 | the first position at which two identifier lists differ: the lists agree before it, and it is the shorter length only when one is a prefix of the other |
| Versions.CompareIdentifiers | lib/hackle/internal/model/version.rb:126-133 | the first differing pair of identifiers decides; when one list is a prefix of the other, the shorter is smaller |
| Versions.CompareIdentifiersAntisymmetric | lib/hackle/internal/model/version.rb:126-133 | swapping two identifier lists negates their comparison |
| Versions.CompareIdentifiersZero | lib/hackle/internal/model/version.rb:126-133 | two identifier lists compare equal exactly when they are equal |
| Versions.CompareMetadata | lib/hackle/internal/model/version.rb:118-124 | two empty pre-releases are equal, an empty one ranks below every non-empty one, and two non-empty ones compare by their identifiers |
| Versions.CompareVersion | lib/hackle/internal/model/version.rb:43-48 | differing cores decide the comparison; on equal cores the pre-releases decide, and build metadata is never consulted |
| Versions.CompareVersionAntisymmetric | lib/hackle/internal/model/version.rb:43-48 | swapping two versions negates their comparison |
| Versions.VersionEqualsIff | lib/hackle/internal/model/version.rb:50-52 | two versions are equal exactly when their cores and pre-releases are; build metadata is ignored |
| Versions.NoPrereleaseIsLower | lib/hackle/internal/model/version.rb:118-121 | a version without pre-release ranks below the same core with one, the reverse of section 11 of Semantic Versioning 2.0.0 |
| Versions.PrereleaseOrderNotTransitive | lib/hackle/internal/model/version.rb:135-143 | mixing numeric and string order makes 1.0.0-2 < 1.0.0-10 < 1.0.0-1a < 1.0.0-2, so the order is not transitive |
| OperatorMatchers.OperatorMatcherFactoryIsBijective | lib/hackle/internal/evaluation/match/operator/operator_matcher_factory.rb:10-29 | every operator has its own matcher, and every matcher serves an operator, so `get` never raises |
| OperatorMatchers.StringOrderLaws | lib/hackle/internal/evaluation/match/operator/operator_matcher.rb:106-184 | on strings GTE is GT or IN, LTE is LT or IN, LT is GT with the operands swapped, and exactly one of LT, IN and GT holds |
| OperatorMatchers.StringAffixesAreContained | lib/hackle/internal/evaluation/match/operator/operator_matcher.rb:46-104 | a string that starts or ends with the match value also contains it |
| OperatorMatchers.StringOrderExamples | lib/hackle/internal/evaluation/match/operator/operator_matcher.rb:106-111 | 'a' > 'A', 'aa' > 'a' and '2023-01-16' > '2023-01-15' under GT |
| OperatorMatchers.NumberOrderLaws | lib/hackle/internal/evaluation/match/operator/operator_matcher.rb:26-184 | on numbers the same order laws hold, and CONTAINS, STARTS_WITH and ENDS_WITH never match |
| OperatorMatchers.BooleanOnlyEquality | lib/hackle/internal/evaluation/match/operator/operator_matcher.rb:26-184 | on booleans only IN can match, and it is equality |
| OperatorMatchers.VersionOrderLaws | lib/hackle/internal/evaluation/match/operator/operator_matcher.rb:26-184 | on versions the same order laws hold, IN is equality of core and pre-release, and the string operators never match |
| ValueMatchers.ValueMatches | lib/hackle/internal/evaluation/match/value/value_matcher.rb:14-95 | a match needs both the user value and the match value to coerce to the matcher's kind |
| ValueMatchers.GetValueMatcher | lib/hackle/internal/evaluation/match/value/value_matcher_factory.rb:10-26 | raises exactly for NULL and UNKNOWN; JSON is matched as a string |
| ValueMatchers.StringCoercionExamples | lib/hackle/internal/evaluation/match/value/value_matcher.rb:30-35 | a number equals its decimal text under the string matcher; booleans are not strings |
| ValueMatchers.NumberCoercionExamples | lib/hackle/internal/evaluation/match/value/value_matcher.rb:54-59 | a numeric string equals its number; booleans and strings holding a letter never match as numbers |
| ValueMatchers.BooleanCoercionExamples | lib/hackle/internal/evaluation/match/value/value_matcher.rb:77-82 | the boolean matcher accepts exactly true and false |
| ValueMatchers.VersionCoercionExamples | lib/hackle/internal/evaluation/match/value/value_matcher.rb:88-94 | anything but a String fails to coerce to a version, and '1' IN '1.0' holds |
| ValueOperatorMatchers.MatchesValue | lib/hackle/internal/evaluation/match/value/value_operator_matcher.rb:19-25 | raises exactly when the value type has no matcher; otherwise the match type applied to the any-of match |
| ValueOperatorMatchers.MatchesValueMeaning | lib/hackle/internal/evaluation/match/value/value_operator_matcher.rb:19-57 | a scalar matches when some candidate matches it, an array when some element matches some candidate; NOT_MATCH negates |
| ValueOperatorMatchers.MatchesValueOfNothing | lib/hackle/internal/evaluation/match/value/value_operator_matcher.rb:46-57 | with no candidates, or an empty array value, MATCH is false and NOT_MATCH true |
| ValueOperatorMatchers.MatchesValuePolarity | lib/hackle/internal/model/target.rb:146-151 | NOT_MATCH is exactly the negation of MATCH on the same value and candidates |
| ValueOperatorMatchers.MatchesValueIgnoresOrder | lib/hackle/internal/evaluation/match/value/value_operator_matcher.rb:46-57 | only which candidates and which array elements occur matters, not their order or repetition |
| ValueTypes.FromOrNilIgnoresCase | lib/hackle/internal/model/value_type.rb:38-40 | the lookup gives the same answer for a name and its upper case |
| ValueTypes.TableIff | lib/hackle/internal/model/value_type.rb:26-34 | the table holds each value under its registered name and under no other key |
| ValueTypes.FromOrNilIff | lib/hackle/internal/model/value_type.rb:26-40 | the lookup finds a value exactly when the upper-cased name is that value's registered name |
| TargetKeyTypes.FromOrNilIgnoresCase | lib/hackle/internal/model/target.rb:100-102 | the lookup gives the same answer for a name and its upper case |
| TargetKeyTypes.TableIff | lib/hackle/internal/model/target.rb:89-96 | the table holds each value under its registered name and under no other key |
| TargetKeyTypes.FromOrNilIff | lib/hackle/internal/model/target.rb:89-102 | the lookup finds a value exactly when the upper-cased name is that value's registered name |
| TargetMatchTypes.FromOrNilIgnoresCase | lib/hackle/internal/model/target.rb:134-136 | the lookup gives the same answer for a name and its upper case |
| TargetMatchTypes.TableIff | lib/hackle/internal/model/target.rb:127-130 | the table holds each value under its registered name and under no other key |
| TargetMatchTypes.FromOrNilIff | lib/hackle/internal/model/target.rb:127-136 | the lookup finds a value exactly when the upper-cased name is that value's registered name |
| TargetOperators.FromOrNilIgnoresCase | lib/hackle/internal/model/target.rb:194-196 | the lookup gives the same answer for a name and its upper case |
| TargetOperators.TableIff | lib/hackle/internal/model/target.rb:181-190 | the table holds each value under its registered name and under no other key |
| TargetOperators.FromOrNilIff | lib/hackle/internal/model/target.rb:181-196 | the lookup finds a value exactly when the upper-cased name is that value's registered name |
| ExperimentTypes.FromOrNilIgnoresCase | lib/hackle/internal/model/experiment.rb:147-149 | the lookup gives the same answer for a name and its upper case |
| ExperimentTypes.TableIff | lib/hackle/internal/model/experiment.rb:140-143 | the table holds each value under its registered name and under no other key |
| ExperimentTypes.FromOrNilIff | lib/hackle/internal/model/experiment.rb:140-149 | the lookup finds a value exactly when the upper-cased name is that value's registered name |
| ExperimentStatuses.FromOrNilIgnoresCase | lib/hackle/internal/model/experiment.rb:185-187 | the lookup gives the same answer for a name and its upper case |
| ExperimentStatuses.TableIff | lib/hackle/internal/model/experiment.rb:176-181 | the table holds each value under its registered name and under no other key |
| ExperimentStatuses.FromOrNilIff | lib/hackle/internal/model/experiment.rb:176-187 | the lookup finds a value exactly when the upper-cased name is that value's registered name |
| ActionTypes.FromOrNilIgnoresCase | lib/hackle/internal/model/action.rb:48-50 | the lookup gives the same answer for a name and its upper case |
| ActionTypes.TableIff | lib/hackle/internal/model/action.rb:41-44 | the table holds each value under its registered name and under no other key |
| ActionTypes.FromOrNilIff | lib/hackle/internal/model/action.rb:41-50 | the lookup finds a value exactly when the upper-cased name is that value's registered name |
| SegmentTypes.FromOrNilIgnoresCase | lib/hackle/internal/model/segment.rb:52-54 | the lookup gives the same answer for a name and its upper case |
| SegmentTypes.TableIff | lib/hackle/internal/model/segment.rb:45-48 | the table holds each value under its registered name and under no other key |
| SegmentTypes.FromOrNilIff | lib/hackle/internal/model/segment.rb:45-54 | the lookup finds a value exactly when the upper-cased name is that value's registered name |
| ValueTypes.StringKinds | lib/hackle/internal/model/value_type.rb:48-72 | a value is a string exactly when it is an empty or a non-empty string, never both; nil is no string, number or boolean |
| TargetMatchTypes.NotMatchNameDoesNotParse | lib/hackle/internal/model/target.rb:124-130 | NOT_MATCH's name 'NOT MATCH' is not a key of its own table |
| TargetMatchTypes.MatchesPolarity | lib/hackle/internal/model/target.rb:146-155 | NOT_MATCH negates MATCH, applying a type twice is the identity, and MATCH keeps the verdict |
| ExperimentStatuses.DraftNameDoesNotParse | lib/hackle/internal/model/experiment.rb:171-181 | DRAFT is registered as 'READY', so its own name does not parse |
| ExperimentStatuses.CompletedNameDoesNotParse | lib/hackle/internal/model/experiment.rb:171-181 | COMPLETED is registered as 'STOPPED', so its own name does not parse |
| Text.Upcase | lib/hackle/internal/model/value_type.rb:39 | upper-casing keeps the length, leaves no lower-case ASCII letter, keeps every other character and lifts each lower-case letter to its capital |
| Text.UpcaseIdempotent | lib/hackle/internal/model/value_type.rb:39 | upper-casing twice is upper-casing once |
| Text.UpcaseOfUpper | lib/hackle/internal/model/value_type.rb:39 | a string without lower-case ASCII letters is its own upper case |
| Text.NatToDigits | lib/hackle/internal/model/version.rb:138 | the digits of n: non-empty, no leading zero, and their value is n |
| Text.IntToString | lib/hackle/internal/model/version.rb:138 | Integer#to_s: non-empty, and it starts with '-' exactly for a negative number |
| Text.DigitPrefix | lib/hackle/internal/model/version.rb:136-137 | the longest digit prefix: a prefix made of digits, followed by a non-digit or the end |
| Text.ToIOfIntToString | lib/hackle/internal/model/version.rb:136-138 | to_i reads back every number to_s prints, so printed numbers are canonical integers |
| Text.ParseNumberOfIntToString | lib/hackle/internal/evaluation/match/value/value_matcher.rb:56 | Float() reads back every number to_s prints |
| Text.ParseNumberRejectsLetter | lib/hackle/internal/evaluation/match/value/value_matcher.rb:56 | a string holding a letter is not a number |
| Text.Compare | lib/hackle/internal/evaluation/match/operator/operator_matcher.rb:109-111 | String#<=> is -1, 0 or 1 |
| Text.CompareZeroIffEqual | lib/hackle/internal/evaluation/match/operator/operator_matcher.rb:109-111 | two strings compare equal exactly when they are equal |
| Text.CompareAntisymmetric | lib/hackle/internal/evaluation/match/operator/operator_matcher.rb:109-111 | swapping two strings negates their comparison |
| Text.CompareTransitive | lib/hackle/internal/evaluation/match/operator/operator_matcher.rb:109-111 | string order is transitive |
| Text.StartsWithImpliesIncludes | lib/hackle/internal/evaluation/match/operator/operator_matcher.rb:46-84 | a prefix is contained in the string |
| Text.EndsWithImpliesIncludes | lib/hackle/internal/evaluation/match/operator/operator_matcher.rb:46-104 | a suffix is contained in the string |
| Text.SplitAll | lib/hackle/internal/model/version.rb:111 | every field between separators, none of which holds the separator, and at least one |
| Text.JoinSplitAll | lib/hackle/internal/model/version.rb:111 | joining the fields with the separator gives back the string |
| Text.DropTrailingEmpty | lib/hackle/internal/model/version.rb:111 | drops exactly the trailing empty fields and keeps a prefix of the fields |
| Text.Split | lib/hackle/internal/model/version.rb:111 | String#split: no field holds the separator |
| Text.SplitNonEmptyFields | lib/hackle/internal/model/version.rb:108-112 | splitting the join of non-empty fields gives back those fields |
| Text.SplitAllJoin | lib/hackle/internal/model/version.rb:111 | splitting the join of fields without the separator gives them back, empty ones included |
| RubyIntegers.BaseAndDigits | lib/hackle/internal/evaluation/match/condition/experiment/experiment_evaluator_matcher.rb:19 | a prefix 0x, 0b, 0o or 0d (either case) picks base 16, 2, 8 or 10 and is removed; any other leading 0 picks base 8; otherwise base 10; the digits are the body or the body less its two-character prefix |
| RubyIntegers.IntegerOrNilOfIntToString | lib/hackle/internal/evaluation/match/condition/experiment/experiment_evaluator_matcher.rb:19 | every integer's decimal text reads back as that integer: experiment ids written by `to_s` are accepted as keys |
| RubyIntegers.IntegerOrNilOfDecimal | lib/hackle/internal/evaluation/match/condition/experiment/experiment_evaluator_matcher.rb:19 | decimal digits without a leading 0 (or the single digit 0) read as their decimal value |
| RubyIntegers.IntegerOrNilOfNegativeDecimal | lib/hackle/internal/evaluation/match/condition/experiment/experiment_evaluator_matcher.rb:19 | a minus sign before such digits reads as the negated value |
| RubyIntegers.IntegerOrNilOfBlank | lib/hackle/internal/evaluation/match/condition/experiment/experiment_evaluator_matcher.rb:19 | the empty string and a string of white space only are not integers |
| RubyIntegers.IntegerOrNilLeadingZeroIsOctal | lib/hackle/internal/evaluation/match/condition/experiment/experiment_evaluator_matcher.rb:19 | a leading 0 means octal: "012" is 10 |
| RubyIntegers.IntegerOrNilLeadingZeroRejectsEight | lib/hackle/internal/evaluation/match/condition/experiment/experiment_evaluator_matcher.rb:19 | a leading 0 means octal, so "08" is not an integer |
| RubyIntegers.IntegerOrNilHexadecimal | lib/hackle/internal/evaluation/match/condition/experiment/experiment_evaluator_matcher.rb:19 | a sign and a 0x prefix are read: "-0x1A" is -26 |
| RubyIntegers.UnsignedOrNilSkipsSeparators | lib/hackle/internal/evaluation/match/condition/experiment/experiment_evaluator_matcher.rb:19 | single underscores between digits are skipped: "1_000" is 1000 |
| RubyIntegers.IntegerOrNilSkipsSpace | lib/hackle/internal/evaluation/match/condition/experiment/experiment_evaluator_matcher.rb:19 | white space around the number is skipped: " 1_000\n" is 1000 |
| RubyIntegers.IntegerOrNilRejectsDoubledSeparator | lib/hackle/internal/evaluation/match/condition/experiment/experiment_evaluator_matcher.rb:19 | two underscores in a row make the string not an integer: "1__000" gives nil |
| OrderedMaps.Keys | lib/hackle/internal/properties/properties_builder.rb:24 | the keys of a hash, one per entry, in insertion order |
| OrderedMaps.Get | lib/hackle/internal/properties/properties_builder.rb:24 | `hash[key]` is nil exactly when the key is absent, and otherwise the value of an entry with that key |
| OrderedMaps.Put | lib/hackle/internal/properties/properties_builder.rb:24 | assigning an existing key keeps the keys in place; a new key is appended at the end |
| OrderedMaps.PutEntries | lib/hackle/internal/properties/properties_builder.rb:24 | after an assignment every entry is the new pair or an old entry |
| OrderedMaps.GetPut | lib/hackle/internal/properties/properties_builder.rb:24 | after an assignment the key maps to the new value, every other key keeps its value, and keys stay distinct |
| OrderedMaps.PutKeepsDistinct | lib/hackle/internal/identifiers/identifier_builder.rb:19 | an assignment never makes two entries share a key |
| OrderedMaps.GetAfterPut | lib/hackle/internal/identifiers/identifier_builder.rb:19 | after an assignment the key maps to the new value and every other key keeps its value |
| OrderedMaps.GetIff | lib/hackle/internal/identifiers/identifier_builder.rb:19 | in a hash with distinct keys, a key maps to a value exactly when that pair is an entry |
| PropertiesBuilders.FilterValidElements | lib/hackle/internal/properties/properties_builder.rb:57 | keeps exactly the valid elements (Strings of at most 1024 characters and numbers), each as many times as it occurs; a single element is kept exactly when it is valid |
| PropertiesBuilders.FilterValidElementsAppend | lib/hackle/internal/properties/properties_builder.rb:57 | filtering a concatenation is the concatenation of the filtered parts, so the kept elements stay in their original order |
| PropertiesBuilders.SanitizeValueOrNil | lib/hackle/internal/properties/properties_builder.rb:55-62 | nil exactly for nil, or for a non-array invalid value under a key without the `$` prefix; an array keeps exactly its valid elements; any other survivor is unchanged |
| PropertiesBuilders.AddPropertyEffect | lib/hackle/internal/properties/properties_builder.rb:15-26 | at the 128-entry cap, for an invalid key or a nil value nothing changes; otherwise the key maps to the sanitised value, other keys are untouched, and the hash stays valid and grows by at most one |
| PropertiesBuilders.PutPropertyValid | lib/hackle/internal/properties/properties_builder.rb:24 | storing a non-nil value under a valid key below the cap keeps keys distinct, valid and at most 128 |
| PropertiesBuilders.AddAllPropertiesValid | lib/hackle/internal/properties/properties_builder.rb:30-38 | adding any sequence of pairs keeps the hash valid and at most 128 entries long |
| PropertiesBuilders.AddAllPropertiesWhenFull | lib/hackle/internal/properties/properties_builder.rb:16 | once 128 properties are held, no pair changes the hash |
| PropertiesBuilders.PropertiesBuilder.constructor | lib/hackle/internal/properties/properties_builder.rb:7-10 | a new builder holds an empty, valid hash |
| PropertiesBuilders.PropertiesBuilder.Add | lib/hackle/internal/properties/properties_builder.rb:15-26 | the hash becomes the one `add` specifies, and stays valid |
| PropertiesBuilders.PropertiesBuilder.AddAll | lib/hackle/internal/properties/properties_builder.rb:30-38 | anything but a Hash leaves the hash as it was; a Hash is added pair by pair in order, and the hash stays valid |
| PropertiesBuilders.ToHash | lib/hackle/internal/properties/properties_builder.rb:41-43 | the built Hash has one String-keyed entry per property, in order |
| IdentifiersBuilders.SanitizeValueOrNil | lib/hackle/internal/identifiers/identifier_builder.rb:41-51 | a String survives exactly when non-empty and at most 512 long, unchanged; a number becomes exactly its `to_s` text, which reads back to it; anything else is refused |
| IdentifiersBuilders.AddIdentifierEffect | lib/hackle/internal/identifiers/identifier_builder.rb:15-25 | nothing changes for an invalid type or a refused value; otherwise the type maps to the sanitised value, other types are untouched, and the hash stays valid |
| IdentifiersBuilders.PutIdentifierValid | lib/hackle/internal/identifiers/identifier_builder.rb:19 | storing a non-empty value under a valid type keeps types distinct and valid |
| IdentifiersBuilders.AddAllIdentifiersValid | lib/hackle/internal/identifiers/identifier_builder.rb:29-34 | adding any sequence of pairs keeps the hash valid |
| IdentifiersBuilders.IdentifiersBuilder.constructor | lib/hackle/internal/identifiers/identifier_builder.rb:7-10 | a new builder holds an empty, valid hash |
| IdentifiersBuilders.IdentifiersBuilder.Add | lib/hackle/internal/identifiers/identifier_builder.rb:15-25 | the hash becomes the one `add` specifies, and stays valid |
| IdentifiersBuilders.IdentifiersBuilder.AddAll | lib/hackle/internal/identifiers/identifier_builder.rb:29-34 | each pair is added in order, and the hash stays valid |
| Users.AddUnlessNilEffect | lib/hackle/internal/user/hackle_user_resolver.rb:16-18 | adding a dedicated field keeps the identifiers valid, never removes one, sets the type when the value survives sanitising, and leaves other types alone |
| Users.ResolveOrNil | lib/hackle/internal/user/hackle_user_resolver.rb:10-25 | nil without a user; otherwise the identifier hash, then `$id`, `$deviceId` and `$userId` from the non-nil fields, the sanitised properties, and nil when no identifier survives (as the reference function `Resolve`) |
| Users.ResolveValid | lib/hackle/internal/user/hackle_user_resolver.rb:10-25 | a resolved user has at least one identifier, and its identifiers and properties satisfy the builders' limits |
| Users.DedicatedIdOverrides | lib/hackle/internal/user/hackle_user_resolver.rb:15-16 | a valid `id` field wins over any `$id` in the identifier hash |
| Users.DedicatedUserIdOverrides | lib/hackle/internal/user/hackle_user_resolver.rb:15-18 | a valid `user_id` field wins over any `$userId` in the identifier hash |
| Users.NilDedicatedFieldsKeepHash | lib/hackle/internal/user/hackle_user_resolver.rb:15-22 | with no dedicated fields the identifiers are exactly the sanitised hash, and a user with neither resolves to nil |
| ParameterConfigs.Empty | lib/hackle/internal/config/parameter_config.rb:14-19 | the empty configuration has no parameters |
| ParameterConfigs.Get | lib/hackle/internal/config/parameter_config.rb:32-48 | the result is the default or the stored value; the default when the key is absent or stored as nil; the stored value for a nil default; for a String, number or boolean default, a value of the same kind, the stored one when it has that kind; the default for any other default |
| ParameterConfigs.GetOfEmpty | lib/hackle/internal/config/parameter_config.rb:14-19 | reading the empty configuration always gives the default |
| ConditionMatchers.MatcherFor | lib/hackle/internal/evaluation/match/condition/condition_matcher_factory.rb:40-51 | USER_ID, USER_PROPERTY and HACKLE_PROPERTY go to the user matcher, SEGMENT to the segment matcher, AB_TEST and FEATURE_FLAG to the experiment matcher, each exactly |
| ConditionMatchers.UserValueOrNil | lib/hackle/internal/evaluation/match/condition/user/user_condition_matcher.rb:31-42 | raises exactly for key types other than the three user ones; HACKLE_PROPERTY resolves to nil; USER_ID to the identifier of that type when present; USER_PROPERTY to the property of that name |
| ConditionMatchers.UserConditionMatches | lib/hackle/internal/evaluation/match/condition/user/user_condition_matcher.rb:19-24 | a resolver error propagates; a missing user value is false whatever the match type; a present value goes to the value/operator matcher |
| ConditionMatchers.HacklePropertyNeverMatches | lib/hackle/internal/evaluation/match/condition/user/user_condition_matcher.rb:37-38 | a HACKLE_PROPERTY condition is false, under NOT_MATCH too |
| ConditionMatchers.UserTargetMatches | lib/hackle/internal/evaluation/match/condition/segment/segment_condition_matcher.rb:63-65 | a segment target matches exactly when every one of its conditions matches |
| ConditionMatchers.SegmentMatches | lib/hackle/internal/evaluation/match/condition/segment/segment_condition_matcher.rb:53-55 | false exactly when every target is false, true only when some target is true, and an empty segment is false |
| ConditionMatchers.SegmentValueMatches | lib/hackle/internal/evaluation/match/condition/segment/segment_condition_matcher.rb:31-39 | a non-String key raises "segment key [..]", an unknown segment raises "segment [..]", a known one is matched against the user |
| ConditionMatchers.SegmentConditionMatches | lib/hackle/internal/evaluation/match/condition/segment/segment_condition_matcher.rb:16-23 | a non-SEGMENT key raises; when no candidate segment matches the answer is the match type applied to false; a positive answer comes from the first matching segment, all earlier ones being false |
| ConditionMatchers.SegmentScanStopsAtFirstMatch | lib/hackle/internal/evaluation/match/condition/segment/segment_condition_matcher.rb:21 | after the first matching segment the remaining keys, even invalid ones, are never looked at |
| ConditionMatchers.ExperimentOrNil | lib/hackle/internal/evaluation/match/condition/experiment/experiment_evaluator_matcher.rb:87-89 | AB-test conditions look among experiments, feature-flag conditions among feature flags |
| ConditionMatchers.EvaluationOrNil | lib/hackle/internal/evaluation/match/condition/experiment/experiment_evaluator_matcher.rb:52-57 | nil exactly when no evaluation in the context is for that experiment id; otherwise the first one that is |
| ConditionMatchers.EvaluationOrNilAppend | lib/hackle/internal/evaluation/match/condition/experiment/experiment_evaluator_matcher.rb:45-57 | appending evaluations never changes a memo already found, and otherwise the memo comes from what was appended |
| ConditionMatchers.ResolveEvaluation | lib/hackle/internal/evaluation/match/condition/experiment/experiment_evaluator_matcher.rb:91-97 | only the reason may change, and it changes exactly for an AB test nested under an experiment request with TRAFFIC_ALLOCATED, into TRAFFIC_ALLOCATED_BY_TARGETING |
| ConditionMatchers.ResolveEvaluationIdempotent | lib/hackle/internal/evaluation/match/condition/experiment/experiment_evaluator_matcher.rb:91-97 | rewriting twice is rewriting once |
| ConditionMatchers.EvaluationMatches | lib/hackle/internal/evaluation/match/condition/experiment/experiment_evaluator_matcher.rb:99-133 | an AB test is false unless its reason is OVERRIDDEN, TRAFFIC_ALLOCATED, TRAFFIC_ALLOCATED_BY_TARGETING or EXPERIMENT_COMPLETED, and then matches its variation key; a feature flag matches its on-state, which is variation key != 'A' |
| ConditionMatchers.ResolveKeepsMatch | lib/hackle/internal/evaluation/match/condition/experiment/experiment_evaluator_matcher.rb:91-110 | the reason rewrite never changes whether a condition matches |
| Seqs.IndexOfFirst | lib/hackle/internal/model/experiment.rb:108 | the position of the first element satisfying the predicate, every earlier one failing it |
| Seqs.Find | lib/hackle/internal/model/experiment.rb:108 | Array#find: nil exactly when no element satisfies the predicate, otherwise the first element that does |
| Seqs.AllOk | lib/hackle/internal/evaluation/match/target/target_matcher.rb:16-18 | all? with raising blocks: true exactly when every element gives true; otherwise the first answer that is not true, every earlier one being true |
| Seqs.AnyOk | lib/hackle/internal/evaluation/match/condition/segment/segment_condition_matcher.rb:53-55 | any? with raising blocks: false exactly when every element gives false; otherwise the first answer that is not false, every earlier one being false |
| Seqs.MapAt | lib/hackle/internal/event/user_event_factory.rb:26-29 | a mapped list has one image per element, at the same position |
| Seqs.MapStep | lib/hackle/internal/event/user_event_factory.rb:26-29 | mapping one more element appends its image |
| Seqs.AllSome | lib/hackle/internal/workspace/workspace.rb:215-220 | a decoded list exists exactly when every element decodes, and then holds each element's decoding in order |
| Workspaces.Lookup | lib/hackle/internal/workspace/workspace.rb:62-108 | every getter gives nil exactly when the key is absent, and otherwise the entity stored under it |
| Workspaces.Index | lib/hackle/internal/workspace/workspace.rb:131-138 | the index has exactly the keys of the listed items |
| Workspaces.IndexLastWins | lib/hackle/internal/workspace/workspace.rb:131-138 | each key maps to the LAST listed item with that key: a later duplicate overwrites an earlier one |
| Workspaces.IndexBy | lib/hackle/internal/workspace/workspace.rb:131-138 | the `each_with_object` loop builds exactly the index of the items |
| Workspaces.CreateWorkspace | lib/hackle/internal/workspace/workspace.rb:120-140 | every hash of the workspace is the index of its list, by key or by id as the source chooses |
| Workspaces.CreateThenGetExperiment | lib/hackle/internal/workspace/workspace.rb:64-66 | in a created workspace an experiment key finds nothing exactly when no listed experiment has it, and otherwise the last listed experiment with that key |
| Workspaces.Compact | lib/hackle/internal/workspace/workspace.rb:150 | Array#compact: the result is no longer than the input, holds exactly the present values, is empty exactly when every element is nil, and a one-element list keeps its value or drops its nil |
| Workspaces.CompactCounts | lib/hackle/internal/workspace/workspace.rb:150 | every value occurs in the compacted list exactly as often as its Some occurs in the input |
| Workspaces.CompactAppend | lib/hackle/internal/workspace/workspace.rb:150 | compacting a concatenation is compacting each part and concatenating, so the present values keep their order |
| Workspaces.DecodeAll | lib/hackle/internal/workspace/workspace.rb:150 | `map { …_or_nil }.compact`: no longer than the input; holds exactly the values some element decodes to; a single element gives its decoded value or nothing |
| Workspaces.DecodeAllAppend | lib/hackle/internal/workspace/workspace.rb:150 | decoding a concatenation decodes each part and concatenates, so decoded elements keep the order of the input |
| Workspaces.TargetKeyOrNil | lib/hackle/internal/workspace/workspace.rb:216-224 | nil exactly for an unknown key type; otherwise the key type and name of the document |
| Workspaces.TargetMatchOrNil | lib/hackle/internal/workspace/workspace.rb:226-242 | nil exactly when the match type, operator or value type is unknown; otherwise each of the three is the lookup of the document's name, and the values are kept as they are |
| Workspaces.ConditionOrNil | lib/hackle/internal/workspace/workspace.rb:202-214 | a condition survives exactly when its key decodes, its key type is allowed for the kind of target, and its match decodes; its key and match are then those decodings |
| Workspaces.Conditions | lib/hackle/internal/workspace/workspace.rb:196 | the conditions that decode, each of an allowed key type; empty exactly when none decodes; a single condition gives its decoded value or nothing |
| Workspaces.ConditionsAppend | lib/hackle/internal/workspace/workspace.rb:196 | decoding the conditions of a concatenation concatenates the decoded parts, in order |
| Workspaces.TargetOrNil | lib/hackle/internal/workspace/workspace.rb:195-200 | nil exactly when no condition survives; a surviving target uses only allowed key types and holds exactly the conditions that decode, in order |
| Workspaces.ActionOrNil | lib/hackle/internal/workspace/workspace.rb:244-253 | nil exactly for an unknown action type; otherwise the looked-up action type with the variation id and bucket id of the document |
| Workspaces.TargetRuleOrNil | lib/hackle/internal/workspace/workspace.rb:255-266 | a rule survives exactly when both its target and its action decode, and its target and action are then those decodings, the target of the right kind |
| Workspaces.VariationOf | lib/hackle/internal/workspace/workspace.rb:186-193 | a variation is dropped exactly when its status is 'DROPPED'; the other fields are copied |
| Workspaces.UserOverrides | lib/hackle/internal/workspace/workspace.rb:176 | the override map has exactly the user ids of the list, and the last pair's user maps to the last pair's variation |
| Workspaces.LastUserOverrideIndex | lib/hackle/internal/workspace/workspace.rb:176 | the position of the last pair for a user: that pair names the user and no later pair does, and -1 only when no pair does |
| Workspaces.UserOverridesAtLastIndex | lib/hackle/internal/workspace/workspace.rb:176 | an overridden user maps to the variation of the pair at that last position |
| Workspaces.UserOverridesLastWins | lib/hackle/internal/workspace/workspace.rb:176 | every user id maps to the variation of its LAST pair in the list: a later pair overwrites an earlier one |
| Workspaces.TargetRules | lib/hackle/internal/workspace/workspace.rb:177-179 | exactly the rules that decode, each with a target of the given kind; no longer than the list; a single rule gives its decoded value or nothing |
| Workspaces.TargetRulesAppend | lib/hackle/internal/workspace/workspace.rb:177-179 | decoding the rules of a concatenation concatenates the decoded parts, so surviving rules keep their order |
| Workspaces.Targets | lib/hackle/internal/workspace/workspace.rb:178 | exactly the audiences that decode, each of the given kind; no longer than the list; a single audience gives its decoded value or nothing |
| Workspaces.TargetsAppend | lib/hackle/internal/workspace/workspace.rb:178 | decoding the audiences of a concatenation concatenates the decoded parts, so surviving audiences keep their order |
| Workspaces.ExperimentOrNil | lib/hackle/internal/workspace/workspace.rb:159-184 | nil exactly for an unknown status or an undecodable default rule; otherwise every field comes from the document: id, key, name, type, identifier type, status, versions, container, winner, each variation in order, the default rule, the override map, and the decoded segment overrides, audiences and rules |
| Workspaces.SegmentOrNil | lib/hackle/internal/workspace/workspace.rb:292-302 | nil exactly for an unknown segment type; otherwise the document's id and key, the looked-up type, and `Targets` of the document's targets under SEGMENT targeting |
| Workspaces.Parameters | lib/hackle/internal/workspace/workspace.rb:316 | the parameter map has exactly the keys of the list, and the last pair's key maps to the last pair's value |
| Workspaces.LastParameterIndex | lib/hackle/internal/workspace/workspace.rb:316 | the position of the last pair for a key: that pair has the key and no later pair does, and -1 only when no pair does |
| Workspaces.ParametersAtLastIndex | lib/hackle/internal/workspace/workspace.rb:316 | a parameter key maps to the value of the pair at that last position |
| Workspaces.ParametersLastWins | lib/hackle/internal/workspace/workspace.rb:316 | every key maps to the value of its LAST pair in the list: a later pair overwrites an earlier one |
| Workspaces.ParameterConfigurationOf | lib/hackle/internal/workspace/workspace.rb:312-317 | a parameter configuration keeps its id; its map has exactly the keys of its parameters, each mapped to the value of the LAST pair with that key |
| Workspaces.ParameterConfigurations | lib/hackle/internal/workspace/workspace.rb:312-317 | every configuration of the document is decoded, one for one and in order |
| Workspaces.RemoteConfigTargetRuleOrNil | lib/hackle/internal/workspace/workspace.rb:336-350 | a rule survives exactly when its PROPERTY target decodes; its key, name, bucket id and value are the document's, its target that decoding |
| Workspaces.RemoteConfigTargetRules | lib/hackle/internal/workspace/workspace.rb:328 | exactly the rules that decode, each with a PROPERTY-kind target; no longer than the list; a single rule gives its decoded value or nothing |
| Workspaces.RemoteConfigTargetRulesAppend | lib/hackle/internal/workspace/workspace.rb:328 | decoding the rules of a concatenation concatenates the decoded parts, in order |
| Workspaces.RemoteConfigParameterOrNil | lib/hackle/internal/workspace/workspace.rb:319-334 | nil exactly for an unknown value type; otherwise the document's id, key, value type, identifier type and default value, with exactly the rules that decode |
| Workspaces.DecodeExperiments | lib/hackle/internal/workspace/workspace.rb:146-147 | succeeds exactly when every experiment decodes, and then holds each decoded experiment in order; a nil experiment makes indexing raise |
| Workspaces.DecodeSegments | lib/hackle/internal/workspace/workspace.rb:150 | exactly the segments whose type decodes (their targets are all of SEGMENT kind); no longer than the list; a single segment gives its decoded value or nothing |
| Workspaces.DecodeSegmentsAppend | lib/hackle/internal/workspace/workspace.rb:150 | decoding the segments of a concatenation concatenates the decoded parts, in order |
| Workspaces.DecodeRemoteConfigParameters | lib/hackle/internal/workspace/workspace.rb:153 | exactly the parameters whose value type decodes (their rule targets are all of PROPERTY kind); no longer than the list; a single parameter gives its decoded value or nothing |
| Workspaces.DecodeRemoteConfigParametersAppend | lib/hackle/internal/workspace/workspace.rb:153 | decoding the parameters of a concatenation concatenates the decoded parts, in order |
| Workspaces.FromHash | lib/hackle/internal/workspace/workspace.rb:144-155 | fails exactly when some experiment or feature flag does not decode, with the error of calling `key` on nil; otherwise the workspace created from the decoded experiments, feature flags, segments, parameter configurations and remote-config parameters and the document's buckets, events and containers |
| Workspaces.IndexValues | lib/hackle/internal/workspace/workspace.rb:131-138 | every value of an index is one of the indexed items |
| Workspaces.DecodedExperimentsWellTargeted | lib/hackle/internal/workspace/workspace.rb:159-184 | every decoded experiment has IDENTIFIER-kind segment overrides and PROPERTY-kind audiences and rules |
| Workspaces.FromHashWellTargeted | lib/hackle/internal/workspace/workspace.rb:144-155 | every decoded workspace is well targeted: segment overrides only name segments, segments never name segments or experiments, and no target is empty |
| Evaluators.CreateExperimentRequest | lib/hackle/internal/evaluation/evaluator/experiment/experiment_evaluator.rb:56-64 | the request is an experiment request keyed ('EXPERIMENT', experiment id) |
| Evaluators.CreateExperimentRequestBy | lib/hackle/internal/evaluation/evaluator/experiment/experiment_evaluator.rb:69-77 | a nested request keeps the workspace and the user, is keyed by the nested experiment's id and defaults to variation 'A' |
| Evaluators.CreateRemoteConfigRequest | lib/hackle/internal/evaluation/evaluator/remoteconfig/remote_config_evaluator.rb:109-118 | the request is a remote-config request keyed ('REMOTE_CONFIG', parameter id) |
| Evaluators.NestedKeyInUniverse | lib/hackle/internal/evaluation/evaluator/experiment/experiment_evaluator.rb:69-77 | a nested request for an experiment or feature flag of the workspace carries one of the finitely many keys the workspace can give, which bounds nesting |
| Evaluators.KeysOfPush | lib/hackle/internal/evaluation/evaluator/evaluator.rb:79-81 | pushing a request adds exactly its key to the keys in flight |
| Evaluators.PushShrinks | lib/hackle/internal/evaluation/evaluator/evaluator.rb:74-81 | pushing a request that is not in flight strictly shrinks the set of keys still available |
| Evaluators.UniverseAbsorbs | lib/hackle/internal/evaluation/evaluator/evaluator.rb:74-81 | asking again for a key of the workspace adds nothing to the keys still available |
| Evaluators.RemoveRequests | lib/hackle/internal/evaluation/evaluator/evaluator.rb:84-86 | Array#delete with key equality (lines 37-39): exactly the requests with another key remain |
| Evaluators.RemoveAbsent | lib/hackle/internal/evaluation/evaluator/evaluator.rb:84-86 | removing a key that is not in flight leaves the stack unchanged |
| Evaluators.PopAfterPush | lib/hackle/internal/evaluation/evaluator/evaluator.rb:79-86 | add_request then remove_request of a key not in flight restores the stack exactly |
| Evaluators.ConfigurationOrNil | lib/hackle/internal/evaluation/evaluator/experiment/experiment_evaluator.rb:165-170 | present exactly when the variation names a configuration id the workspace holds, and then that configuration |
| Evaluators.CreateEvaluation | lib/hackle/internal/evaluation/evaluator/experiment/experiment_evaluator.rb:132-142 | the variation's id and key, its configuration, the reason, and the context's evaluations so far |
| Evaluators.CreateDefaultEvaluation | lib/hackle/internal/evaluation/evaluator/experiment/experiment_evaluator.rb:148-160 | the variation with the default key when the experiment has one; otherwise that key with no id and no configuration |
| Evaluators.With | lib/hackle/internal/evaluation/evaluator/experiment/experiment_evaluator.rb:116-125 | every field kept but the reason, which is replaced |
| Evaluators.ParameterConfigOf | lib/hackle/internal/evaluation/evaluator/experiment/experiment_evaluator.rb:108-112 | the empty config without a configuration, else the configuration's parameters |
| Evaluators.CreateRemoteConfigEvaluation | lib/hackle/internal/evaluation/evaluator/remoteconfig/remote_config_evaluator.rb:154-164 | the value and its id under the reason; 'returnValue' is set to the sanitized value when there is room, and no other property changes |
| Evaluators.ValueEvaluation | lib/hackle/internal/evaluation/evaluator/remoteconfig/remote_config_evaluator.rb:53-77 | the parameter value when it has the requested type (NULL accepts all; STRING, NUMBER, BOOLEAN their own kind; others nothing), else the request's default with TYPE_MISMATCH and no id |
| Evaluators.EvaluatorContext.constructor | lib/hackle/internal/evaluation/evaluator/evaluator.rb:60-65 | nothing in flight, nothing evaluated |
| Evaluators.EvaluatorContext.AddRequest | lib/hackle/internal/evaluation/evaluator/evaluator.rb:79-81 | the request is pushed last and is then included; the evaluations are untouched |
| Evaluators.EvaluatorContext.RemoveRequest | lib/hackle/internal/evaluation/evaluator/evaluator.rb:84-86 | every request with the same key is removed, so the request is no longer included; the evaluations are untouched |
| Evaluators.EvaluatorContext.AddEvaluation | lib/hackle/internal/evaluation/evaluator/evaluator.rb:94-96 | the evaluation is appended; the requests are untouched |
| EvaluationFlows.Steps | lib/hackle/internal/evaluation/flow/evaluation_flow.rb:20-47 | a chain has one step per Decision node, in order |
| EvaluationFlows.StepsOfChain | lib/hackle/internal/evaluation/flow/evaluation_flow.rb:12-18 | the chain built from a list of steps has exactly those steps, in the same order |
| EvaluationFlows.ChainOfSteps | lib/hackle/internal/evaluation/flow/evaluation_flow.rb:12-18 | every chain is the one built from its own steps, so building and listing are inverse |
| EvaluationFlows.Create | lib/hackle/internal/evaluation/flow/evaluation_flow.rb:12-18 | the reverse_each loop builds exactly the chain of the given steps |
| EvaluationFlows.FlowFor | lib/hackle/internal/evaluation/evaluator/experiment/experiment_evaluation_flow_factory.rb:24-64 | AB_TEST gets override, identifier, container, target, draft, paused, completed, traffic allocation; FEATURE_FLAG gets draft, paused, completed, override, identifier, target rule, default rule |
| EvaluationFlows.PositionOf | lib/hackle/internal/evaluation/evaluator/experiment/experiment_evaluation_flow_factory.rb:24-51 | the first position of a step, or the length when absent |
| EvaluationFlows.OverrideOrder | lib/hackle/internal/evaluation/evaluator/experiment/experiment_evaluation_flow_factory.rb:24-51 | an AB test checks overrides before its status; a feature flag checks draft, paused and completed before its overrides |
| EvaluationFlows.ChainEndsTerminal | lib/hackle/internal/evaluation/flow/evaluation_flow.rb:20-47 | a chain can never fall through to End exactly when one of its steps never calls the next flow |
| EvaluationFlows.PipelinesEndTerminal | lib/hackle/internal/evaluation/evaluator/experiment/experiment_evaluation_flow_factory.rb:24-51 | both pipelines can never fall through to End |
| EvaluationFlows.OnlyLastStepTerminal | lib/hackle/internal/evaluation/evaluator/experiment/experiment_flow_evaluator.rb:125-142 | in each pipeline only the last step (traffic allocation or default rule, lines 186-202) never delegates |
| EvaluationFlows.PipelineHeads | lib/hackle/internal/evaluation/evaluator/experiment/experiment_evaluation_flow_factory.rb:24-51 | the AB-test pipeline starts with the override step; the feature-flag pipeline with draft then paused |
| ExperimentResolvers.ActionResolve | lib/hackle/internal/evaluation/evaluator/experiment/experiment_resolver.rb:17-60 | VARIATION: raises 'action variation [experiment id]' without an id and 'variation [id]' for an unknown one, else that variation; BUCKET: raises 'action bucket [experiment id]' without a bucket id and 'bucket [id]' for an unknown bucket, nil without the identifier, else the bucketing error, nil when no slot holds the user, or the id lookup of the slot's variation; any result is a variation of the experiment |
| ExperimentResolvers.UserOverrideResolve | lib/hackle/internal/evaluation/evaluator/experiment/experiment_resolver.rb:85-93 | present exactly when the user has the experiment's identifier, the overrides map it, and that variation exists; then the first variation with the overridden id |
| ExperimentResolvers.ContainerResolve | lib/hackle/internal/evaluation/evaluator/experiment/experiment_resolver.rb:117-132 | false without the identifier; raises for an unknown bucket; false when the user falls in no slot; raises `container group [id]` when no group has the slot's id; otherwise whether the first group with that id lists the experiment |
| EvaluationSpec.Evaluate | lib/hackle/internal/evaluation/evaluator/delegating/delegating_evaluator.rb:19-24 | no registered evaluator supports the request: raises 'unsupported EvaluatorRequest'; a supported request already in flight raises 'circular evaluation'; a result answers the request, snapshots the evaluation list, and the list only grows by evaluations of experiments not in flight |
| EvaluationSpec.EvaluateContextual | lib/hackle/internal/evaluation/evaluator/contextual/contextual_evaluator.rb:18-27 | a request whose key is in flight raises 'circular evaluation has occurred' and adds nothing; otherwise the answer of the evaluator with the request pushed |
| EvaluationSpec.EvaluateInternal | lib/hackle/internal/evaluation/evaluator/experiment/experiment_evaluator.rb:24-30 | the supporting evaluator's answer answers the request and snapshots the evaluation list |
| EvaluationSpec.EvaluateExperiment | lib/hackle/internal/evaluation/evaluator/experiment/experiment_evaluator.rb:24-30 | the result, and the evaluations after it, are those of the pipeline for the experiment's type: its error propagates, its evaluation is returned, and a pipeline that falls through gives the default variation with TRAFFIC_NOT_ALLOCATED |
| EvaluationSpec.RunFlow | lib/hackle/internal/evaluation/flow/evaluation_flow.rb:20-47 | End gives nil and adds nothing; a chain holding a step that never delegates never gives nil; any evaluation answers the request |
| EvaluationSpec.OverrideStep | lib/hackle/internal/evaluation/evaluator/experiment/experiment_flow_evaluator.rb:38-50 | a user override gives its variation with OVERRIDDEN (AB test) or INDIVIDUAL_TARGET_MATCH (feature flag); otherwise, in terms of ResolveOverride: its error propagates, a segment override's variation gets the same reasons, and no override hands on to the next flow; with a terminal flow after it, never nil |
| EvaluationSpec.IdentifierStep | lib/hackle/internal/evaluation/evaluator/experiment/experiment_flow_evaluator.rb:233-239 | without the experiment's identifier, the default variation with IDENTIFIER_NOT_FOUND; with it, exactly what the next flow gives |
| EvaluationSpec.ContainerStep | lib/hackle/internal/evaluation/evaluator/experiment/experiment_flow_evaluator.rb:214-227 | no container: exactly the next flow; an unknown container raises 'container [id]'; a bucketing error propagates; a user in a group that lists the experiment goes on to the next flow, any other user gets the default with NOT_IN_MUTUAL_EXCLUSION_EXPERIMENT |
| EvaluationSpec.TargetStep | lib/hackle/internal/evaluation/evaluator/experiment/experiment_flow_evaluator.rb:102-113 | a non-AB_TEST raises 'experiment type must be AB_TEST'; otherwise a failing audience check fails, a user outside the audiences gets the default evaluation with NOT_IN_EXPERIMENT_TARGET, and a user inside goes on to the next flow step |
| EvaluationSpec.DraftStep | lib/hackle/internal/evaluation/evaluator/experiment/experiment_flow_evaluator.rb:56-60 | a draft gets the default variation with EXPERIMENT_DRAFT; any other status gives exactly what the next flow gives |
| EvaluationSpec.PausedStep | lib/hackle/internal/evaluation/evaluator/experiment/experiment_flow_evaluator.rb:66-77 | a paused experiment gets the default with EXPERIMENT_PAUSED (AB test) or FEATURE_FLAG_INACTIVE (feature flag); any other status gives exactly what the next flow gives |
| EvaluationSpec.CompletedStep | lib/hackle/internal/evaluation/evaluator/experiment/experiment_flow_evaluator.rb:83-90 | a completed experiment without a winner raises; with one, the winner with EXPERIMENT_COMPLETED; any other status gives exactly what the next flow gives |
| EvaluationSpec.TrafficAllocateStep | lib/hackle/internal/evaluation/evaluator/experiment/experiment_flow_evaluator.rb:125-142 | never delegates; a non-running experiment raises, a running one that is not an AB test raises; a running AB test, in terms of the default rule's ActionResolve: its error propagates, no variation gives the default with TRAFFIC_NOT_ALLOCATED, a dropped one the default with VARIATION_DROPPED, any other that variation with TRAFFIC_ALLOCATED |
| EvaluationSpec.TargetRuleStep | lib/hackle/internal/evaluation/evaluator/experiment/experiment_flow_evaluator.rb:157-174 | a non-running experiment raises, a running one that is not a feature flag raises; without the identifier, the next flow; with it, in terms of FirstMatchingRule over the target rules: its error propagates, no matching rule hands on to the next flow, and the matched rule's ActionResolve either fails, decides nothing ('feature flag must decide the variation' raised) or gives its variation with TARGET_RULE_MATCH |
| EvaluationSpec.DefaultRuleStep | lib/hackle/internal/evaluation/evaluator/experiment/experiment_flow_evaluator.rb:186-202 | never delegates and always gives DEFAULT_RULE; a non-running experiment raises, a running one that is not a feature flag raises; without the identifier, the default variation; with it, in terms of the default rule's ActionResolve: its error propagates, no variation raises 'feature flag must decide the variation', otherwise that variation |
| EvaluationSpec.ResolveOverride | lib/hackle/internal/evaluation/evaluator/experiment/experiment_resolver.rb:77-105 | a user override wins without touching the context; otherwise, in terms of FirstMatchingRule over the segment overrides: its error propagates, no matching override gives nil, and a matching one gives its action's ActionResolve; any variation returned is one of the experiment's |
| EvaluationSpec.FirstMatchingRule | lib/hackle/internal/evaluation/evaluator/experiment/experiment_resolver.rb:162-164 | no rules give nil; a rule returned is one of the rules (the find itself: EvaluationScans.FirstMatchingRuleIsFind) |
| EvaluationSpec.InExperimentTarget | lib/hackle/internal/evaluation/evaluator/experiment/experiment_resolver.rb:145-149 | no audiences let every user in; otherwise the answer is whether any audience matches |
| EvaluationSpec.AnyTargetMatches | lib/hackle/internal/evaluation/evaluator/experiment/experiment_resolver.rb:148 | no targets give false (the any? itself: EvaluationScans.AnyTargetMatchesIsAny) |
| EvaluationSpec.TargetMatches | lib/hackle/internal/evaluation/match/target/target_matcher.rb:16-18 | a target without conditions matches (the all? itself: EvaluationScans.TargetMatchesIsAll) |
| EvaluationSpec.AllConditionsMatch | lib/hackle/internal/evaluation/match/target/target_matcher.rb:16-18 | no conditions give true; a true result needs the first condition to match (the all? itself: EvaluationScans.AllConditionsMatchIsAll) |
| EvaluationSpec.ConditionMatches | lib/hackle/internal/evaluation/match/target/target_matcher.rb:26-29 | user and segment conditions are decided by their own matchers and leave the context as it was; AB_TEST and FEATURE_FLAG keys are exactly ExperimentConditionMatches |
| EvaluationSpec.ExperimentConditionMatches | lib/hackle/internal/evaluation/match/condition/experiment/experiment_condition_matcher.rb:18-27 | AB_TEST and FEATURE_FLAG keys go to their own matcher; any other key type raises 'unsupported TargetKeyType' |
| EvaluationSpec.ExperimentEvaluatorMatches | lib/hackle/internal/evaluation/match/condition/experiment/experiment_evaluator_matcher.rb:18-29 | a key that `Integer(s, exception: false)` rejects raises 'invalid key'; an unknown experiment does not match; an evaluation already in the context is reused; otherwise, in terms of EvaluateNestedExperiment: its error propagates and its evaluation, appended last, is matched |
| EvaluationSpec.EvaluateNestedExperiment | lib/hackle/internal/evaluation/match/condition/experiment/experiment_evaluator_matcher.rb:37-47 | in terms of Evaluate of the nested request built with default key A: its error propagates, a remote-config answer raises 'unexpected evaluation', and an experiment evaluation is resolved and appended as the last evaluation of the context |
| EvaluationSpec.AppendNested | lib/hackle/internal/evaluation/match/condition/experiment/experiment_evaluator_matcher.rb:45 | appending the nested evaluation keeps the context's list free of a second evaluation of the same experiment |
| EvaluationSpec.DetermineRemoteConfigRule | lib/hackle/internal/evaluation/evaluator/remoteconfig/remote_config_determiner.rb:15-17 | no rules give nil; a rule returned is one of the parameter's rules (the find itself: EvaluationScans.DetermineRemoteConfigRuleIsFind) |
| EvaluationSpec.RemoteConfigRuleMatches | lib/hackle/internal/evaluation/evaluator/remoteconfig/remote_config_determiner.rb:34-46 | the evaluations are those of the target match; a failing target fails; a target that does not match, or a user without the identifier, gives false; a missing bucket raises 'bucket [id]'; otherwise the answer is whether the user is bucketed into a slot, and true needs all of these |
| EvaluationSpec.RequestProperties | lib/hackle/internal/evaluation/evaluator/remoteconfig/remote_config_evaluator.rb:25-27 | the properties hold 'requestValueType' (the type's name) and the sanitized 'requestDefaultValue' |
| EvaluationSpec.RuleProperties | lib/hackle/internal/evaluation/evaluator/remoteconfig/remote_config_evaluator.rb:35-38 | a matched rule's key and name are recorded on top of the request's properties, and 'requestValueType' and 'requestDefaultValue' survive |
| EvaluationSpec.EvaluateRemoteConfig | lib/hackle/internal/evaluation/evaluator/remoteconfig/remote_config_evaluator.rb:24-43 | without the parameter's identifier, the caller's default with IDENTIFIER_NOT_FOUND on the request's properties; otherwise, in terms of DetermineRemoteConfigRule: its error propagates, a matched rule's value with TARGET_RULE_MATCH on RuleProperties, no rule the parameter's default with DEFAULT_RULE, each replaced by the caller's default with TYPE_MISMATCH when mistyped; every answer is a RemoteConfigOutcome |
| Evaluators.ValueEvaluationOutcome | lib/hackle/internal/evaluation/evaluator/remoteconfig/remote_config_evaluator.rb:53-60 | an evaluation of the default rule's value, or of a target rule's value, is a RemoteConfigOutcome: one of the four reasons, a typed value or the caller's default, with 'requestValueType' and 'returnValue' recorded |
| Evaluators.IdentifierNotFoundOutcome | lib/hackle/internal/evaluation/evaluator/remoteconfig/remote_config_evaluator.rb:29-32 | the caller's default with IDENTIFIER_NOT_FOUND is a RemoteConfigOutcome |
| EvaluationSpec.AbTestOverrideWins | lib/hackle/internal/evaluation/evaluator/experiment/experiment_evaluation_flow_factory.rb:24-35 | an AB test's user override wins over every status check |
| EvaluationSpec.OverrideFirst | lib/hackle/internal/evaluation/evaluator/experiment/experiment_flow_evaluator.rb:38-50 | a flow starting with the override step gives an AB test's override, whatever follows |
| EvaluationSpec.FeatureFlagDraftIgnoresOverrides | lib/hackle/internal/evaluation/evaluator/experiment/experiment_evaluation_flow_factory.rb:38-51 | a draft feature flag is off whatever its overrides say |
| EvaluationSpec.DraftFirst | lib/hackle/internal/evaluation/evaluator/experiment/experiment_flow_evaluator.rb:56-60 | a flow starting with the draft step gives a draft its default, whatever follows |
| EvaluationSpec.FeatureFlagPausedIsInactive | lib/hackle/internal/evaluation/evaluator/experiment/experiment_evaluation_flow_factory.rb:38-51 | a paused feature flag is inactive before its overrides are looked at |
| EvaluationSpec.DraftThenPaused | lib/hackle/internal/evaluation/evaluator/experiment/experiment_flow_evaluator.rb:56-77 | a flow starting with draft then paused makes a paused feature flag inactive, whatever follows |
| EvaluationSpec.PipelineAlwaysDecides | lib/hackle/internal/evaluation/evaluator/experiment/experiment_evaluator.rb:24-30 | both pipelines always decide, so the TRAFFIC_NOT_ALLOCATED fallback is never used |
| Seqs.FindThreaded | lib/hackle/internal/evaluation/evaluator/experiment/experiment_resolver.rb:163 | `find` with a block that may raise: an empty list finds nothing, and an element found is one of the list (its order: Seqs.FindThreadedIsScan) |
| Seqs.FindThreadedIsScan | lib/hackle/internal/evaluation/evaluator/experiment/experiment_resolver.rb:163 | the elements before the k-th all answer false, and the k-th decides: its true gives that element and its error propagates; when every element answers false nothing is found, after all of them ran |
| Seqs.AnyOrAllThreaded | lib/hackle/internal/evaluation/match/target/target_matcher.rb:17 | `any?` (answering false continues) and `all?` (answering true continues) with a block that may raise: an empty list gives false for any? and true for all? |
| Seqs.AnyOrAllThreadedIsScan | lib/hackle/internal/evaluation/match/target/target_matcher.rb:17 | the elements before the k-th answer the continuing verdict, and the k-th's answer, the opposite verdict or an error, is the result; when every element continues, so does the result |
| EvaluationScans.FirstMatchingRuleIsFind | lib/hackle/internal/evaluation/evaluator/experiment/experiment_resolver.rb:163 | the experiment resolver's rule search is exactly `find` over the rules with the target matcher as the block |
| EvaluationScans.AnyTargetMatchesIsAny | lib/hackle/internal/evaluation/evaluator/experiment/experiment_resolver.rb:148 | the audience check is exactly `any?` over the audiences with the target matcher as the block |
| EvaluationScans.InExperimentTargetIsAny | lib/hackle/internal/evaluation/evaluator/experiment/experiment_resolver.rb:145-149 | a user is in the experiment target exactly when there are no audiences, and otherwise as the `any?` over the audiences answers |
| EvaluationScans.AllConditionsMatchIsAll | lib/hackle/internal/evaluation/match/target/target_matcher.rb:17 | the condition check is exactly `all?` over the conditions with the condition matcher as the block |
| EvaluationScans.TargetMatchesIsAll | lib/hackle/internal/evaluation/match/target/target_matcher.rb:16-18 | a target matches exactly as the `all?` over its conditions answers |
| EvaluationScans.DetermineRemoteConfigRuleIsFind | lib/hackle/internal/evaluation/evaluator/remoteconfig/remote_config_determiner.rb:16 | the remote-config rule search is exactly `find` over the parameter's rules with the remote-config rule matcher as the block |
| EvaluationEngine.GetEvaluationOrNil | lib/hackle/internal/evaluation/match/condition/experiment/experiment_evaluator_matcher.rb:52-57 | the loop returns the first experiment evaluation of the experiment in the context, or nil (EvaluationOrNil) |
| EvaluationEngine.DelegatingEvaluator.constructor | lib/hackle/internal/evaluation/evaluator/delegating/delegating_evaluator.rb:9-12 | no evaluators registered |
| EvaluationEngine.DelegatingEvaluator.Add | lib/hackle/internal/evaluation/evaluator/delegating/delegating_evaluator.rb:15-17 | the evaluator is appended; earlier ones keep priority |
| EvaluationEngine.DelegatingEvaluator.Evaluate | lib/hackle/internal/evaluation/evaluator/delegating/delegating_evaluator.rb:19-24 | the request stack is left as it was, and the result and the context's evaluations are exactly those of EvaluationSpec.Evaluate |
| EvaluationEngine.DelegatingEvaluator.EvaluateContextual | lib/hackle/internal/evaluation/evaluator/contextual/contextual_evaluator.rb:18-27 | the request stack is left as it was, and the result and the context's evaluations are exactly those of EvaluationSpec.EvaluateContextual |
| EvaluationEngine.DelegatingEvaluator.EvaluateInternal | lib/hackle/internal/evaluation/evaluator/experiment/experiment_evaluator.rb:24-30 | the request stack is left as it was, and the result and the context's evaluations are exactly those of EvaluationSpec.EvaluateInternal |
| EvaluationEngine.DelegatingEvaluator.EvaluateExperiment | lib/hackle/internal/evaluation/evaluator/experiment/experiment_evaluator.rb:24-30 | the request stack is left as it was, and the result and the context's evaluations are exactly those of EvaluationSpec.EvaluateExperiment |
| EvaluationEngine.DelegatingEvaluator.RunFlow | lib/hackle/internal/evaluation/flow/evaluation_flow.rb:44-46 | the request stack is left as it was, and the result and the context's evaluations are exactly those of EvaluationSpec.RunFlow |
| EvaluationEngine.DelegatingEvaluator.OverrideStep | lib/hackle/internal/evaluation/evaluator/experiment/experiment_flow_evaluator.rb:38-50 | the request stack is left as it was, and the result and the context's evaluations are exactly those of EvaluationSpec.OverrideStep |
| EvaluationEngine.DelegatingEvaluator.IdentifierStep | lib/hackle/internal/evaluation/evaluator/experiment/experiment_flow_evaluator.rb:233-239 | the request stack is left as it was, and the result and the context's evaluations are exactly those of EvaluationSpec.IdentifierStep |
| EvaluationEngine.DelegatingEvaluator.ContainerStep | lib/hackle/internal/evaluation/evaluator/experiment/experiment_flow_evaluator.rb:214-227 | the request stack is left as it was, and the result and the context's evaluations are exactly those of EvaluationSpec.ContainerStep |
| EvaluationEngine.DelegatingEvaluator.TargetStep | lib/hackle/internal/evaluation/evaluator/experiment/experiment_flow_evaluator.rb:102-113 | the request stack is left as it was, and the result and the context's evaluations are exactly those of EvaluationSpec.TargetStep |
| EvaluationEngine.DelegatingEvaluator.DraftStep | lib/hackle/internal/evaluation/evaluator/experiment/experiment_flow_evaluator.rb:56-60 | the request stack is left as it was, and the result and the context's evaluations are exactly those of EvaluationSpec.DraftStep |
| EvaluationEngine.DelegatingEvaluator.PausedStep | lib/hackle/internal/evaluation/evaluator/experiment/experiment_flow_evaluator.rb:66-77 | the request stack is left as it was, and the result and the context's evaluations are exactly those of EvaluationSpec.PausedStep |
| EvaluationEngine.DelegatingEvaluator.CompletedStep | lib/hackle/internal/evaluation/evaluator/experiment/experiment_flow_evaluator.rb:83-90 | the request stack is left as it was, and the result and the context's evaluations are exactly those of EvaluationSpec.CompletedStep |
| EvaluationEngine.DelegatingEvaluator.TargetRuleStep | lib/hackle/internal/evaluation/evaluator/experiment/experiment_flow_evaluator.rb:157-174 | the request stack is left as it was, and the result and the context's evaluations are exactly those of EvaluationSpec.TargetRuleStep |
| EvaluationEngine.DelegatingEvaluator.ResolveOverride | lib/hackle/internal/evaluation/evaluator/experiment/experiment_resolver.rb:77-105 | the request stack is left as it was, and the result and the context's evaluations are exactly those of EvaluationSpec.ResolveOverride |
| EvaluationEngine.DelegatingEvaluator.FirstMatchingRule | lib/hackle/internal/evaluation/evaluator/experiment/experiment_resolver.rb:162-164 | the request stack is left as it was, and the result and the context's evaluations are exactly those of EvaluationSpec.FirstMatchingRule |
| EvaluationEngine.DelegatingEvaluator.InExperimentTarget | lib/hackle/internal/evaluation/evaluator/experiment/experiment_resolver.rb:145-149 | the request stack is left as it was, and the result and the context's evaluations are exactly those of EvaluationSpec.InExperimentTarget |
| EvaluationEngine.DelegatingEvaluator.TargetMatches | lib/hackle/internal/evaluation/match/target/target_matcher.rb:16-18 | the request stack is left as it was, and the result and the context's evaluations are exactly those of EvaluationSpec.TargetMatches |
| EvaluationEngine.DelegatingEvaluator.ConditionMatches | lib/hackle/internal/evaluation/match/target/target_matcher.rb:26-29 | the request stack is left as it was, and the result and the context's evaluations are exactly those of EvaluationSpec.ConditionMatches |
| EvaluationEngine.DelegatingEvaluator.ExperimentConditionMatches | lib/hackle/internal/evaluation/match/condition/experiment/experiment_condition_matcher.rb:18-27 | the request stack is left as it was, and the result and the context's evaluations are exactly those of EvaluationSpec.ExperimentConditionMatches |
| EvaluationEngine.DelegatingEvaluator.ExperimentEvaluatorMatches | lib/hackle/internal/evaluation/match/condition/experiment/experiment_evaluator_matcher.rb:18-29 | the request stack is left as it was, and the result and the context's evaluations are exactly those of EvaluationSpec.ExperimentEvaluatorMatches |
| EvaluationEngine.DelegatingEvaluator.EvaluateNestedExperiment | lib/hackle/internal/evaluation/match/condition/experiment/experiment_evaluator_matcher.rb:37-47 | the request stack is left as it was, and the result and the context's evaluations are exactly those of EvaluationSpec.EvaluateNestedExperiment |
| EvaluationEngine.DelegatingEvaluator.EvaluateRemoteConfig | lib/hackle/internal/evaluation/evaluator/remoteconfig/remote_config_evaluator.rb:24-43 | the request stack is left as it was, and the result and the context's evaluations are exactly those of EvaluationSpec.EvaluateRemoteConfig |
| EvaluationEngine.DelegatingEvaluator.DetermineRemoteConfigRule | lib/hackle/internal/evaluation/evaluator/remoteconfig/remote_config_determiner.rb:15-17 | the request stack is left as it was, and the result and the context's evaluations are exactly those of EvaluationSpec.DetermineRemoteConfigRule |
| EvaluationEngine.DelegatingEvaluator.RemoteConfigRuleMatches | lib/hackle/internal/evaluation/evaluator/remoteconfig/remote_config_determiner.rb:34-46 | the request stack is left as it was, and the result and the context's evaluations are exactly those of EvaluationSpec.RemoteConfigRuleMatches |
| UserEvents.TargetingRootPropertiesEffect | lib/hackle/internal/event/user_event_factory.rb:24-26 | the builder for a nested event holds '$targetingRootType' (the root request's key type) and '$targetingRootId' (its id), and nothing else |
| UserEvents.EventOf | lib/hackle/internal/event/user_event_factory.rb:41-56 | the event reports the evaluation (same experiment or parameter, decision and reason) at the given timestamp for the request's user |
| UserEvents.TargetEventsAt | lib/hackle/internal/event/user_event_factory.rb:23-29 | one event per nested evaluation, each built from the targeting-root properties |
| UserEvents.TargetEventsStep | lib/hackle/internal/event/user_event_factory.rb:23-29 | one more pass of the loop appends exactly the event for the next nested evaluation |
| UserEvents.ExposurePropertiesGet | lib/hackle/internal/event/user_event_factory.rb:45-47 | an exposure sets '$experiment_version', '$execution_version' and, only with a configuration, '$parameterConfigurationId'; every other key keeps its value |
| UserEvents.ExposurePropertiesValid | lib/hackle/internal/event/user_event_factory.rb:45-48 | an exposure's properties are a valid builder hash |
| UserEvents.AddConfigurationId | lib/hackle/internal/event/user_event_factory.rb:45 | adding config&.id sets the configuration id when there is one and otherwise adds nothing (nil is skipped) |
| UserEvents.AddNumber | lib/hackle/internal/event/user_event_factory.rb:25-26 | adding a number under a valid key below the cap sets that key and leaves every other key unchanged |
| UserEvents.CreatedEvents | lib/hackle/internal/event/user_event_factory.rb:16-32 | create gives 1 + n events with one shared timestamp and the request's user; the first reports the evaluation, the others the nested evaluations in order |
| UserEvents.NestedEventAt | lib/hackle/internal/event/user_event_factory.rb:23-29 | the event after the root one at position i + 1 is the event for the i-th nested evaluation |
| UserEvents.EventsOfParts | lib/hackle/internal/event/user_event_factory.rb:20-29 | the root event comes first, then the nested ones |
| UserEvents.RootExposureProperties | lib/hackle/internal/event/user_event_factory.rb:20-21 | the root exposure names no targeting root and carries the experiment's two versions |
| UserEvents.NestedExposureProperties | lib/hackle/internal/event/user_event_factory.rb:23-29 | a nested exposure names the root request's key type and id and carries the nested experiment's versions |
| UserEvents.TargetExposureProperties | lib/hackle/internal/event/user_event_factory.rb:24-27 | the same for one nested exposure on its own |
| UserEvents.AddAllCopiesClean | lib/hackle/internal/event/user_event_factory.rb:50 | add_all of a hash a builder made, into an empty builder, gives that hash back |
| UserEvents.CleanFront | lib/hackle/internal/event/user_event_factory.rb:50 | the front of a builder-made hash is builder-made too |
| UserEvents.AddCleanLast | lib/hackle/internal/event/user_event_factory.rb:50 | adding the last pair of a builder-made hash to its front appends it |
| UserEvents.RemoteConfigEventCopiesProperties | lib/hackle/internal/event/user_event_factory.rb:49-51 | a remote-config event reports the evaluation's own properties |
| UserEvents.CreateInternal | lib/hackle/internal/event/user_event_factory.rb:41-56 | the method builds exactly EventOf from what the caller's builder held |
| UserEvents.CreateTargetEvent | lib/hackle/internal/event/user_event_factory.rb:24-28 | one pass of the loop builds exactly the event for a nested evaluation |
| UserEvents.Create | lib/hackle/internal/event/user_event_factory.rb:16-32 | the method's list is exactly EventsOf: the root event, then one per nested evaluation |
| UserEvents.SerializeAppend | lib/hackle/internal/event/user_event_dispatcher.rb:76-91 | serializing two batches one after the other is merging their payloads |
| UserEvents.MergeAddRecord | lib/hackle/internal/event/user_event_dispatcher.rb:81-85 | adding a record after two payloads adds it to the second |
| UserEvents.SerializePartition | lib/hackle/internal/event/user_event_dispatcher.rb:76-91 | every event gives exactly one record, in the list of its own kind |
| UserEvents.AddRecordEffect | lib/hackle/internal/event/user_event_dispatcher.rb:81-85 | one more event adds one record, to the list of its kind, keeping every earlier record |
| UserEvents.SerializeEvents | lib/hackle/internal/event/user_event_dispatcher.rb:76-91 | the loop builds exactly Serialize of the batch |
| UserEventProcessors.FlattenSnoc | lib/hackle/internal/event/user_event_processor.rb:143 | the events handed to the dispatcher after one more batch are the earlier ones followed by that batch |
| UserEventProcessors.DispatchKeepsEvents | lib/hackle/internal/event/user_event_processor.rb:140-145 | dispatch_events empties the batch and hands it over whole; an empty batch is not dispatched |
| UserEventProcessors.ConsumeKeepsEvents | lib/hackle/internal/event/user_event_processor.rb:135-138 | an event joins the batch, and the batch is dispatched once it reaches the dispatch size; no event is lost or reordered |
| UserEventProcessors.FirstShutdown | lib/hackle/internal/event/user_event_processor.rb:113-121 | the position of the first shutdown message, before which there is none |
| UserEventProcessors.ShutdownBehind | lib/hackle/internal/event/user_event_processor.rb:90 | a shutdown pushed behind a queue without one is the first the consumer meets |
| UserEventProcessors.HandleAllStep | lib/hackle/internal/event/user_event_processor.rb:113-127 | one more pass of the consuming loop handles exactly the next message |
| UserEventProcessors.HandleValid | lib/hackle/internal/event/user_event_processor.rb:113-138 | handling a message keeps every dispatched batch non-empty and within the dispatch size, only adds batches, and delivers or keeps exactly the events received |
| UserEventProcessors.HandleAllKeepsEvents | lib/hackle/internal/event/user_event_processor.rb:112-138 | after any run of messages, the dispatched events then the current batch are exactly the events received, in order |
| UserEventProcessors.ShutdownDeliversAll | lib/hackle/internal/event/user_event_processor.rb:130-131 | after the final dispatch_events nothing is left in the batch and every event received has been dispatched, in order |
| UserEventProcessors.Offer | lib/hackle/internal/event/user_event_processor.rb:102-106 | a non-blocking push onto a full queue drops the message; otherwise it is appended |
| UserEventProcessors.Messages | lib/hackle/internal/event/user_event_processor.rb:67-69 | one event message per event |
| UserEventProcessors.OfferAllStep | lib/hackle/internal/event/user_event_processor.rb:67-69 | processing one more event offers exactly one more message |
| UserEventProcessors.OfferAllKeepsOrder | lib/hackle/internal/event/user_event_processor.rb:102-106 | processing a list of events queues the longest prefix that fits, in order, and drops the rest |
| UserEventProcessors.DefaultUserEventProcessor.constructor | lib/hackle/internal/event/user_event_processor.rb:27-64 | an empty queue and batch, not started, no flush job |
| UserEventProcessors.DefaultUserEventProcessor.Produce | lib/hackle/internal/event/user_event_processor.rb:102-106 | the queue becomes Offer of the message; nothing else changes |
| UserEventProcessors.DefaultUserEventProcessor.Process | lib/hackle/internal/event/user_event_processor.rb:67-69 | the queue becomes Offer of the event's message; nothing else changes |
| UserEventProcessors.DefaultUserEventProcessor.Flush | lib/hackle/internal/event/user_event_processor.rb:108-110 | the queue becomes Offer of a flush message; nothing else changes |
| UserEventProcessors.DefaultUserEventProcessor.Start | lib/hackle/internal/event/user_event_processor.rb:71-81 | the processor is started with its flush job scheduled; starting twice changes nothing more |
| UserEventProcessors.DefaultUserEventProcessor.DispatchBatch | lib/hackle/internal/event/user_event_processor.rb:140-145 | the batch state becomes DispatchEvents of the old one, and stays valid |
| UserEventProcessors.DefaultUserEventProcessor.Consume | lib/hackle/internal/event/user_event_processor.rb:135-138 | the batch state becomes ConsumeEvent of the old one, and stays valid |
| UserEventProcessors.DefaultUserEventProcessor.TakeOne | lib/hackle/internal/event/user_event_processor.rb:113-124 | pops the head of the queue, handles it, and says whether it was a shutdown |
| UserEventProcessors.DefaultUserEventProcessor.Poll | lib/hackle/internal/event/user_event_processor.rb:113-124 | one consumer step on a started processor pops and handles the head of the queue |
| UserEventProcessors.DefaultUserEventProcessor.Consuming | lib/hackle/internal/event/user_event_processor.rb:112-132 | the consumer handles the messages before the first shutdown, consumes that shutdown, then dispatches what is left |
| UserEventProcessors.DefaultUserEventProcessor.ShutdownConsumer | lib/hackle/internal/event/user_event_processor.rb:90-91 | with a shutdown pushed behind the queue, the consumer drains it, handles every message and dispatches the rest |
| UserEventProcessors.DefaultUserEventProcessor.Stop | lib/hackle/internal/event/user_event_processor.rb:83-96 | a processor that is not started is left alone; a started one has its queue drained and all events dispatched, its flush job cancelled, is no longer started, and shuts its dispatcher down once |
| HackleCore.Evaluated | lib/hackle/internal/core/hackle_core.rb:96-99 | an evaluation from an empty context answers the request; its events are exactly the factory's; its nested evaluations are of other experiments, each at most once |
| HackleCore.TrackEventOf | lib/hackle/internal/core/hackle_core.rb:153-175 | a track event at the call's timestamp for the user; the event type is the workspace's for the key, or id 0 with the event's key without a workspace or a known type |
| HackleCore.ExperimentDecisionReported | lib/hackle/internal/core/hackle_core.rb:89-105 | no workspace: the default with SDK_NOT_READY; unknown key: EXPERIMENT_NOT_FOUND; both with an empty config and no event. Otherwise the first event is this experiment's exposure, with the decision's variation and reason; the others are exposures of other experiments, each once |
| HackleCore.FeatureFlagDecisionReported | lib/hackle/internal/core/hackle_core.rb:110-127 | false with SDK_NOT_READY or FEATURE_FLAG_NOT_FOUND and no event when there is nothing to evaluate; otherwise the flag is on exactly when its exposure reports a variation other than 'A', under the exposure's reason |
| HackleCore.RemoteConfigDecisionReported | lib/hackle/internal/core/hackle_core.rb:133-149 | the default with SDK_NOT_READY or REMOTE_CONFIG_PARAMETER_NOT_FOUND and no event; otherwise the first event reports the parameter with the decision's reason, and the value has the requested type or is the caller's default |
| HackleCore.RemoteConfigValueTyped | lib/hackle/internal/core/hackle_core.rb:140-141 | a remote-config evaluation's value has the requested type when a rule decided it, and is the caller's default otherwise |
| HackleCore.ReportedByEvents | lib/hackle/internal/core/hackle_core.rb:96-102 | the first event reports the evaluation itself; the others are exposures of other experiments, each at most once; all share the timestamp and the user |
| HackleCore.Core.Create | lib/hackle/internal/core/hackle_core.rb:50-83 | a core over the given workspace source and processor, with its evaluator wired, the fetcher not yet stopped |
| HackleCore.Core.ProcessEvents | lib/hackle/internal/core/hackle_core.rb:100-102 | processing each event in turn offers them to the queue in order; the batch state is untouched |
| HackleCore.Core.Experiment | lib/hackle/internal/core/hackle_core.rb:89-105 | the result is DecideExperiment's decision, and the queue receives exactly its events |
| HackleCore.Core.FeatureFlag | lib/hackle/internal/core/hackle_core.rb:110-127 | the result is DecideFeatureFlag's decision, and the queue receives exactly its events |
| HackleCore.Core.RemoteConfig | lib/hackle/internal/core/hackle_core.rb:133-149 | the result is DecideRemoteConfig's decision, and the queue receives exactly its events |
| HackleCore.Core.EvaluateAndReport | lib/hackle/internal/core/hackle_core.rb:96-102 | an evaluation that raises queues nothing; otherwise the evaluation is returned and its events are offered in order |
| HackleCore.Core.Evaluate | lib/hackle/internal/core/hackle_core.rb:97 | the evaluator from a fresh context gives exactly Evaluated's evaluation |
| HackleCore.Core.Track | lib/hackle/internal/core/hackle_core.rb:153-156 | exactly one track event, TrackEventOf at the clock reading, is offered to the queue |
| HackleCore.Core.Close | lib/hackle/internal/core/hackle_core.rb:158-161 | the fetcher is stopped once and the processor is stopped: it is no longer started and its flush job is cancelled |
| RemoteConfigs.RequiredTypeOf | lib/hackle/remote_config.rb:23-34 | nil asks NULL, a String STRING, a number NUMBER, true/false BOOLEAN, anything else UNKNOWN; each exactly |
| RemoteConfigs.DecisionFallsBack | lib/hackle/remote_config.rb:44-53 | an unresolvable user or a nil key gives the default with INVALID_INPUT and no event; every reason but TARGET_RULE_MATCH and DEFAULT_RULE means the caller's default; those two give a value of the requested type; no event exactly when nothing was evaluated |
| RemoteConfigs.GetKeepsKind | lib/hackle/remote_config.rb:22-36 | get gives a String for a String default, a number for a number, a boolean for a boolean, and the default itself for any other non-nil default |
| RemoteConfigs.RemoteConfig.constructor | lib/hackle/remote_config.rb:9-17 | the handle keeps its user and core |
| RemoteConfigs.RemoteConfig.Get | lib/hackle/remote_config.rb:22-36 | the value of Decide for the type the default names, with exactly its events queued |
| RemoteConfigs.RemoteConfig.Decision | lib/hackle/remote_config.rb:44-53 | exactly Decide's decision, with exactly its events queued; a raising core gives EXCEPTION |
| Events.ErrorOrNil | lib/hackle/event.rb:31-37 | nil exactly when the key is a non-empty String, the value nil or a number, and the properties nil or a Hash; otherwise the message of the first failing check, in that order |
| Events.EventBuilder.constructor | lib/hackle/event.rb:55-59 | the key as given, a nil value, an empty properties builder |
| Events.EventBuilder.SetValue | lib/hackle/event.rb:63-66 | the last value given wins; the properties are untouched |
| Events.EventBuilder.Property | lib/hackle/event.rb:71-74 | the properties are one PropertiesBuilder add further on |
| Events.EventBuilder.Properties | lib/hackle/event.rb:78-81 | the properties are one add_all further on; a non-Hash adds nothing |
| Events.EventBuilder.Build | lib/hackle/event.rb:84-86 | the event with the collected properties as a Hash; it is valid exactly when its key and value are |
| Events.BuiltPropertiesNeverInvalid | lib/hackle/event.rb:26-37 | a built event's validity and error never depend on what was added to its properties |

## Left out

- MurmurHash3 x86_32 itself is a call into the `murmurhash3` gem. It is a parameter (`Bucketing.Hasher`) returning a value in [0, 2^32). The signed conversion, `abs` and modulo around it are modelled.
- Floating point: numbers are Ruby Integers. `Float(s, exception: false)` is modelled as an optional sign followed by decimal digits, and `Numeric#to_s` as `Integer#to_s`.
- ValueMatchers.ValueMatches: the version matcher parses both sides with the corrected `Versions.ParseOrNil`, which reads the whole string, not with the line-anchored pattern as written. So a multi-line value such as `"x\n1"` does not match where the source's matcher would treat it as version 1 (see Findings; the as-written parser is `Versions.ParseOrNilAsWritten`).
- `String#upcase` is limited to ASCII letters. `String#to_i` does not model leading white space or `_` separators, which cannot occur in the strings the core gives it.
- `to_s` of values other than nil, strings, integers and booleans is a fixed placeholder in error messages.
- Threads and real blocking are left out: `Thread.new`, `SizedQueue` synchronisation, the timer scheduler and the `join` timeout. The consumer thread is a step function that the model runs on demand (`Poll`, `Consuming`), and the periodic flush job is a flag.
- Concurrent producers during `stop` are left out. The blocking push of the shutdown message is modelled as an append behind the queued messages.
- The processor's rescue for unknown message kinds and per-message errors is left out: messages are a closed datatype and handling one cannot fail.
- Logging is treated as a no-op.
- The network is left out: the HTTP client, the workspace fetchers, and `UserEventDispatcher#dispatch`/`shutdown` with their request building. The dispatcher is a log of dispatched batches plus a shutdown count. The workspace fetcher is the workspace it currently holds plus a count of `stop` calls.
- Randomness and the clock are left out. The `SecureRandom.uuid` insert ids are not part of the event records, and the clock reading is a parameter of each operation that stamps time.
- `Workspace.from_hash` input is a typed document (`ExperimentDto` and the other `*Dto` records). A missing key or a JSON value of the wrong type in the server's document is not modelled. Unknown enum names, unknown statuses and undecodable targets are modelled.
- Enumerations are closed datatypes, so each `else raise "unsupported …"` branch over an enum cannot be reached. The unreachable `else` branch of `UserEventFactory#create_internal` is one of these.
- The `values` lists of the enumerations are not modelled: the core never iterates over them. Only lookups by name are.
- Object identity is not modelled. It covers two things:
  - the factories returning the same matcher instance on every call; the model returns the same matcher value;
  - `requests`/`evaluations` returning copies, which is automatic with value semantics.
- The number of condition-matcher calls made by a whole decision is not counted. Short-circuiting is stated per search: the first matching rule is found and no later rule is examined.
- Errors that `HackleCore` lets propagate are a `Failure` result. `Hackle::RemoteConfig` turns a `Failure` into the EXCEPTION decision, as its `rescue` does.
- The legacy SDK trees (`lib/hackle-ruby-sdk`, `lib/hackle/client.rb`, `lib/hackle/decision`, `lib/hackle/events`, `lib/hackle/models`, `lib/hackle/workspaces`) are not part of this model, and neither is configuration (`lib/hackle/config.rb`, `lib/hackle/version.rb`).
- Records with no behaviour of their own are datatypes only: `Decision`, `User`, `HackleUser`, `UserEvent` and the model records.

## Findings

| source | as written | input that shows it | evidently intended | confidence | as-written member | corrected member |
|---|---|---|---|---|---|---|
| lib/hackle/internal/model/version.rb:27 | `VERSION_REGEX` is anchored with `^` and `$`, which in Ruby match at every line boundary, so `parse_or_nil` accepts a string when any one of its lines is a version | `"x\n1"` parses as version 1.0.0 | the whole string must be a version (`\A` … `\z`), so `"x\n1"` gives nil | medium, not executed | Versions.AsWrittenAcceptsSecondLine | Versions.ParseOrNil |
