/**
 * Validation of the `ranges` attribute of a scheduled downtime: every day
 * specification (key) and every time-range definition (value) must be
 * accepted by the time-period parsers; the first rejection is reported as
 * an error on the `ranges` attribute.
 */
module Validation {
  import opened Wrappers
  import opened Segments

  /** What a time-period parser reports: acceptance, or the message of the exception it threw. */
  datatype ParseResult = Parsed | ParseError(message: string)

  /** LegacyTimePeriod::ParseTimeRange applied to a day specification and a reference time. */
  type KeyParser = (string, int) -> ParseResult

  /** LegacyTimePeriod::ProcessTimeRanges applied to a time-range definition and a reference time. */
  type RangesParser = (string, int) -> ParseResult

  /** A validation error: the attribute path it is attached to and its message. */
  datatype ValidationError = ValidationError(attributePath: seq<string>, message: string)

  /** The part of a rule a parser rejected: the day specification or the time-range definition. */
  datatype RulePart = DaySpecification | TimeRangeDefinition

  /** The error for a rejected part of a rule, attached to the `ranges` attribute. */
  function RangesError(part: RulePart, text: string, reason: string): (e: ValidationError)
  {
    var what := match part
      case DaySpecification => "Invalid time specification '"
      case TimeRangeDefinition => "Invalid time range definition '";
    ValidationError(["ranges"], what + text + "': " + reason)
  }

  /** Both the key and the value of `rule` are accepted at `reference`. */
  predicate RuleValid(rule: Rule, parseKey: KeyParser, parseRanges: RangesParser, reference: int)
  {
    parseKey(rule.key, reference).Parsed? && parseRanges(rule.value, reference).Parsed?
  }

  /**
   * The outcome of checking `rules` in order: the error for the first rule
   * whose key (checked first) or value is rejected, or success.
   */
  function CheckRules(rules: seq<Rule>, parseKey: KeyParser, parseRanges: RangesParser, reference: int)
    : (outcome: Outcome<ValidationError>)
    ensures outcome.Pass? <==>
              forall i :: 0 <= i < |rules| ==> RuleValid(rules[i], parseKey, parseRanges, reference)
    ensures outcome.Fail? ==> outcome.error.attributePath == ["ranges"]
    decreases |rules|
  {
    if rules == [] then Pass
    else
      var rule := rules[0];
      match parseKey(rule.key, reference)
      case ParseError(reason) => Fail(RangesError(DaySpecification, rule.key, reason))
      case Parsed =>
        match parseRanges(rule.value, reference)
        case ParseError(reason) => Fail(RangesError(TimeRangeDefinition, rule.value, reason))
        case Parsed =>
          var rest := CheckRules(rules[1..], parseKey, parseRanges, reference);
          assert forall i :: 1 <= i < |rules| ==> rules[i] == rules[1..][i - 1];
          rest
  }

  /**
   * A failed check names the first offending rule `k`: every earlier rule is
   * valid, and the error names `k`'s day specification when its key is
   * rejected and its time-range definition otherwise, carrying the parser's message.
   */
  lemma {:induction false} CheckRulesReportsFirstFailure(rules: seq<Rule>, parseKey: KeyParser,
                                                        parseRanges: RangesParser, reference: int)
    returns (k: nat)
    requires CheckRules(rules, parseKey, parseRanges, reference).Fail?
    ensures k < |rules|
    ensures forall i :: 0 <= i < k ==> RuleValid(rules[i], parseKey, parseRanges, reference)
    ensures !RuleValid(rules[k], parseKey, parseRanges, reference)
    ensures CheckRules(rules, parseKey, parseRanges, reference).error ==
              match parseKey(rules[k].key, reference)
              case ParseError(reason) => RangesError(DaySpecification, rules[k].key, reason)
              case Parsed => RangesError(TimeRangeDefinition, rules[k].value, parseRanges(rules[k].value, reference).message)
    decreases |rules|
  {
    if RuleValid(rules[0], parseKey, parseRanges, reference) {
      var k' := CheckRulesReportsFirstFailure(rules[1..], parseKey, parseRanges, reference);
      k := k' + 1;
      assert rules[k] == rules[1..][k'];
      forall i | 0 <= i < k
        ensures RuleValid(rules[i], parseKey, parseRanges, reference)
      {
        if i > 0 {
          assert rules[i] == rules[1..][i - 1];
        }
      }
    } else {
      k := 0;
    }
  }

  /**
   * ScheduledDowntime::ValidateRanges: a missing dictionary is accepted;
   * otherwise the rules are checked in iteration order and the first
   * rejected key or value ends the validation with its error.
   */
  method ValidateRanges(value: Option<seq<Rule>>, parseKey: KeyParser, parseRanges: RangesParser,
                        reference: int) returns (outcome: Outcome<ValidationError>)
    ensures value.None? ==> outcome == Pass
    ensures value.Some? ==> outcome == CheckRules(value.value, parseKey, parseRanges, reference)
    ensures outcome.Pass? <==>
              value.None? ||
              forall i :: 0 <= i < |value.value| ==> RuleValid(value.value[i], parseKey, parseRanges, reference)
  {
    if value.None? {
      return Pass;
    }
    var rules := value.value;
    for i := 0 to |rules|
      invariant CheckRules(rules, parseKey, parseRanges, reference)
             == CheckRules(rules[i..], parseKey, parseRanges, reference)
    {
      assert rules[i..][0] == rules[i] && rules[i..][1..] == rules[i + 1..];
      var keyResult := parseKey(rules[i].key, reference);
      if keyResult.ParseError? {
        return Fail(RangesError(DaySpecification, rules[i].key, keyResult.message));
      }
      var valueResult := parseRanges(rules[i].value, reference);
      if valueResult.ParseError? {
        return Fail(RangesError(TimeRangeDefinition, rules[i].value, valueResult.message));
      }
    }
    assert rules[|rules|..] == [];
    outcome := Pass;
  }
}
