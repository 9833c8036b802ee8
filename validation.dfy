/** Declarative validation of the plugin parameters: a table of rules, one per
    parameter name, each with a check, an error text, example settings and an
    optional warning threshold. */
module Validation {
  import opened Wrappers
  import opened Strings
  import opened Collections

  /** The validator factories the rule table uses. */
  datatype Check =
    | OneOf(allowed: seq<string>)      // validate_enum_value
    | Timeout                          // validate_timeout
    | GrpcTarget                       // validate_grpc_target
    | FileExtension(ext: string)       // validate_file_extension
    | Placeholder(placeholder: string) // validate_pattern_placeholder

  /** The warning thresholds the rule table uses. */
  datatype Threshold = TimeoutAbove300 // timeout_warning_threshold

  datatype ValidationRule = ValidationRule(
    fieldName: string,
    validator: Check,
    errorMessage: string,
    suggestions: seq<string>,
    warningThreshold: Option<Threshold>,
    warningMessage: Option<string>)

  datatype ValidationResult = ValidationResult(errors: seq<string>, warnings: seq<string>) {
    /** `is_valid`: no errors; warnings do not count. */
    predicate IsValid() {
      |errors| == 0
    }
  }

  // ---------------------------------------------------------------------
  // The validators

  function LowerAll(values: seq<string>): (r: seq<string>)
    ensures |r| == |values|
    ensures forall i :: 0 <= i < |values| ==> r[i] == Lower(values[i])
  {
    seq(|values|, i requires 0 <= i < |values| => Lower(values[i]))
  }

  /** `validate_enum_value`: case-insensitive membership. */
  predicate ValidateEnumValue(allowed: seq<string>, value: string)
    ensures value in allowed ==> ValidateEnumValue(allowed, value)
    ensures ValidateEnumValue(allowed, value) ==> exists i :: 0 <= i < |allowed| && Lower(allowed[i]) == Lower(value)
  {
    assert forall i :: 0 <= i < |allowed| && allowed[i] == value ==> LowerAll(allowed)[i] == Lower(value);
    Lower(value) in LowerAll(allowed)
  }

  lemma EnumValueIff(allowed: seq<string>, value: string)
    ensures ValidateEnumValue(allowed, value) <==>
      exists i :: 0 <= i < |allowed| && Lower(allowed[i]) == Lower(value)
  {
    var lowered := LowerAll(allowed);
    if ValidateEnumValue(allowed, value) {
      var i :| 0 <= i < |lowered| && lowered[i] == Lower(value);
      assert Lower(allowed[i]) == Lower(value);
    }
  }

  /** Changing the case of the value never changes the verdict; every listed
      value is accepted as written. */
  lemma EnumValueCaseInsensitive(allowed: seq<string>, value: string)
    ensures ValidateEnumValue(allowed, Lower(value)) == ValidateEnumValue(allowed, value)
    ensures value in allowed ==> ValidateEnumValue(allowed, value)
  {
    LowerIdempotent(value);
    EnumValueIff(allowed, value);
    EnumValueIff(allowed, Lower(value));
    if value in allowed {
      var i :| 0 <= i < |allowed| && allowed[i] == value;
      assert Lower(allowed[i]) == Lower(value);
    }
  }

  /** `validate_timeout`: an integer in 1..300. */
  predicate ValidateTimeout(value: string)
    ensures ValidateTimeout(value) <==> ParseInt(value).Some? && 1 <= ParseInt(value).value <= 300
    ensures ValidateTimeout(value) ==> value != "" && value[0] != '-' && !TimeoutWarningThreshold(value)
  {
    match ParseInt(value)
    case None => false
    case Some(n) => 0 < n <= 300
  }

  /** `timeout_warning_threshold`: an integer above 300. */
  predicate TimeoutWarningThreshold(value: string)
    ensures TimeoutWarningThreshold(value) <==> ParseInt(value).Some? && ParseInt(value).value > 300
    ensures TimeoutWarningThreshold(value) ==> value != "" && value[0] != '-'
  {
    match ParseInt(value)
    case None => false
    case Some(n) => n > 300
  }

  /** The printed form of a number passes the timeout check exactly when the
      number is between 1 and 300, and reaches the warning threshold exactly
      when it is above 300. */
  lemma TimeoutOfNumber(n: int)
    ensures ValidateTimeout(IntToString(n)) <==> 1 <= n <= 300
    ensures TimeoutWarningThreshold(IntToString(n)) <==> n > 300
  {
    ParseIntToString(n);
  }

  /** On a run of digits, leading zeros and all, the timeout check and its
      threshold compare the digits' value with 300. */
  lemma TimeoutOfDigits(value: string)
    requires value != [] && AllDigits(value)
    ensures ValidateTimeout(value) <==> 1 <= DigitsValue(value) <= 300
    ensures TimeoutWarningThreshold(value) <==> DigitsValue(value) > 300
  {
  }

  /** No value both passes the timeout check and reaches its threshold. */
  lemma TimeoutNeverBoth(value: string)
    ensures !(ValidateTimeout(value) && TimeoutWarningThreshold(value))
  {
  }

  /** `validate_grpc_target` */
  predicate ValidateGrpcTarget(value: string)
    ensures ValidateGrpcTarget(value) ==> CountChar(value, ':') == 1 && !IsBlank(value)
  {
    SplitCount(value, ':');
    if value == "" || ':' !in value then false
    else
      var parts := SplitOn(value, ':');
      if |parts| != 2 then false
      else Strip(parts[0]) != "" && Strip(parts[1]) != ""
  }

  /** A target is accepted exactly when it has one colon and neither the host
      before it nor the port after it is blank. */
  lemma {:induction false} GrpcTargetIff(value: string)
    ensures ValidateGrpcTarget(value) <==>
      (SplitFirst(value, ':').Some? &&
       ':' !in SplitFirst(value, ':').value.1 &&
       !IsBlank(SplitFirst(value, ':').value.0) &&
       !IsBlank(SplitFirst(value, ':').value.1))
  {
    match SplitFirst(value, ':')
    case None =>
    case Some((host, port)) =>
      SplitOnFirst(host, ':', port);
      SplitCount(port, ':');
      if ':' !in port {
        SplitOnAbsent(port, ':');
      }
  }

  /** `validate_file_extension` */
  predicate ValidateFileExtension(ext: string, value: string)
    ensures ValidateFileExtension(ext, value) ==> Contains(value, ext)
    ensures ValidateFileExtension(ext, value) ==> |ext| <= |value| && value[|value| - |ext|..] == ext
  {
    ContainsIff(value, ext);
    assert EndsWith(value, ext) ==> OccursAt(value, ext, |value| - |ext|);
    EndsWith(value, ext)
  }

  /** `validate_pattern_placeholder` */
  predicate ValidatePatternPlaceholder(placeholder: string, value: string)
    ensures ValidatePatternPlaceholder(placeholder, value) <==> exists i :: OccursAt(value, placeholder, i)
  {
    ContainsIff(value, placeholder);
    Contains(value, placeholder)
  }

  /** The main check of a rule. */
  predicate Passes(rule: ValidationRule, value: string) {
    match rule.validator
    case OneOf(allowed) => ValidateEnumValue(allowed, value)
    case Timeout => ValidateTimeout(value)
    case GrpcTarget => ValidateGrpcTarget(value)
    case FileExtension(ext) => ValidateFileExtension(ext, value)
    case Placeholder(p) => ValidatePatternPlaceholder(p, value)
  }

  /** The warning check of a rule; a rule without a threshold never warns. */
  predicate Warns(rule: ValidationRule, value: string) {
    match rule.warningThreshold
    case None => false
    case Some(TimeoutAbove300) => TimeoutWarningThreshold(value)
  }

  // ---------------------------------------------------------------------
  // Messages

  /** `_format_error`: the value itself is not part of the message. */
  function FormatError(rule: ValidationRule, value: string): (r: string)
    ensures StartsWith(r, "Parameter '" + rule.fieldName + "': " + rule.errorMessage)
    ensures rule.suggestions == [] ==> r == "Parameter '" + rule.fieldName + "': " + rule.errorMessage
    ensures rule.suggestions != [] ==>
      r == "Parameter '" + rule.fieldName + "': " + rule.errorMessage + ". Examples: " + JoinWith(rule.suggestions, ", ")
    ensures forall i :: 0 <= i < |rule.suggestions| ==> Contains(r, rule.suggestions[i])
  {
    var message := "Parameter '" + rule.fieldName + "': " + rule.errorMessage;
    JoinedPartsOccur(message + ". Examples: ", rule.suggestions, ", ");
    if rule.suggestions != [] then message + ". Examples: " + JoinWith(rule.suggestions, ", ")
    else message
  }

  /** The error text is the same whatever the rejected value. */
  lemma FormatErrorIgnoresValue(rule: ValidationRule, value: string, other: string)
    ensures FormatError(rule, value) == FormatError(rule, other)
  {
  }

  /** `_format_warning`: a missing or empty warning text falls back to a
      generic one. */
  function FormatWarning(rule: ValidationRule, value: string): (r: string)
    ensures StartsWith(r, rule.fieldName + "=" + value + ": ")
    ensures rule.warningMessage.Some? && rule.warningMessage.value != "" ==>
      r == rule.fieldName + "=" + value + ": " + rule.warningMessage.value
    ensures rule.warningMessage.None? || rule.warningMessage.value == "" ==>
      r == rule.fieldName + "=" + value + ": Warning for " + rule.fieldName + "=" + value
    ensures r == rule.fieldName + "=" + value + ": Warning for " + rule.fieldName + "=" + value <==>
      rule.warningMessage.None? || rule.warningMessage.value == "" ||
      rule.warningMessage.value == "Warning for " + rule.fieldName + "=" + value
  {
    var warningMsg := if rule.warningMessage.Some? && rule.warningMessage.value != "" then rule.warningMessage.value
                      else "Warning for " + rule.fieldName + "=" + value;
    rule.fieldName + "=" + value + ": " + warningMsg
  }

  // ---------------------------------------------------------------------
  // The rule table

  const ValidationRules: seq<ValidationRule> := [
    ValidationRule("tool_name_case", OneOf(["snake", "camel", "pascal", "kebab"]),
      "must be one of: snake, camel, pascal, kebab", ["tool_name_case=snake"], None, None),
    ValidationRule("error_format", OneOf(["standard", "simple", "detailed"]),
      "must be one of: standard, simple, detailed", ["error_format=standard"], None, None),
    ValidationRule("stream_mode", OneOf(["collect", "skip", "warn"]),
      "must be one of: collect, skip, warn", ["stream_mode=collect"], None, None),
    ValidationRule("debug", OneOf(["", "true", "1", "yes", "basic", "verbose", "trace", "false", "0", "no"]),
      "must be one of: true, false, basic, verbose, trace", ["debug=basic", "debug=verbose"], None, None),
    ValidationRule("timeout", Timeout,
      "must be a positive integer between 1-300 seconds", ["timeout=30", "timeout=60"],
      Some(TimeoutAbove300),
      Some("timeout is very high (>5 minutes). Consider a lower value for better user experience.")),
    ValidationRule("grpc_target", GrpcTarget,
      "must be in format 'host:port'", ["grpc_target=localhost:50051", "grpc_target=api.example.com:443"], None, None),
    ValidationRule("output_suffix", FileExtension(".py"),
      "must end with '.py'", ["output_suffix=_mcp_server.py"], None, None),
    ValidationRule("server_name_pattern", Placeholder("{service}"),
      "must contain '{service}' placeholder", ["server_name_pattern=My{service}Server"], None, None),
    ValidationRule("function_name_pattern", Placeholder("{service}"),
      "must contain '{service}' placeholder", ["function_name_pattern={service}Function"], None, None)
  ]

  function RuleEntries(rules: seq<ValidationRule>): (r: seq<Option<(string, ValidationRule)>>)
    ensures |r| == |rules|
    ensures forall i :: 0 <= i < |rules| ==> r[i] == Some((rules[i].fieldName, rules[i]))
  {
    seq(|rules|, i requires 0 <= i < |rules| => Some((rules[i].fieldName, rules[i])))
  }

  /** The rules by parameter name; a later rule for the same name replaces
      an earlier one. */
  function RuleTable(rules: seq<ValidationRule>): map<string, ValidationRule> {
    Assoc(RuleEntries(rules))
  }

  /** Every rule of the table is a rule of the list, filed under its own name. */
  lemma RuleTableFromList(rules: seq<ValidationRule>, name: string)
    requires name in RuleTable(rules)
    ensures RuleTable(rules)[name] in rules
    ensures RuleTable(rules)[name].fieldName == name
  {
    AssocValueFrom(RuleEntries(rules), name);
  }

  /** A rule whose threshold can never fire once its main check has passed. */
  ghost predicate NeverWarns(rule: ValidationRule) {
    forall value :: Passes(rule, value) ==> !Warns(rule, value)
  }

  /** The built-in rules never produce a warning: the only threshold, a
      timeout above 300, is out of reach of a timeout that passed. */
  lemma DefaultRulesNeverWarn()
    ensures forall i :: 0 <= i < |ValidationRules| ==> NeverWarns(ValidationRules[i])
  {
    forall i, value | 0 <= i < |ValidationRules| && Passes(ValidationRules[i], value)
      ensures !Warns(ValidationRules[i], value)
    {
      TimeoutNeverBoth(value);
    }
  }

  /** The default validator files the timeout rule under "timeout". */
  lemma DefaultTimeoutRule()
    ensures "timeout" in RuleTable(ValidationRules)
    ensures RuleTable(ValidationRules)["timeout"] == ValidationRules[4]
  {
    var entries := RuleEntries(ValidationRules);
    forall j | 4 < j < |entries| ensures !Assigns(entries, j, "timeout") {
      assert entries[j].value.0 == ValidationRules[j].fieldName;
    }
    AssocLastWins(entries, 4);
  }

  /** The default validator has a rule for exactly the names of the nine
      built-in rules, each filed under its own name. */
  lemma DefaultRuleTable()
    ensures RuleTable(ValidationRules).Keys == set i | 0 <= i < |ValidationRules| :: ValidationRules[i].fieldName
    ensures forall i :: 0 <= i < |ValidationRules| ==> RuleTable(ValidationRules)[ValidationRules[i].fieldName] == ValidationRules[i]
  {
    var entries := RuleEntries(ValidationRules);
    forall i | 0 <= i < |ValidationRules|
      ensures ValidationRules[i].fieldName in RuleTable(ValidationRules)
      ensures RuleTable(ValidationRules)[ValidationRules[i].fieldName] == ValidationRules[i]
    {
      DistinctRuleNames(i);
      AssocLastWins(entries, i);
    }
    forall k | k in RuleTable(ValidationRules)
      ensures exists i :: 0 <= i < |ValidationRules| && ValidationRules[i].fieldName == k
    {
      AssocHasKey(entries, k);
      var i :| Assigns(entries, i, k);
      assert ValidationRules[i].fieldName == k;
    }
  }

  /** No later built-in rule shares a name with an earlier one. */
  lemma DistinctRuleNames(i: int)
    requires 0 <= i < |ValidationRules|
    ensures forall j :: i < j < |ValidationRules| ==> !Assigns(RuleEntries(ValidationRules), j, ValidationRules[i].fieldName)
  {
    forall j | i < j < |ValidationRules| ensures ValidationRules[j].fieldName != ValidationRules[i].fieldName {
    }
  }

  /** The debug rule accepts an empty value and any case of its words. */
  lemma DebugRuleAccepts()
    ensures Passes(ValidationRules[3], "")
    ensures Passes(ValidationRules[3], "TRUE")
  {
    var allowed := ["", "true", "1", "yes", "basic", "verbose", "trace", "false", "0", "no"];
    assert ValidationRules[3].validator == OneOf(allowed);
    assert LowerAll(allowed)[0] == Lower("");
    assert Lower("") == "";
    assert Lower("TRUE") == "true";
    EnumValueIff(allowed, "");
    EnumValueIff(allowed, "TRUE");
    assert Lower(allowed[1]) == "true";
  }

  /** The debug rule rejects a word outside its list. */
  lemma DebugRuleRejects()
    ensures !Passes(ValidationRules[3], "on")
  {
    var allowed := ["", "true", "1", "yes", "basic", "verbose", "trace", "false", "0", "no"];
    assert ValidationRules[3].validator == OneOf(allowed);
    EnumValueIff(allowed, "on");
    assert Lower("on") == "on";
    forall i | 0 <= i < |allowed| ensures Lower(allowed[i]) != "on" {
      assert Lower(allowed[i]) == allowed[i];
    }
  }

  // ---------------------------------------------------------------------
  // Validation

  /** One parameter: an error when the main check fails, otherwise a
      warning when the threshold fires; unknown names are skipped. */
  function CheckParameter(rules: map<string, ValidationRule>, name: string, value: string,
                          acc: ValidationResult): ValidationResult
  {
    if name !in rules then acc
    else
      var rule := rules[name];
      if !Passes(rule, value) then acc.(errors := acc.errors + [FormatError(rule, value)])
      else if Warns(rule, value) then acc.(warnings := acc.warnings + [FormatWarning(rule, value)])
      else acc
  }

  ghost predicate AllPresent(names: seq<string>, items: map<string, string>) {
    forall i :: 0 <= i < |names| ==> names[i] in items
  }

  /** The result of checking the parameters `names` in order. */
  function Validated(rules: map<string, ValidationRule>, names: seq<string>, items: map<string, string>): ValidationResult
    requires AllPresent(names, items)
    decreases |names|
  {
    if names == [] then ValidationResult([], [])
    else
      var n := |names| - 1;
      CheckParameter(rules, names[n], items[names[n]], Validated(rules, names[..n], items))
  }

  /** Validation passes exactly when every parameter that has a rule passes
      its main check. */
  lemma {:induction false} ValidIffAllPass(rules: map<string, ValidationRule>, names: seq<string>, items: map<string, string>)
    requires AllPresent(names, items)
    ensures Validated(rules, names, items).IsValid() <==>
      forall i :: 0 <= i < |names| && names[i] in rules ==> Passes(rules[names[i]], items[names[i]])
    decreases |names|
  {
    if names != [] {
      var n := |names| - 1;
      ValidIffAllPass(rules, names[..n], items);
    }
  }

  /** The names that have a rule, in their order. */
  function RuledNames(rules: map<string, ValidationRule>, names: seq<string>): (r: seq<string>)
    ensures |r| <= |names|
    ensures forall i :: 0 <= i < |r| ==> r[i] in rules && r[i] in names
    ensures forall i :: 0 <= i < |names| && names[i] in rules ==> names[i] in r
    decreases |names|
  {
    if names == [] then []
    else
      var n := |names| - 1;
      var init := RuledNames(rules, names[..n]);
      assert forall i :: 0 <= i < n ==> names[..n][i] == names[i];
      if names[n] in rules then init + [names[n]] else init
  }

  /** Only the parameters that have a rule matter: the result for all
      parameters is the result for the ruled ones alone. */
  lemma {:induction false} ValidatedRuledOnly(rules: map<string, ValidationRule>, names: seq<string>, items: map<string, string>)
    requires AllPresent(names, items)
    ensures AllPresent(RuledNames(rules, names), items)
    ensures Validated(rules, names, items) == Validated(rules, RuledNames(rules, names), items)
    decreases |names|
  {
    if names != [] {
      var n := |names| - 1;
      var init := RuledNames(rules, names[..n]);
      ValidatedRuledOnly(rules, names[..n], items);
      if names[n] in rules {
        assert (init + [names[n]])[..|init|] == init;
      }
    }
  }

  /** Each parameter that has a rule contributes at most one message, and
      the others none. */
  lemma {:induction false} OneMessageEach(rules: map<string, ValidationRule>, names: seq<string>, items: map<string, string>)
    requires AllPresent(names, items)
    ensures |Validated(rules, names, items).errors| + |Validated(rules, names, items).warnings| <= |RuledNames(rules, names)|
    ensures |RuledNames(rules, names)| <= |names|
    decreases |names|
  {
    if names != [] {
      OneMessageEach(rules, names[..|names| - 1], items);
    }
  }

  /** With rules that never warn there are no warnings at all. */
  lemma {:induction false} NoWarnings(rules: map<string, ValidationRule>, names: seq<string>, items: map<string, string>)
    requires AllPresent(names, items)
    requires forall k :: k in rules ==> NeverWarns(rules[k])
    ensures Validated(rules, names, items).warnings == []
    decreases |names|
  {
    if names != [] {
      var n := |names| - 1;
      NoWarnings(rules, names[..n], items);
      if names[n] in rules {
        var rule := rules[names[n]];
        assert NeverWarns(rule);
        assert Passes(rule, items[names[n]]) ==> !Warns(rule, items[names[n]]);
      }
    }
  }

  /** The default validator never warns, whatever the parameters. */
  lemma DefaultValidatorNeverWarns(names: seq<string>, items: map<string, string>)
    requires AllPresent(names, items)
    ensures Validated(RuleTable(ValidationRules), names, items).warnings == []
  {
    var table := RuleTable(ValidationRules);
    DefaultRulesNeverWarn();
    forall k | k in table ensures NeverWarns(table[k]) {
      RuleTableFromList(ValidationRules, k);
      var i :| 0 <= i < |ValidationRules| && ValidationRules[i] == table[k];
    }
    NoWarnings(table, names, items);
  }

  /** A timeout above 300 is reported as an error (with the rule's text and
      examples) and never as a warning. */
  lemma TimeoutTooHigh(value: string)
    requires ParseInt(value).Some? && ParseInt(value).value > 300
    ensures Validated(RuleTable(ValidationRules), ["timeout"], map["timeout" := value]) ==
      ValidationResult([FormatError(ValidationRules[4], value)], [])
  {
    DefaultTimeoutRule();
    assert ["timeout"][..0] == [];
  }

  /** Parameters without a rule leave the result as it is. */
  lemma {:induction false} UnruledIgnored(rules: map<string, ValidationRule>, names: seq<string>, items: map<string, string>)
    requires AllPresent(names, items)
    requires forall i :: 0 <= i < |names| ==> names[i] !in rules
    ensures Validated(rules, names, items) == ValidationResult([], [])
    decreases |names|
  {
    if names != [] {
      UnruledIgnored(rules, names[..|names| - 1], items);
    }
  }

  /** `ParameterValidator`: the rules by name. */
  class ParameterValidator {
    var rules: map<string, ValidationRule>

    constructor (ruleList: seq<ValidationRule>)
      ensures rules == RuleTable(ruleList)
    {
      var table: map<string, ValidationRule> := map[];
      for i := 0 to |ruleList|
        invariant table == RuleTable(ruleList[..i])
      {
        assert RuleEntries(ruleList[..i + 1]) == RuleEntries(ruleList[..i]) + [Some((ruleList[i].fieldName, ruleList[i]))];
        AssocSnoc(RuleEntries(ruleList[..i]), Some((ruleList[i].fieldName, ruleList[i])));
        table := table[ruleList[i].fieldName := ruleList[i]];
      }
      assert ruleList[..|ruleList|] == ruleList;
      rules := table;
    }

    /** `validate`: the parameters in the dictionary's order. */
    method Validate(parameters: OrderedMap<string>) returns (result: ValidationResult)
      requires Valid(parameters)
      ensures AllPresent(parameters.keys, parameters.items)
      ensures result == Validated(rules, parameters.keys, parameters.items)
    {
      result := ValidationResult([], []);
      for i := 0 to |parameters.keys|
        invariant AllPresent(parameters.keys[..i], parameters.items)
        invariant result == Validated(rules, parameters.keys[..i], parameters.items)
      {
        var paramName := parameters.keys[i];
        var paramValue := parameters.items[paramName];
        assert parameters.keys[..i + 1][..i] == parameters.keys[..i];
        ghost var before := result;
        if paramName in rules {
          var rule := rules[paramName];
          if !Passes(rule, paramValue) {
            var errorMsg := FormatError(rule, paramValue);
            result := result.(errors := result.errors + [errorMsg]);
          } else if rule.warningThreshold.Some? && Warns(rule, paramValue) {
            var warningMsg := FormatWarning(rule, paramValue);
            result := result.(warnings := result.warnings + [warningMsg]);
          }
        }
        assert result == CheckParameter(rules, paramName, paramValue, before);
      }
      assert parameters.keys[..|parameters.keys|] == parameters.keys;
    }
  }
}
