/** Parsing of the protoc parameter string into the typed plugin
    configuration. */
module Config {
  import opened Wrappers
  import opened Strings
  import opened Collections
  import opened Validation

  datatype PluginConfig = PluginConfig(
    debugMode: bool,
    debugLevel: string,
    showGeneratedCode: bool,
    showTypeDetails: bool,
    outputSuffix: string,
    serverNamePattern: string,
    functionNamePattern: string,
    toolNameCase: string,
    includeComments: bool,
    errorFormat: string,
    streamMode: string,
    useRequestInterceptor: bool,
    grpcTarget: Option<string>,
    asyncMode: bool,
    insecureChannel: bool,
    grpcTimeout: int)

  /** `PluginConfig()` with every default. */
  const DefaultConfig := PluginConfig(
    false, "none", false, false,
    "_pb2_mcp.py", "{service}", "create_{service}_server",
    "snake", true, "standard", "collect", false,
    None, false, false, 30)

  datatype CodeGenerationOptions = CodeGenerationOptions(
    asyncMode: bool,
    includeComments: bool,
    toolNameCase: string,
    grpcTarget: Option<string>,
    insecureChannel: bool,
    grpcTimeout: int,
    streamMode: string,
    useRequestInterceptor: bool,
    showGeneratedCode: bool)

  // ---------------------------------------------------------------------
  // The parameter string

  /** What one comma-separated piece contributes: nothing when blank, a key
      and value split at the first `=` (both stripped), or a bare flag set
      to "true". */
  function ParamEntry(piece: string): (r: Option<(string, string)>)
    ensures r.None? <==> IsBlank(piece)
    ensures r.Some? && '=' !in piece ==> r.value == (Strip(piece), "true")
    ensures r.Some? && '=' in piece ==>
      exists key, value :: Strip(piece) == key + "=" + value && '=' !in key && r.value == (Strip(key), Strip(value))
  {
    var param := Strip(piece);
    StripKeeps(piece, '=');
    StripKeepsVisible(piece, '=');
    if param == "" then None
    else
      match SplitFirst(param, '=')
      case Some((key, value)) => Some((Strip(key), Strip(value)))
      case None =>
        Some((param, "true"))
  }

  function ParamEntries(pieces: seq<string>): (r: seq<Option<(string, string)>>)
    ensures |r| == |pieces|
    ensures forall i :: 0 <= i < |pieces| ==> r[i] == ParamEntry(pieces[i])
  {
    EntriesOf(ParamEntry, pieces)
  }

  /** One more piece performs its assignment, if any, last. */
  lemma ParsedStep(pieces: seq<string>, i: int)
    requires 0 <= i < |pieces|
    ensures ParamEntry(pieces[i]).None? ==>
      OrderedAssoc(ParamEntries(pieces[..i + 1])) == OrderedAssoc(ParamEntries(pieces[..i]))
    ensures ParamEntry(pieces[i]).Some? ==>
      OrderedAssoc(ParamEntries(pieces[..i + 1])) ==
      Insert(OrderedAssoc(ParamEntries(pieces[..i])), ParamEntry(pieces[i]).value.0, ParamEntry(pieces[i]).value.1)
  {
    EntriesOfSnoc(ParamEntry, pieces, i);
    OrderedAssocSnoc(ParamEntries(pieces[..i]), ParamEntry(pieces[i]));
  }

  /** The parameter dictionary of `parse_parameters`, with its order. */
  function ParsedParameters(parameterString: string): (d: OrderedMap<string>)
    ensures Valid(d)
  {
    if Strip(parameterString) == "" then OrderedMap([], map[])
    else OrderedAssoc(ParamEntries(SplitOn(parameterString, ',')))
  }

  /** A blank parameter string gives no parameters, and so would the loop. */
  lemma BlankGivesNoParameters(parameterString: string)
    requires IsBlank(parameterString)
    ensures ParsedParameters(parameterString).items == map[]
    ensures OrderedAssoc(ParamEntries(SplitOn(parameterString, ','))).items == map[]
  {
    var entries := ParamEntries(SplitOn(parameterString, ','));
    forall k ensures k !in Assoc(entries) {
      AssocHasKey(entries, k);
      if exists i :: Assigns(entries, i, k) {
        var i :| Assigns(entries, i, k);
        var piece := SplitOn(parameterString, ',')[i];
        SplitJoin(parameterString, ',');
        BlankPiece(SplitOn(parameterString, ','), i, parameterString);
        assert false;
      }
    }
  }

  /** Every piece of a blank string is blank. */
  lemma BlankPiece(pieces: seq<string>, i: int, s: string)
    requires IsBlank(s) && JoinWith(pieces, [',']) == s && 0 <= i < |pieces|
    ensures IsBlank(pieces[i])
    decreases |pieces|
  {
    if i > 0 {
      assert |pieces| >= 2;
      var rest := JoinWith(pieces[1..], [',']);
      assert s == pieces[0] + [','] + rest;
      assert forall j :: 0 <= j < |rest| ==> rest[j] == s[|pieces[0]| + 1 + j];
      BlankPiece(pieces[1..], i - 1, rest);
    } else if |pieces| >= 2 {
      assert s == pieces[0] + [','] + JoinWith(pieces[1..], [',']);
      assert forall j :: 0 <= j < |pieces[0]| ==> pieces[0][j] == s[j];
    }
  }

  /** A piece `key=value` whose key has no `=` splits at that first `=`: the
      rest of the piece, further `=` included, is the value. */
  lemma SplitsAtFirstEquals(key: string, value: string)
    requires key != [] && !IsSpace(key[0]) && !IsSpace(key[|key| - 1]) && '=' !in key
    requires value == [] || (!IsSpace(value[0]) && !IsSpace(value[|value| - 1]))
    ensures ParamEntry(key + "=" + value) == Some((key, value))
  {
    var piece := key + "=" + value;
    assert piece[0] == key[0];
    assert piece[|piece| - 1] == if value == [] then '=' else value[|value| - 1];
    StripTrimmed(piece);
    StripTrimmed(key);
    StripTrimmed(value);
    SplitFirstOf(key, '=', value);
  }

  /** "a=b=c" sets `a` to "b=c". */
  lemma ParamEntryExample()
    ensures ParamEntry("a=b=c") == Some(("a", "b=c"))
  {
    var key, value := "a", "b=c";
    assert key[0] == 'a' && value[0] == 'b' && value[2] == 'c';
    assert key + "=" + value == "a=b=c";
    SplitsAtFirstEquals(key, value);
  }

  // ---------------------------------------------------------------------
  // Typed configuration

  /** `dict.get(key, default)` */
  function Get(items: map<string, string>, key: string, default: string): (r: string)
    ensures key in items ==> r == items[key]
    ensures key !in items ==> r == default
  {
    if key in items then items[key] else default
  }

  /** `_get_boolean_param`: an absent or empty value gives the default;
      otherwise only "true", "1" and "yes", in any case, are true. */
  function GetBooleanParam(items: map<string, string>, key: string, default: bool): (r: bool)
    ensures r != default ==> key in items && items[key] != ""
    ensures key in items && Lower(items[key]) in ["true", "1", "yes"] ==> r
    ensures key in items && items[key] != "" && Lower(items[key]) !in ["true", "1", "yes"] ==> !r
  {
    var value := Lower(Get(items, key, ""));
    if value == "" then default else value in ["true", "1", "yes"]
  }

  lemma BooleanParamIff(items: map<string, string>, key: string, default: bool)
    ensures GetBooleanParam(items, key, default) <==>
      if key !in items || items[key] == "" then default
      else Lower(items[key]) == "true" || Lower(items[key]) == "1" || Lower(items[key]) == "yes"
  {
  }

  /** A flag written without a value is on. */
  lemma BareFlagIsTrue(key: string, default: bool)
    ensures GetBooleanParam(map[key := "true"], key, default)
  {
    assert Lower("true") == "true";
  }

  /** `_get_int_param`: an absent, empty or non-numeric value gives the
      default. */
  function GetIntParam(items: map<string, string>, key: string, default: int): (r: int)
    ensures r != default ==> key in items && ParseInt(items[key]) == Some(r)
    ensures key in items && ParseInt(items[key]).Some? ==> r == ParseInt(items[key]).value
  {
    if key !in items || items[key] == "" then default
    else
      match ParseInt(items[key])
      case None => default
      case Some(n) => n
  }

  /** The printed form of any number, zero and negatives included, comes
      back unchanged: no range is enforced here. */
  lemma IntParamRoundTrip(key: string, n: int, default: int)
    ensures GetIntParam(map[key := IntToString(n)], key, default) == n
  {
    ParseIntToString(n);
  }

  lemma IntParamDefaults(items: map<string, string>, key: string, default: int)
    ensures key !in items ==> GetIntParam(items, key, default) == default
    ensures key in items && ParseInt(items[key]).None? ==> GetIntParam(items, key, default) == default
    ensures key in items && ParseInt(items[key]).Some? ==> GetIntParam(items, key, default) == ParseInt(items[key]).value
  {
  }

  /** The lowered `debug` value, empty when absent. */
  function DebugValue(items: map<string, string>): string {
    Lower(Get(items, "debug", ""))
  }

  function DebugMode(items: map<string, string>): bool {
    DebugValue(items) in ["true", "1", "yes", "basic", "verbose", "trace"]
  }

  function DebugLevel(items: map<string, string>): (r: string)
    ensures r in ["none", "basic", "verbose", "trace"]
  {
    var debugValue := DebugValue(items);
    if debugValue in ["basic", "verbose", "trace"] then debugValue
    else if DebugMode(items) then "basic" else "none"
  }

  /** `_create_config_from_parameters` */
  function ConfigFromParameters(items: map<string, string>): (r: PluginConfig)
    ensures r.debugMode <==> r.debugLevel != "none"
    ensures r.grpcTarget.Some? <==> "grpc_target" in items
  {
    PluginConfig(
      debugMode := DebugMode(items),
      debugLevel := DebugLevel(items),
      showGeneratedCode := GetBooleanParam(items, "show_generated", false),
      showTypeDetails := GetBooleanParam(items, "show_types", false),
      outputSuffix := Get(items, "output_suffix", "_pb2_mcp.py"),
      serverNamePattern := Get(items, "server_name_pattern", "{service}"),
      functionNamePattern := Get(items, "function_name_pattern", "create_{service}_server"),
      toolNameCase := Get(items, "tool_name_case", "snake"),
      includeComments := GetBooleanParam(items, "include_comments", true),
      errorFormat := Get(items, "error_format", "standard"),
      streamMode := Get(items, "stream_mode", "collect"),
      useRequestInterceptor := GetBooleanParam(items, "request_interceptor", false),
      grpcTarget := if "grpc_target" in items then Some(items["grpc_target"]) else None,
      asyncMode := GetBooleanParam(items, "async", false),
      insecureChannel := GetBooleanParam(items, "insecure", false),
      grpcTimeout := GetIntParam(items, "timeout", 30))
  }

  /** A parameter that is not given keeps its `PluginConfig()` default. */
  lemma AbsentKeysGiveDefaults(items: map<string, string>)
    ensures "debug" !in items ==> !ConfigFromParameters(items).debugMode && ConfigFromParameters(items).debugLevel == DefaultConfig.debugLevel
    ensures "show_generated" !in items ==> ConfigFromParameters(items).showGeneratedCode == DefaultConfig.showGeneratedCode
    ensures "show_types" !in items ==> ConfigFromParameters(items).showTypeDetails == DefaultConfig.showTypeDetails
    ensures "output_suffix" !in items ==> ConfigFromParameters(items).outputSuffix == DefaultConfig.outputSuffix
    ensures "server_name_pattern" !in items ==> ConfigFromParameters(items).serverNamePattern == DefaultConfig.serverNamePattern
    ensures "function_name_pattern" !in items ==> ConfigFromParameters(items).functionNamePattern == DefaultConfig.functionNamePattern
    ensures "tool_name_case" !in items ==> ConfigFromParameters(items).toolNameCase == DefaultConfig.toolNameCase
    ensures "include_comments" !in items ==> ConfigFromParameters(items).includeComments == DefaultConfig.includeComments
    ensures "error_format" !in items ==> ConfigFromParameters(items).errorFormat == DefaultConfig.errorFormat
    ensures "stream_mode" !in items ==> ConfigFromParameters(items).streamMode == DefaultConfig.streamMode
    ensures "request_interceptor" !in items ==> ConfigFromParameters(items).useRequestInterceptor == DefaultConfig.useRequestInterceptor
    ensures "async" !in items ==> ConfigFromParameters(items).asyncMode == DefaultConfig.asyncMode
    ensures "insecure" !in items ==> ConfigFromParameters(items).insecureChannel == DefaultConfig.insecureChannel
    ensures "timeout" !in items ==> ConfigFromParameters(items).grpcTimeout == DefaultConfig.grpcTimeout
  {
    assert Lower("") == "";
  }

  /** A string setting that is given is taken as written, and so is the
      gRPC target. */
  lemma PresentKeysVerbatim(items: map<string, string>)
    ensures "output_suffix" in items ==> ConfigFromParameters(items).outputSuffix == items["output_suffix"]
    ensures "server_name_pattern" in items ==> ConfigFromParameters(items).serverNamePattern == items["server_name_pattern"]
    ensures "function_name_pattern" in items ==> ConfigFromParameters(items).functionNamePattern == items["function_name_pattern"]
    ensures "tool_name_case" in items ==> ConfigFromParameters(items).toolNameCase == items["tool_name_case"]
    ensures "error_format" in items ==> ConfigFromParameters(items).errorFormat == items["error_format"]
    ensures "stream_mode" in items ==> ConfigFromParameters(items).streamMode == items["stream_mode"]
    ensures "grpc_target" in items ==> ConfigFromParameters(items).grpcTarget == Some(items["grpc_target"])
  {
  }

  /** A flag that is given with a value is on exactly for "true", "1" or
      "yes" in any case; given empty, it keeps its default. A timeout that
      is given as an integer is taken, zero and negatives included. */
  lemma PresentFlagsParsed(items: map<string, string>)
    ensures "show_generated" in items && items["show_generated"] != "" ==>
      (ConfigFromParameters(items).showGeneratedCode <==> Lower(items["show_generated"]) in ["true", "1", "yes"])
    ensures "show_types" in items && items["show_types"] != "" ==>
      (ConfigFromParameters(items).showTypeDetails <==> Lower(items["show_types"]) in ["true", "1", "yes"])
    ensures "include_comments" in items && items["include_comments"] != "" ==>
      (ConfigFromParameters(items).includeComments <==> Lower(items["include_comments"]) in ["true", "1", "yes"])
    ensures "request_interceptor" in items && items["request_interceptor"] != "" ==>
      (ConfigFromParameters(items).useRequestInterceptor <==> Lower(items["request_interceptor"]) in ["true", "1", "yes"])
    ensures "async" in items && items["async"] != "" ==>
      (ConfigFromParameters(items).asyncMode <==> Lower(items["async"]) in ["true", "1", "yes"])
    ensures "insecure" in items && items["insecure"] != "" ==>
      (ConfigFromParameters(items).insecureChannel <==> Lower(items["insecure"]) in ["true", "1", "yes"])
    ensures "show_generated" in items && items["show_generated"] == "" ==> !ConfigFromParameters(items).showGeneratedCode
    ensures "show_types" in items && items["show_types"] == "" ==> !ConfigFromParameters(items).showTypeDetails
    ensures "include_comments" in items && items["include_comments"] == "" ==> ConfigFromParameters(items).includeComments
    ensures "request_interceptor" in items && items["request_interceptor"] == "" ==> !ConfigFromParameters(items).useRequestInterceptor
    ensures "async" in items && items["async"] == "" ==> !ConfigFromParameters(items).asyncMode
    ensures "insecure" in items && items["insecure"] == "" ==> !ConfigFromParameters(items).insecureChannel
    ensures "timeout" in items && ParseInt(items["timeout"]).Some? ==>
      ConfigFromParameters(items).grpcTimeout == ParseInt(items["timeout"]).value
    ensures "timeout" in items && ParseInt(items["timeout"]).None? ==> ConfigFromParameters(items).grpcTimeout == 30
  {
    assert Lower("") == "";
  }

  /** No parameters give exactly the default configuration, so the early
      return on a blank string agrees with the loop. */
  lemma NoParametersGiveDefaults()
    ensures ConfigFromParameters(map[]) == DefaultConfig
  {
    assert Lower("") == "";
  }

  /** Debugging is off exactly when the level is "none"; a recognised level
      word selects itself, any other switch-on word selects "basic". */
  lemma DebugLevelConsistent(items: map<string, string>)
    ensures !ConfigFromParameters(items).debugMode <==> ConfigFromParameters(items).debugLevel == "none"
    ensures DebugValue(items) in ["basic", "verbose", "trace"] ==> ConfigFromParameters(items).debugLevel == DebugValue(items)
    ensures DebugValue(items) in ["true", "1", "yes"] ==> ConfigFromParameters(items).debugLevel == "basic"
  {
  }

  /** Any case of a level word works: "VERBOSE" selects "verbose". */
  lemma DebugLevelExample()
    ensures ConfigFromParameters(map["debug" := "VERBOSE"]).debugLevel == "verbose"
    ensures ConfigFromParameters(map["debug" := "VERBOSE"]).debugMode
  {
    assert Lower("VERBOSE") == "verbose";
  }

  /** `create_code_generation_options`: the options copy nine fields of the
      configuration. */
  function CreateCodeGenerationOptions(config: PluginConfig): (r: CodeGenerationOptions)
    ensures r.asyncMode == config.asyncMode && r.includeComments == config.includeComments
    ensures r.toolNameCase == config.toolNameCase && r.grpcTarget == config.grpcTarget
    ensures r.insecureChannel == config.insecureChannel && r.grpcTimeout == config.grpcTimeout
    ensures r.streamMode == config.streamMode && r.useRequestInterceptor == config.useRequestInterceptor
    ensures r.showGeneratedCode == config.showGeneratedCode
  {
    CodeGenerationOptions(config.asyncMode, config.includeComments, config.toolNameCase,
      config.grpcTarget, config.insecureChannel, config.grpcTimeout, config.streamMode,
      config.useRequestInterceptor, config.showGeneratedCode)
  }

  /** The dictionary of the options test, written out by hand: one entry for
      each `key=value` pair of its parameter string. That this is the
      dictionary `parse_parameters` builds is not proved here. */
  const OptionsTestParameters := map[
    "async" := "true", "include_comments" := "false", "tool_name_case" := "camel",
    "grpc_target" := "api.example.com:443", "timeout" := "60", "stream_mode" := "skip",
    "request_interceptor" := "true", "show_generated" := "true"]

  /** The parameters of the options test: every copied field follows its
      parameter, and `insecure` keeps its default. */
  lemma OptionsExample()
    ensures CreateCodeGenerationOptions(ConfigFromParameters(OptionsTestParameters)) ==
      CodeGenerationOptions(true, false, "camel", Some("api.example.com:443"), false, 60, "skip", true, true)
  {
    OptionsTestFlags();
    OptionsTestTimeout();
    OptionsTestStrings();
  }

  lemma OptionsTestStrings()
    ensures Get(OptionsTestParameters, "tool_name_case", "snake") == "camel"
    ensures Get(OptionsTestParameters, "stream_mode", "collect") == "skip"
    ensures "grpc_target" in OptionsTestParameters && OptionsTestParameters["grpc_target"] == "api.example.com:443"
  {
  }

  lemma OptionsTestFlags()
    ensures GetBooleanParam(OptionsTestParameters, "async", false)
    ensures !GetBooleanParam(OptionsTestParameters, "include_comments", true)
    ensures GetBooleanParam(OptionsTestParameters, "request_interceptor", false)
    ensures GetBooleanParam(OptionsTestParameters, "show_generated", false)
    ensures !GetBooleanParam(OptionsTestParameters, "insecure", false)
  {
    assert Lower("true") == "true" && Lower("false") == "false";
  }

  lemma OptionsTestTimeout()
    ensures GetIntParam(OptionsTestParameters, "timeout", 30) == 60
  {
    assert "60"[..1] == "6" && "6"[..0] == "";
    assert AllDigits("60") && DigitsValue("60") == 60;
  }

  /** The options do not depend on debugging, naming or error format. */
  lemma OptionsIgnoreOtherFields(config: PluginConfig, other: PluginConfig)
    requires other == config.(debugMode := other.debugMode, debugLevel := other.debugLevel,
      showTypeDetails := other.showTypeDetails, outputSuffix := other.outputSuffix,
      serverNamePattern := other.serverNamePattern, functionNamePattern := other.functionNamePattern,
      errorFormat := other.errorFormat)
    ensures CreateCodeGenerationOptions(other) == CreateCodeGenerationOptions(config)
  {
  }

  /** The rank of a level in `level_hierarchy`; other words rank 0. */
  function LevelRank(level: string): (r: int)
    ensures 0 <= r <= 3
    ensures r == 0 <==> level != "basic" && level != "verbose" && level != "trace"
  {
    if level == "basic" then 1
    else if level == "verbose" then 2
    else if level == "trace" then 3
    else 0
  }

  /** `should_log_level` */
  predicate ShouldLogLevel(config: PluginConfig, level: string)
    ensures ShouldLogLevel(config, level) ==> config.debugMode
    ensures config.debugMode && config.debugLevel == "trace" ==> ShouldLogLevel(config, level)
    ensures config.debugMode && LevelRank(level) == 0 ==> ShouldLogLevel(config, level)
    ensures level == "trace" && config.debugLevel != "trace" ==> !ShouldLogLevel(config, level)
  {
    config.debugMode && LevelRank(config.debugLevel) >= LevelRank(level)
  }

  /** Nothing is logged with debugging off; with it on, a level that is
      logged makes every lower level logged too, and an unknown level is
      always logged. A configuration with debugging on and a configured
      level at least as high logs everything `config` logs. */
  lemma ShouldLogMonotone(config: PluginConfig, lower: string, higher: string, louder: PluginConfig)
    ensures !config.debugMode ==> !ShouldLogLevel(config, higher)
    ensures ShouldLogLevel(config, higher) && LevelRank(lower) <= LevelRank(higher) ==> ShouldLogLevel(config, lower)
    ensures config.debugMode && LevelRank(lower) == 0 ==> ShouldLogLevel(config, lower)
    ensures louder.debugMode && LevelRank(config.debugLevel) <= LevelRank(louder.debugLevel) ==>
      (ShouldLogLevel(config, higher) ==> ShouldLogLevel(louder, higher))
  {
  }

  /** At level "basic" verbose messages are suppressed; at "trace" all are shown. */
  lemma ShouldLogExamples(items: map<string, string>)
    ensures ConfigFromParameters(items).debugLevel == "basic" ==>
      ShouldLogLevel(ConfigFromParameters(items), "basic") && !ShouldLogLevel(ConfigFromParameters(items), "verbose")
    ensures ConfigFromParameters(items).debugLevel == "trace" ==>
      ShouldLogLevel(ConfigFromParameters(items), "verbose") && ShouldLogLevel(ConfigFromParameters(items), "trace")
  {
  }

  // ---------------------------------------------------------------------
  // The manager object

  class ConfigManager {
    var config: PluginConfig
    var parameters: OrderedMap<string>

    constructor ()
      ensures config == DefaultConfig && parameters == OrderedMap([], map[])
    {
      config := DefaultConfig;
      parameters := OrderedMap([], map[]);
    }

    /** `parse_parameters`: the validation result is computed and not used. */
    method ParseParameters(parameterString: string) returns (c: PluginConfig)
      modifies this
      ensures parameters == ParsedParameters(parameterString)
      ensures config == ConfigFromParameters(ParsedParameters(parameterString).items)
      ensures c == config
    {
      parameters := OrderedMap([], map[]);
      if Strip(parameterString) == "" {
        config := DefaultConfig;
        NoParametersGiveDefaults();
        return config;
      }
      var pieces := SplitOn(parameterString, ',');
      for i := 0 to |pieces|
        invariant parameters == OrderedAssoc(ParamEntries(pieces[..i]))
      {
        ParsedStep(pieces, i);
        var param := Strip(pieces[i]);
        if param == "" {
          continue;
        }
        if '=' in param {
          var split := SplitFirst(param, '=');
          var key, value := split.value.0, split.value.1;
          parameters := Insert(parameters, Strip(key), Strip(value));
        } else {
          parameters := Insert(parameters, param, "true");
        }
      }
      assert pieces[..|pieces|] == pieces;
      var validator := new ParameterValidator(ValidationRules);
      var result := validator.Validate(parameters);
      config := ConfigFromParameters(parameters.items);
      return config;
    }
  }
}
