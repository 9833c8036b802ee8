/** Naming conversions, the detailed error report and the scan for optional
    request fields. */
module Utils {
  import opened Wrappers
  import opened Strings
  import opened Descriptors
  import opened TypeAnalyzer

  // ---------------------------------------------------------------------
  // Naming

  /** The snake_case form: every character lowered, with "_" before each
      upper-case letter that is not the first character. */
  function SnakeOf(name: string): string
    decreases |name|
  {
    if name == [] then []
    else
      var n := |name| - 1;
      SnakeOf(name[..n]) + (if IsUpper(name[n]) && n > 0 then "_" else "") + [LowerChar(name[n])]
  }

  /** `NamingUtils.camel_to_snake` */
  method CamelToSnake(name: string) returns (r: string)
    ensures r == SnakeOf(name)
  {
    var result: string := [];
    for i := 0 to |name|
      invariant result == SnakeOf(name[..i])
    {
      var c := name[i];
      assert name[..i + 1][..i] == name[..i];
      if IsUpper(c) && i > 0 {
        result := result + "_";
      }
      result := result + [LowerChar(c)];
    }
    assert name[..|name|] == name;
    r := result;
  }

  /** The number of upper-case letters after the first character. */
  function InnerUpperCount(name: string): nat
    decreases |name|
  {
    if |name| <= 1 then 0
    else InnerUpperCount(name[..|name| - 1]) + (if IsUpper(name[|name| - 1]) then 1 else 0)
  }

  /** No upper-case letter survives, and the result grows by one "_" per
      upper-case letter after the first character. */
  lemma {:induction false} SnakeShape(name: string)
    ensures forall i :: 0 <= i < |SnakeOf(name)| ==> !IsUpper(SnakeOf(name)[i])
    ensures |SnakeOf(name)| == |name| + InnerUpperCount(name)
    decreases |name|
  {
    if name != [] {
      var n := |name| - 1;
      SnakeShape(name[..n]);
      var head := SnakeOf(name[..n]);
      var tail := (if IsUpper(name[n]) && n > 0 then "_" else "") + [LowerChar(name[n])];
      assert SnakeOf(name) == head + tail;
      assert InnerUpperCount(name) == InnerUpperCount(name[..n]) + |tail| - 1;
      forall i | 0 <= i < |head + tail| ensures !IsUpper((head + tail)[i]) {
        if i < |head| {
          assert (head + tail)[i] == head[i];
        } else {
          assert (head + tail)[i] == tail[i - |head|];
        }
      }
    }
  }

  /** A name without upper-case letters is already snake_case. */
  lemma {:induction false} SnakeOfLower(name: string)
    requires forall i :: 0 <= i < |name| ==> !IsUpper(name[i])
    ensures SnakeOf(name) == name
    decreases |name|
  {
    if name != [] {
      var n := |name| - 1;
      SnakeOfLower(name[..n]);
      assert name[..n] + [name[n]] == name;
    }
  }

  /** Each upper-case letter of an acronym gets its own "_". */
  lemma SnakeExamples()
    ensures SnakeOf("IDs") == "i_ds"
    ensures SnakeOf("Ok") == "ok"
  {
    assert "IDs"[..2] == "ID" && "ID"[..1] == "I" && "I"[..0] == [];
    assert "Ok"[..1] == "O";
  }

  /** `NamingUtils.convert_tool_name` */
  function ConvertToolName(methodName: string, caseType: string): (r: string)
    ensures |r| >= |methodName|
    ensures caseType == "pascal" ==> r == methodName
    ensures caseType != "camel" && caseType != "pascal" ==> forall i :: 0 <= i < |r| ==> !IsUpper(r[i])
  {
    SnakeShape(methodName);
    ReplaceChar(SnakeOf(methodName), '_', '-');
    if caseType == "snake" then SnakeOf(methodName)
    else if caseType == "camel" then
      (if methodName != "" then [LowerChar(methodName[0])] + methodName[1..] else "")
    else if caseType == "pascal" then methodName
    else if caseType == "kebab" then Replace(SnakeOf(methodName), "_", "-")
    else SnakeOf(methodName)
  }

  /** The empty name stays empty in every style. */
  lemma ConvertEmpty(caseType: string)
    ensures ConvertToolName("", caseType) == ""
  {
    ReplaceChar("", '_', '-');
  }

  /** What each style does: camel lowers the first character only, pascal
      keeps the name, kebab is snake with "-" for "_", and an unknown style
      is snake. */
  lemma ConvertStyles(methodName: string, caseType: string)
    ensures caseType == "pascal" ==> ConvertToolName(methodName, caseType) == methodName
    ensures caseType == "camel" && methodName != "" ==>
      |ConvertToolName(methodName, caseType)| == |methodName| &&
      ConvertToolName(methodName, caseType)[0] == LowerChar(methodName[0]) &&
      !IsUpper(ConvertToolName(methodName, caseType)[0]) &&
      ConvertToolName(methodName, caseType)[1..] == methodName[1..]
    ensures caseType == "kebab" ==>
      var snake := SnakeOf(methodName);
      var r := ConvertToolName(methodName, caseType);
      |r| == |snake| && '_' !in r &&
      forall i :: 0 <= i < |snake| ==> r[i] == if snake[i] == '_' then '-' else snake[i]
    ensures caseType !in ["camel", "pascal", "kebab"] ==> ConvertToolName(methodName, caseType) == SnakeOf(methodName)
  {
    ReplaceChar(SnakeOf(methodName), '_', '-');
  }

  lemma ConvertExamples()
    ensures ConvertToolName("IDs", "snake") == "i_ds"
    ensures ConvertToolName("IDs", "kebab") == "i-ds"
    ensures ConvertToolName("IDs", "camel") == "iDs"
    ensures ConvertToolName("IDs", "pascal") == "IDs"
    ensures ConvertToolName("IDs", "other") == "i_ds"
  {
    SnakeExamples();
    ReplaceChar("i_ds", '_', '-');
  }

  // ---------------------------------------------------------------------
  // The detailed error report

  /** An exception as the report sees it: the name of its class and its
      message. */
  datatype Exception = Exception(typeName: string, message: string)

  const AttributeErrorHints: seq<string> := [
    "Troubleshooting: This may indicate a malformed proto file or unsupported proto feature.",
    "Try: Verify your proto file syntax with 'protoc --decode_raw < file.proto'"]
  const KeyErrorHints: seq<string> := [
    "Troubleshooting: Missing required proto elements or invalid references.",
    "Try: Check that all message types and services are properly defined."]
  const ValueErrorHints: seq<string> := [
    "Troubleshooting: Invalid parameter values or proto content.",
    "Try: Review plugin parameters and proto file structure."]
  const ImportErrorHints: seq<string> := [
    "Troubleshooting: Missing dependencies or installation issues.",
    "Try: Run 'pip install protoc-gen-py-mcp[dev]' to ensure all dependencies."]

  /** The troubleshooting lines, chosen by the first class-name fragment the
      name of the exception's class contains. */
  function TroubleshootingLines(errorType: string): seq<string> {
    if Contains(errorType, "AttributeError") then AttributeErrorHints
    else if Contains(errorType, "KeyError") then KeyErrorHints
    else if Contains(errorType, "ValueError") then ValueErrorHints
    else if Contains(errorType, "ImportError") || Contains(errorType, "ModuleNotFoundError") then ImportErrorHints
    else []
  }

  /** There are no troubleshooting lines exactly when none of the five
      fragments occurs, and otherwise two, with the fragments tried in order. */
  lemma TroubleshootingCases(errorType: string)
    ensures TroubleshootingLines(errorType) == [] <==>
      !Contains(errorType, "AttributeError") && !Contains(errorType, "KeyError") &&
      !Contains(errorType, "ValueError") && !Contains(errorType, "ImportError") &&
      !Contains(errorType, "ModuleNotFoundError")
    ensures TroubleshootingLines(errorType) != [] ==> |TroubleshootingLines(errorType)| == 2
    ensures Contains(errorType, "AttributeError") ==> TroubleshootingLines(errorType) == AttributeErrorHints
    ensures !Contains(errorType, "AttributeError") && Contains(errorType, "KeyError") ==>
      TroubleshootingLines(errorType) == KeyErrorHints
    ensures !Contains(errorType, "AttributeError") && !Contains(errorType, "KeyError") && Contains(errorType, "ValueError") ==>
      TroubleshootingLines(errorType) == ValueErrorHints
    ensures !Contains(errorType, "AttributeError") && !Contains(errorType, "KeyError") && !Contains(errorType, "ValueError") ==>
      (Contains(errorType, "ImportError") || Contains(errorType, "ModuleNotFoundError") ==>
       TroubleshootingLines(errorType) == ImportErrorHints)
  {
  }

  const DebugSuggestions: seq<string> := [
    "",
    "Debug suggestions:",
    "1. Enable debug mode: --py-mcp_opt=\"debug=verbose\"",
    "2. Check proto file: protoc --decode_raw < your_file.proto",
    "3. Verify installation: protoc-gen-py-mcp --version",
    "4. Review documentation: PLUGIN_PARAMETERS.md"
  ]

  const StackTraceHeading := "Stack trace (debug mode):"

  /** The lines of the report, before they are joined by newlines; the
      traceback text is given by the caller. */
  function ErrorContextLines(fileName: string, exception: Exception, debugMode: bool, traceback: string): seq<string> {
    ["File processing failed: " + fileName,
     "Error type: " + exception.typeName,
     "Error message: " + exception.message]
    + TroubleshootingLines(exception.typeName)
    + DebugSuggestions
    + (if debugMode then ["", StackTraceHeading, traceback] else [])
  }

  /** `ErrorUtils.create_detailed_error_context` */
  method CreateDetailedErrorContext(fileName: string, exception: Exception, debugMode: bool, traceback: string)
    returns (r: string)
    ensures r == JoinWith(ErrorContextLines(fileName, exception, debugMode, traceback), "\n")
  {
    var errorType := exception.typeName;
    var errorMessage := exception.message;
    var contextParts := [
      "File processing failed: " + fileName,
      "Error type: " + errorType,
      "Error message: " + errorMessage];
    ghost var header := contextParts;
    if Contains(errorType, "AttributeError") {
      contextParts := contextParts + [AttributeErrorHints[0]];
      contextParts := contextParts + [AttributeErrorHints[1]];
    } else if Contains(errorType, "KeyError") {
      contextParts := contextParts + [KeyErrorHints[0]];
      contextParts := contextParts + [KeyErrorHints[1]];
    } else if Contains(errorType, "ValueError") {
      contextParts := contextParts + [ValueErrorHints[0]];
      contextParts := contextParts + [ValueErrorHints[1]];
    } else if Contains(errorType, "ImportError") || Contains(errorType, "ModuleNotFoundError") {
      contextParts := contextParts + [ImportErrorHints[0]];
      contextParts := contextParts + [ImportErrorHints[1]];
    }
    assert contextParts == header + TroubleshootingLines(errorType);
    contextParts := contextParts + DebugSuggestions;
    if debugMode {
      contextParts := contextParts + ["", StackTraceHeading, traceback];
    }
    assert contextParts == ErrorContextLines(fileName, exception, debugMode, traceback);
    r := JoinWith(contextParts, "\n");
  }

  /** The report opens with the file, the class and the message, and always
      holds the debug suggestions. */
  lemma ErrorContextShape(fileName: string, exception: Exception, debugMode: bool, traceback: string)
    ensures var lines := ErrorContextLines(fileName, exception, debugMode, traceback);
      |lines| >= 9 &&
      lines[0] == "File processing failed: " + fileName &&
      lines[1] == "Error type: " + exception.typeName &&
      lines[2] == "Error message: " + exception.message &&
      "Debug suggestions:" in lines
  {
    var lines := ErrorContextLines(fileName, exception, debugMode, traceback);
    var k := 3 + |TroubleshootingLines(exception.typeName)|;
    assert lines[k + 1] == DebugSuggestions[1];
  }

  /** The joined report opens with the file line and mentions the class, the
      message and, in debug mode, the traceback. */
  lemma ErrorReportMentions(fileName: string, exception: Exception, debugMode: bool, traceback: string)
    ensures var r := JoinWith(ErrorContextLines(fileName, exception, debugMode, traceback), "\n");
      StartsWith(r, "File processing failed: " + fileName) &&
      Contains(r, "Error type: " + exception.typeName) &&
      Contains(r, "Error message: " + exception.message) &&
      (debugMode ==> Contains(r, traceback))
  {
    var lines := ErrorContextLines(fileName, exception, debugMode, traceback);
    ErrorContextShape(fileName, exception, debugMode, traceback);
    ReportEnding(fileName, exception, debugMode, traceback);
    assert debugMode ==> lines[|lines| - 1] == traceback by {
      if debugMode {
        assert lines[|lines| - 3..][2] == traceback;
      }
    }
    JoinWithHead(lines, "\n");
    JoinedPartsOccur("", lines, "\n");
    assert "" + JoinWith(lines, "\n") == JoinWith(lines, "\n");
  }

  /** In debug mode the report ends with the stack-trace section; otherwise
      it ends with the debug suggestions. */
  lemma ReportEnding(fileName: string, exception: Exception, debugMode: bool, traceback: string)
    ensures var lines := ErrorContextLines(fileName, exception, debugMode, traceback);
      |lines| == 3 + |TroubleshootingLines(exception.typeName)| + |DebugSuggestions| + (if debugMode then 3 else 0) &&
      (debugMode ==> lines[|lines| - 3..] == ["", StackTraceHeading, traceback]) &&
      (!debugMode ==> lines[|lines| - |DebugSuggestions|..] == DebugSuggestions)
  {
  }

  // ---------------------------------------------------------------------
  // Optional request fields

  /** `ProtoUtils.has_optional_fields`: whether the input message of some
      method of some service has an optional field, by the given analysis;
      it stops at the first one. */
  method HasOptionalInputFields(file: ProtoFile, analyzeMessageFields: string -> seq<FieldInfo>) returns (b: bool)
    ensures b <==> exists i, j :: (0 <= i < |file.services| && 0 <= j < |file.services[i].methods| &&
      SomeOptional(analyzeMessageFields(file.services[i].methods[j].inputType)))
  {
    for i := 0 to |file.services|
      invariant forall k, j :: 0 <= k < i && 0 <= j < |file.services[k].methods| ==>
        !SomeOptional(analyzeMessageFields(file.services[k].methods[j].inputType))
    {
      var service := file.services[i];
      for j := 0 to |service.methods|
        invariant forall k, l :: 0 <= k < i && 0 <= l < |file.services[k].methods| ==>
          !SomeOptional(analyzeMessageFields(file.services[k].methods[l].inputType))
        invariant forall l :: 0 <= l < j ==> !SomeOptional(analyzeMessageFields(service.methods[l].inputType))
      {
        var rpc := service.methods[j];
        var inputFields := analyzeMessageFields(rpc.inputType);
        for f := 0 to |inputFields|
          invariant forall g :: 0 <= g < f ==> !inputFields[g].optional
        {
          if inputFields[f].optional {
            return true;
          }
        }
      }
    }
    return false;
  }
}
