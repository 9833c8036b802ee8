/** The plugin driver: parameters, the type index, and one output file per
    requested proto file that has services. */
module Plugin {
  import opened Wrappers
  import opened Strings
  import opened Descriptors
  import Collections
  import TypeAnalyzer
  import Indexer
  import Config
  import Utils

  /** `CodeGeneratorResponse.Feature.FEATURE_PROTO3_OPTIONAL` */
  const FeatureProto3Optional := 1

  const DefaultOutputFileSuffix := "_pb2_mcp.py"

  const UninitializedContent := "# Error: CodeGenerator not initialized"

  /** `CodeGeneratorResponse.File` */
  datatype ResponseFile = ResponseFile(name: string, content: string)

  /** `CodeGeneratorResponse`: the files are appended to and the error is
      assigned. */
  class CodeGeneratorResponse {
    var file: seq<ResponseFile>
    var error: string
    var supportedFeatures: int

    constructor ()
      ensures file == [] && error == "" && supportedFeatures == 0
    {
      file, error, supportedFeatures := [], "", 0;
    }

    /** The part of the response that file handling changes. */
    function State(): ResponseState
      reads this
    {
      ResponseState(file, error)
    }
  }

  datatype ResponseState = ResponseState(files: seq<ResponseFile>, error: string)

  /** The code generator as the plugin builds it: from the config and the
      type tables. */
  datatype CodeGenerator = CodeGenerator(config: Config.PluginConfig, types: TypeIndex)

  /** An exception raised while emitting, with the traceback text it would
      print. */
  datatype Raised = Raised(exception: Utils.Exception, traceback: string)

  /** `CodeGenerator.generate_file_content`: the emitter, given by the
      caller, either produces the file's text or raises. */
  type Emitter = (CodeGenerator, ProtoFile) -> Result<string, Raised>

  /** The output file name: every ".proto" replaced by the suffix. */
  function OutputName(protoName: string, suffix: string): (r: string)
    ensures !Contains(protoName, ".proto") ==> r == protoName
  {
    if Contains(protoName, ".proto") then Replace(protoName, ".proto", suffix)
    else ReplaceAbsent(protoName, ".proto", suffix); Replace(protoName, ".proto", suffix)
  }

  /** The detailed error text for a file whose emission raised. */
  function ErrorContext(fileName: string, raised: Raised, debugMode: bool): (r: string)
    ensures StartsWith(r, "File processing failed: " + fileName)
    ensures Contains(r, "Error type: " + raised.exception.typeName)
    ensures Contains(r, "Error message: " + raised.exception.message)
    ensures debugMode ==> Contains(r, raised.traceback)
  {
    var lines := Utils.ErrorContextLines(fileName, raised.exception, debugMode, raised.traceback);
    Utils.ErrorReportMentions(fileName, raised.exception, debugMode, raised.traceback);
    JoinWith(lines, "\n")
  }

  /** The response after handling one file. */
  function HandledFile(st: ResponseState, protoFile: ProtoFile, suffix: string,
                       generator: Option<CodeGenerator>, debugMode: bool, emit: Emitter): (r: ResponseState)
    ensures st.files <= r.files && |r.files| <= |st.files| + 1
    ensures |r.files| > |st.files| ==> r.files[|st.files|].name == OutputName(protoFile.name, suffix)
    ensures r.error != st.error ==>
      protoFile.services != [] && generator.Some? && emit(generator.value, protoFile).Failure? && r.files == st.files
  {
    if protoFile.services == [] then st
    else
      var name := OutputName(protoFile.name, suffix);
      match generator
      case None => ResponseState(st.files + [ResponseFile(name, UninitializedContent)], st.error)
      case Some(g) =>
        match emit(g, protoFile)
        case Success(content) => ResponseState(st.files + [ResponseFile(name, content)], st.error)
        case Failure(raised) => ResponseState(st.files, ErrorContext(protoFile.name, raised, debugMode))
  }

  /** The response after the loop of `generate`: the requested files are
      handled in the order of the request, the others skipped. */
  function Generated(st: ResponseState, files: seq<ProtoFile>, requested: set<string>, suffix: string,
                     generator: Option<CodeGenerator>, debugMode: bool, emit: Emitter): (r: ResponseState)
    ensures st.files <= r.files
    ensures forall i :: |st.files| <= i < |r.files| ==> OutputOfRequested(r.files[i].name, files, requested, suffix)
    decreases |files|
  {
    if files == [] then st
    else
      var n := |files| - 1;
      var before := Generated(st, files[..n], requested, suffix, generator, debugMode, emit);
      assert forall i :: |st.files| <= i < |before.files| ==> OutputOfRequested(before.files[i].name, files, requested, suffix) by {
        forall i | |st.files| <= i < |before.files| ensures OutputOfRequested(before.files[i].name, files, requested, suffix) {
          OutputOfPrefix(before.files[i].name, files, n, requested, suffix);
        }
      }
      assert files[n].name in requested ==> OutputOfRequested(OutputName(files[n].name, suffix), files, requested, suffix);
      if files[n].name in requested then HandledFile(before, files[n], suffix, generator, debugMode, emit)
      else before
  }

  /** `name` is the output name of some requested file of `files`. */
  ghost predicate OutputOfRequested(name: string, files: seq<ProtoFile>, requested: set<string>, suffix: string) {
    exists j :: 0 <= j < |files| && files[j].name in requested && name == OutputName(files[j].name, suffix)
  }

  /** An output name of a requested file among the first `n` files is one of
      all the files. */
  lemma OutputOfPrefix(name: string, files: seq<ProtoFile>, n: int, requested: set<string>, suffix: string)
    requires 0 <= n <= |files|
    requires OutputOfRequested(name, files[..n], requested, suffix)
    ensures OutputOfRequested(name, files, requested, suffix)
  {
    var j :| 0 <= j < n && files[..n][j].name in requested && name == OutputName(files[..n][j].name, suffix);
    assert files[..n][j] == files[j];
  }

  /** `set(request.file_to_generate)` */
  function RequestedNames(request: Request): (r: set<string>)
    ensures forall n :: n in r <==> n in request.fileToGenerate
  {
    set n | n in request.fileToGenerate
  }

  /** One more step of the generate loop. */
  lemma GeneratedSnoc(st: ResponseState, files: seq<ProtoFile>, i: nat, requested: set<string>, suffix: string,
                      generator: Option<CodeGenerator>, debugMode: bool, emit: Emitter)
    requires i < |files|
    ensures var before := Generated(st, files[..i], requested, suffix, generator, debugMode, emit);
      Generated(st, files[..i + 1], requested, suffix, generator, debugMode, emit) ==
      if files[i].name in requested then HandledFile(before, files[i], suffix, generator, debugMode, emit) else before
  {
    assert files[..i + 1][..i] == files[..i];
  }

  /** The requested files, in order. */
  function RequestedFiles(files: seq<ProtoFile>, requested: set<string>): (r: seq<ProtoFile>)
    ensures forall f :: f in r <==> f in files && f.name in requested
    decreases |files|
  {
    if files == [] then []
    else
      var n := |files| - 1;
      RequestedFiles(files[..n], requested) + (if files[n].name in requested then [files[n]] else [])
  }

  /** Every file handled, in order. */
  function HandledAll(st: ResponseState, files: seq<ProtoFile>, suffix: string,
                      generator: Option<CodeGenerator>, debugMode: bool, emit: Emitter): ResponseState
    decreases |files|
  {
    if files == [] then st
    else HandledAll(HandledFile(st, files[0], suffix, generator, debugMode, emit), files[1..], suffix, generator, debugMode, emit)
  }

  // ---------------------------------------------------------------------
  // Properties of file handling

  /** A file without services changes nothing. */
  lemma NoServicesNoChange(st: ResponseState, protoFile: ProtoFile, suffix: string,
                           generator: Option<CodeGenerator>, debugMode: bool, emit: Emitter)
    requires protoFile.services == []
    ensures HandledFile(st, protoFile, suffix, generator, debugMode, emit) == st
  {
  }

  /** A file with services appends exactly one entry, named after the proto
      file, unless emission raises; then no entry is appended and the error
      is overwritten with the detailed context. */
  lemma HandledFileOutcome(st: ResponseState, protoFile: ProtoFile, suffix: string,
                           generator: Option<CodeGenerator>, debugMode: bool, emit: Emitter)
    requires protoFile.services != []
    ensures var r := HandledFile(st, protoFile, suffix, generator, debugMode, emit);
      var name := OutputName(protoFile.name, suffix);
      (generator.None? ==> r == ResponseState(st.files + [ResponseFile(name, UninitializedContent)], st.error)) &&
      (generator.Some? && emit(generator.value, protoFile).Success? ==>
        r == ResponseState(st.files + [ResponseFile(name, emit(generator.value, protoFile).value)], st.error)) &&
      (generator.Some? && emit(generator.value, protoFile).Failure? ==>
        r.files == st.files &&
        r.error == ErrorContext(protoFile.name, emit(generator.value, protoFile).error, debugMode))
  {
  }

  /** Handling appends at most one file and never removes one. */
  lemma HandledFileGrows(st: ResponseState, protoFile: ProtoFile, suffix: string,
                         generator: Option<CodeGenerator>, debugMode: bool, emit: Emitter)
    ensures var r := HandledFile(st, protoFile, suffix, generator, debugMode, emit);
      st.files <= r.files && |r.files| <= |st.files| + 1
  {
  }

  /** The name of "stem.proto", for a stem without dots, is the stem with
      the suffix. */
  lemma OutputNameOfStem(stem: string, suffix: string)
    requires '.' !in stem
    ensures OutputName(stem + ".proto", suffix) == stem + suffix
  {
    ReplaceTrailing(stem, ".proto", suffix);
  }

  /** The generate loop is the same as handling exactly the requested files,
      in the order of the request. */
  lemma {:induction false} GeneratedIsRequestedHandled(st: ResponseState, files: seq<ProtoFile>, requested: set<string>,
                                                       suffix: string, generator: Option<CodeGenerator>, debugMode: bool, emit: Emitter)
    ensures Generated(st, files, requested, suffix, generator, debugMode, emit) ==
            HandledAll(st, RequestedFiles(files, requested), suffix, generator, debugMode, emit)
    decreases |files|
  {
    if files != [] {
      var n := |files| - 1;
      GeneratedIsRequestedHandled(st, files[..n], requested, suffix, generator, debugMode, emit);
      var before := RequestedFiles(files[..n], requested);
      if files[n].name in requested {
        HandledAllSnoc(st, before, files[n], suffix, generator, debugMode, emit);
      } else {
        assert RequestedFiles(files, requested) == before + [];
        assert before + [] == before;
      }
    }
  }

  /** Handling one more file at the end. */
  lemma {:induction false} HandledAllSnoc(st: ResponseState, files: seq<ProtoFile>, f: ProtoFile, suffix: string,
                                          generator: Option<CodeGenerator>, debugMode: bool, emit: Emitter)
    ensures HandledAll(st, files + [f], suffix, generator, debugMode, emit) ==
            HandledFile(HandledAll(st, files, suffix, generator, debugMode, emit), f, suffix, generator, debugMode, emit)
    decreases |files|
  {
    if files == [] {
      assert HandledAll(HandledFile(st, f, suffix, generator, debugMode, emit), [], suffix, generator, debugMode, emit)
          == HandledFile(st, f, suffix, generator, debugMode, emit);
    } else {
      assert (files + [f])[1..] == files[1..] + [f];
      HandledAllSnoc(HandledFile(st, files[0], suffix, generator, debugMode, emit), files[1..], f,
                     suffix, generator, debugMode, emit);
    }
  }

  /** Files that are not requested leave the response as it was. */
  lemma {:induction false} NothingRequested(st: ResponseState, files: seq<ProtoFile>, requested: set<string>,
                                            suffix: string, generator: Option<CodeGenerator>, debugMode: bool, emit: Emitter)
    requires forall i :: 0 <= i < |files| ==> files[i].name !in requested
    ensures Generated(st, files, requested, suffix, generator, debugMode, emit) == st
    decreases |files|
  {
    if files != [] {
      NothingRequested(st, files[..|files| - 1], requested, suffix, generator, debugMode, emit);
    }
  }

  /** The loop only appends, at most one entry per file. */
  lemma {:induction false} GeneratedGrows(st: ResponseState, files: seq<ProtoFile>, requested: set<string>,
                                          suffix: string, generator: Option<CodeGenerator>, debugMode: bool, emit: Emitter)
    ensures var r := Generated(st, files, requested, suffix, generator, debugMode, emit);
      st.files <= r.files && |r.files| <= |st.files| + |files|
    decreases |files|
  {
    if files != [] {
      var n := |files| - 1;
      GeneratedGrows(st, files[..n], requested, suffix, generator, debugMode, emit);
      HandledFileGrows(Generated(st, files[..n], requested, suffix, generator, debugMode, emit), files[n],
                       suffix, generator, debugMode, emit);
    }
  }

  /** A failing file does not stop the loop: when the first of two requested
      files raises and the second emits, the response holds the second file
      and the error of the first. */
  lemma FailureThenSuccess(st: ResponseState, a: ProtoFile, b: ProtoFile, requested: set<string>,
                           suffix: string, g: CodeGenerator, debugMode: bool, emit: Emitter)
    requires a.name in requested && b.name in requested
    requires a.services != [] && b.services != []
    requires emit(g, a).Failure? && emit(g, b).Success?
    ensures Generated(st, [a, b], requested, suffix, Some(g), debugMode, emit) ==
      ResponseState(st.files + [ResponseFile(OutputName(b.name, suffix), emit(g, b).value)],
                    ErrorContext(a.name, emit(g, a).error, debugMode))
  {
    assert [a, b][..1] == [a];
    assert [a][..0] == [];
    var afterA := HandledFile(st, a, suffix, Some(g), debugMode, emit);
    assert afterA == ResponseState(st.files, ErrorContext(a.name, emit(g, a).error, debugMode));
    assert Generated(st, [a], requested, suffix, Some(g), debugMode, emit) == afterA;
  }

  // ---------------------------------------------------------------------
  // The plugin

  /** `McpPlugin` */
  class McpPlugin {
    var configManager: Config.ConfigManager
    var config: Config.PluginConfig
    var debugMode: bool
    var debugLevel: string
    var protobufIndexer: Indexer.ProtobufIndexer
    var typeAnalyzer: Option<TypeIndex>
    var codeGenerator: Option<CodeGenerator>

    constructor ()
      ensures fresh(configManager) && fresh(protobufIndexer)
      ensures config == Config.DefaultConfig
      ensures debugMode == config.debugMode && debugLevel == config.debugLevel
      ensures protobufIndexer.Index() == TypeIndex(map[], map[])
      ensures protobufIndexer.filePackages == map[] && protobufIndexer.sourceComments == map[]
      ensures configManager.config == Config.DefaultConfig && configManager.parameters == Collections.OrderedMap([], map[])
      ensures typeAnalyzer == None && codeGenerator == None
    {
      configManager := new Config.ConfigManager();
      config := Config.DefaultConfig;
      debugMode := Config.DefaultConfig.debugMode;
      debugLevel := Config.DefaultConfig.debugLevel;
      protobufIndexer := new Indexer.ProtobufIndexer();
      typeAnalyzer := None;
      codeGenerator := None;
    }

    /** `_has_optional_fields`: false before the type index is built. */
    method HasOptionalFields(protoFile: ProtoFile) returns (b: bool)
      ensures b <==> typeAnalyzer.Some? && exists i :: (0 <= i < |protoFile.messageTypes| &&
        TypeAnalyzer.SomeOptional(TypeAnalyzer.AnalyzedFields(typeAnalyzer.value,
          QualifiedName(protoFile.package, "", protoFile.messageTypes[i].name))))
    {
      if typeAnalyzer.Some? {
        b := TypeAnalyzer.HasOptionalFields(typeAnalyzer.value, protoFile);
      } else {
        b := false;
      }
    }

    /** A new, empty indexer in place of the old one. */
    method ResetIndexer()
      modifies this
      ensures fresh(protobufIndexer)
      ensures protobufIndexer.Index() == TypeIndex(map[], map[])
      ensures protobufIndexer.filePackages == map[] && protobufIndexer.sourceComments == map[]
      ensures configManager == old(configManager) && config == old(config)
      ensures debugMode == old(debugMode) && debugLevel == old(debugLevel)
      ensures typeAnalyzer == old(typeAnalyzer) && codeGenerator == old(codeGenerator)
    {
      protobufIndexer := new Indexer.ProtobufIndexer();
    }

    /** `parse_parameters`: the new config, its debug settings copied, and a
        fresh indexer. */
    method ParseParameters(parameterString: string)
      modifies this, configManager
      ensures configManager == old(configManager)
      ensures configManager.parameters == Config.ParsedParameters(parameterString)
      ensures config == Config.ConfigFromParameters(Config.ParsedParameters(parameterString).items)
      ensures configManager.config == config
      ensures debugMode == config.debugMode && debugLevel == config.debugLevel
      ensures fresh(protobufIndexer)
      ensures protobufIndexer.Index() == TypeIndex(map[], map[])
      ensures protobufIndexer.filePackages == map[] && protobufIndexer.sourceComments == map[]
      ensures typeAnalyzer == old(typeAnalyzer) && codeGenerator == old(codeGenerator)
    {
      config := configManager.ParseParameters(parameterString);
      debugMode := config.debugMode;
      debugLevel := config.debugLevel;
      ResetIndexer();
    }

    /** `_build_type_index`: the indexer over every file of the request, then
        the analyzer and the generator over its tables. */
    method BuildTypeIndex(request: Request)
      modifies this, protobufIndexer
      ensures protobufIndexer == old(protobufIndexer)
      ensures protobufIndexer.Index() == Indexer.IndexedFiles(old(protobufIndexer.Index()), request.protoFile)
      ensures protobufIndexer.filePackages == old(protobufIndexer.filePackages) + Indexer.FilePackages(request.protoFile)
      ensures protobufIndexer.sourceComments == Indexer.CommentsOfFiles(old(protobufIndexer.sourceComments), request.protoFile)
      ensures typeAnalyzer == Some(protobufIndexer.Index())
      ensures codeGenerator == Some(CodeGenerator(config, protobufIndexer.Index()))
      ensures old(protobufIndexer.Index()) == TypeIndex(map[], map[]) ==>
        typeAnalyzer == Some(Indexer.IndexedFiles(TypeIndex(map[], map[]), request.protoFile))
      ensures old(protobufIndexer.filePackages) == map[] ==>
        protobufIndexer.filePackages == Indexer.FilePackages(request.protoFile)
      ensures old(protobufIndexer.sourceComments) == map[] ==>
        protobufIndexer.sourceComments == Indexer.CommentsOfFiles(map[], request.protoFile)
      ensures config == old(config) && configManager == old(configManager)
      ensures debugMode == old(debugMode) && debugLevel == old(debugLevel)
    {
      protobufIndexer.BuildTypeIndex(request.protoFile);
      typeAnalyzer := Some(protobufIndexer.Index());
      codeGenerator := Some(CodeGenerator(config, typeAnalyzer.value));
      Collections.MergeIntoEmpty(Indexer.FilePackages(request.protoFile));
    }

    /** `handle_file` */
    method HandleFile(protoFile: ProtoFile, response: CodeGeneratorResponse, emit: Emitter)
      modifies response
      ensures response.State() == HandledFile(old(response.State()), protoFile, config.outputSuffix, codeGenerator, debugMode, emit)
      ensures response.supportedFeatures == old(response.supportedFeatures)
    {
      if protoFile.services == [] {
        return;
      }
      var outputFilename := Replace(protoFile.name, ".proto", config.outputSuffix);
      var content: string;
      if codeGenerator.Some? {
        var emitted := emit(codeGenerator.value, protoFile);
        if emitted.Failure? {
          var errorContext := Utils.CreateDetailedErrorContext(protoFile.name, emitted.error.exception, debugMode, emitted.error.traceback);
          response.error := errorContext;
          return;
        }
        content := emitted.value;
      } else {
        content := UninitializedContent;
      }
      response.file := response.file + [ResponseFile(outputFilename, content)];
    }

    /** The first half of `generate`: parse the parameters, announce proto3
        optional support, and build the index. */
    method PrepareGeneration(request: Request, response: CodeGeneratorResponse)
      modifies this, configManager, response
      ensures config == Config.ConfigFromParameters(Config.ParsedParameters(request.parameter).items)
      ensures debugMode == config.debugMode && debugLevel == config.debugLevel
      ensures typeAnalyzer == Some(Indexer.IndexedFiles(TypeIndex(map[], map[]), request.protoFile))
      ensures codeGenerator == Some(CodeGenerator(config, typeAnalyzer.value))
      ensures configManager == old(configManager) && fresh(protobufIndexer)
      ensures configManager.parameters == Config.ParsedParameters(request.parameter)
      ensures protobufIndexer.filePackages == Indexer.FilePackages(request.protoFile)
      ensures protobufIndexer.sourceComments == Indexer.CommentsOfFiles(map[], request.protoFile)
      ensures response.supportedFeatures == FeatureProto3Optional
      ensures response.State() == old(response.State())
    {
      ParseParameters(request.parameter);
      response.supportedFeatures := FeatureProto3Optional;
      BuildTypeIndex(request);
    }

    /** The loop of `generate`: each file of the request in order, handled
        when its name is requested and skipped otherwise. */
    method HandleRequested(files: seq<ProtoFile>, requestedFiles: set<string>, response: CodeGeneratorResponse, emit: Emitter)
      modifies response
      ensures response.State() == Generated(old(response.State()), files, requestedFiles,
                                            config.outputSuffix, codeGenerator, debugMode, emit)
      ensures response.supportedFeatures == old(response.supportedFeatures)
    {
      ghost var start := response.State();
      for i := 0 to |files|
        invariant response.State() == Generated(start, files[..i], requestedFiles, config.outputSuffix, codeGenerator, debugMode, emit)
        invariant response.supportedFeatures == old(response.supportedFeatures)
      {
        var protoFile := files[i];
        GeneratedSnoc(start, files, i, requestedFiles, config.outputSuffix, codeGenerator, debugMode, emit);
        if protoFile.name in requestedFiles {
          HandleFile(protoFile, response, emit);
        }
      }
      assert files[..|files|] == files;
    }

    /** `generate`: parse the parameters, announce proto3 optional support,
        build the index, and handle the requested files in request order. */
    method Generate(request: Request, response: CodeGeneratorResponse, emit: Emitter)
      modifies this, configManager, response
      ensures config == Config.ConfigFromParameters(Config.ParsedParameters(request.parameter).items)
      ensures debugMode == config.debugMode && debugLevel == config.debugLevel
      ensures typeAnalyzer == Some(Indexer.IndexedFiles(TypeIndex(map[], map[]), request.protoFile))
      ensures codeGenerator == Some(CodeGenerator(config, typeAnalyzer.value))
      ensures configManager == old(configManager)
      ensures configManager.parameters == Config.ParsedParameters(request.parameter)
      ensures protobufIndexer.filePackages == Indexer.FilePackages(request.protoFile)
      ensures protobufIndexer.sourceComments == Indexer.CommentsOfFiles(map[], request.protoFile)
      ensures response.supportedFeatures == FeatureProto3Optional
      ensures response.State() == Generated(old(response.State()), request.protoFile, RequestedNames(request),
                                            config.outputSuffix, codeGenerator, debugMode, emit)
    {
      PrepareGeneration(request, response);
      var requestedFiles := RequestedNames(request);
      HandleRequested(request.protoFile, requestedFiles, response, emit);
    }
  }
}
