# protoc-gen-py-mcp, modelled in Dafny

protoc-gen-py-mcp is a protoc plugin. It reads a `CodeGeneratorRequest`, indexes every message and enum type of every proto file by its fully qualified name, and analyses the fields of the messages: their Python type hints and their required, optional, repeated, map and oneof flags. For each requested proto file that declares services, it writes one Python MCP server file into the `CodeGeneratorResponse`. Its behaviour is driven by a `key=value,...` parameter string, which is parsed into a typed configuration and checked against a table of validation rules.

This project models the core of that plugin and proves properties of the model:

| file | models |
|---|---|
| `wrappers.dfy` | `Option` and `Result`: a value that may be absent (`None`), and a raised error as a value |
| `strings.dfy` | the parts of Python's `str` the core uses: `strip`, `lower`, `isupper`, `startswith`, `endswith`, `in`, `split`, `split(c, 1)`, `join`, `replace`, and `int()` / `str()` on integers |
| `collections.dfy` | a dictionary built by successive assignments, where the last assignment wins; and a dictionary that also keeps its keys in insertion order |
| `descriptors.dfy` | the descriptor messages the plugin reads, as datatypes; the qualified-name rule |
| `type_analyzer.dfy` | `TypeAnalyzer` (`core/type_analyzer.py`) |
| `protobuf_indexer.dfy` | `ProtobufIndexer` (`core/protobuf_indexer.py`), as a class whose tables the methods update |
| `config.dfy` | `PluginConfig`, `CodeGenerationOptions` and `ConfigManager` (`core/config.py`) |
| `validation.dfy` | the validation rules, `VALIDATION_RULES` and `ParameterValidator` (`validation.py`) |
| `utils.dfy` | `NamingUtils`, `ErrorUtils` and `ProtoUtils` (`core/utils.py`) |
| `plugin.dfy` | `McpPlugin` and the response it fills (`plugin.py`) |

How the source becomes Dafny:

- Operations that only compute a value are functions with lemmas.
- Objects whose methods update fields are classes with `modifies` frames: `ProtobufIndexer`, `ConfigManager`, `ParameterValidator`, `McpPlugin` and `CodeGeneratorResponse`.
- Each such method is proved against a specification function of the old state and the inputs. The loops of the source are `for` loops with invariants.
- The type analyzer never changes its type tables after it is built, so it is modelled on the value `TypeIndex` rather than as a class.
- The code generator lives in `core/code_generator.py`, which is not part of this model. It is the parameter `emit` of type `Emitter`: given the generator and a proto file, it either returns the file's text or raises an exception, with the traceback text the exception would print.

Two details of the code that a reader might expect to be otherwise:

- **Synthetic oneofs.** A oneof is synthetic as soon as *any* of its members is `proto3_optional` (`core/type_analyzer.py:221-239`), so a group mixing a `proto3_optional` member with an ordinary one is synthetic too. `TypeAnalyzer.ClassifyOneofs` follows this rule, and `TypeAnalyzer.MixedOneofIsSynthetic` shows a mixed group classified as synthetic.
- **Map entries.** The key and value of a map entry are the fields named `key` and `value`, not the fields numbered 1 and 2, and a later field of the same name wins (`core/type_analyzer.py:184-193`). `TypeAnalyzer.EntryKeyType` and `TypeAnalyzer.EntryValueType` follow this rule.

Facts about the source that the proofs make explicit:

- **The timeout warning can never fire.** `validate_timeout` already rejects any timeout above 300, so the warning threshold `int(value) > 300` is never reached. See `Validation.TimeoutNeverBoth`, `Validation.TimeoutTooHigh` and `Validation.DefaultValidatorNeverWarns`.
- **`extract_comments` has an early return that never fires.** It returns early when `not proto_file.source_code_info`, but an unset sub-message of a protobuf object reads as an empty message, and an empty message is truthy. So a file without source info still gets a table, an empty one (`Indexer.NoSourceInfoEmptyTable`).
- **A blank comment is still stored.** The test for an empty comment is made before stripping, so a location whose comment is only white space stores an empty comment (`Indexer.BlankCommentStored`).
- **A nested type in an empty package gets two dots.** Its name begins with "..", for example "..Outer.Inner" (`Indexer.QualifiedNameExamples`).

## Model

| member | source | states |
|---|---|---|
| Strings.Strip | src/protoc_gen_py_mcp/core/protobuf_indexer.py:75-77 | the stripped text is the slice of the input left after removing a blank prefix and a blank suffix; it has no white space at either end, and it is empty exactly when the input is blank |
| Strings.StripKeepsVisible | src/protoc_gen_py_mcp/core/config.py:74-79 | stripping never removes a character that is not white space, so a piece holding '=' still holds it once stripped |
| Strings.StripIsSlice | src/protoc_gen_py_mcp/core/protobuf_indexer.py:75 | the stripped text is a contiguous slice of the input |
| Strings.StripKeeps | src/protoc_gen_py_mcp/core/config.py:74-78 | stripping adds no character, so a stripped piece contains '=' only if the piece did |
| Strings.StripTrimmed | src/protoc_gen_py_mcp/core/config.py:74 | a text without white space at either end is its own strip |
| Strings.LowerChar | src/protoc_gen_py_mcp/core/utils.py:19 | the lowered character is not upper case, and a character that is not upper case is unchanged |
| Strings.LowerIdempotent | src/protoc_gen_py_mcp/validation.py:37 | lowering twice is lowering once |
| Strings.ContainsIff | src/protoc_gen_py_mcp/core/utils.py:59 | `sub in s` holds exactly when `sub` occurs at some index of `s` |
| Strings.SplitOn | src/protoc_gen_py_mcp/core/config.py:73 | `split(c)` yields at least one piece, and no piece contains `c` |
| Strings.SplitJoin | src/protoc_gen_py_mcp/core/config.py:73 | joining the pieces of a split with the separator gives back the text |
| Strings.SplitCount | src/protoc_gen_py_mcp/validation.py:56-57 | a split yields one more piece than there are separators |
| Strings.SplitOnAbsent | src/protoc_gen_py_mcp/validation.py:56 | a text without the separator splits into itself alone |
| Strings.SplitOnFirst | src/protoc_gen_py_mcp/validation.py:56-60 | splitting peels off the piece before the first separator |
| Strings.SplitFirst | src/protoc_gen_py_mcp/core/config.py:78-79 | `split(c, 1)` fails exactly when `c` is absent; otherwise it gives the text before the first `c` (which has no `c`) and everything after it |
| Strings.SplitFirstOf | src/protoc_gen_py_mcp/core/config.py:79 | the split at the first separator is found where that separator is |
| Strings.JoinWithSmall | src/protoc_gen_py_mcp/core/protobuf_indexer.py:80 | joining one part gives the part; joining two puts the separator between them |
| Strings.ReplaceChar | src/protoc_gen_py_mcp/core/utils.py:34 | replacing one character by another keeps the length and changes exactly the positions holding that character |
| Strings.ReplaceAbsent | src/protoc_gen_py_mcp/plugin.py:195 | `replace` leaves a text without the pattern unchanged |
| Strings.ReplaceTrailing | src/protoc_gen_py_mcp/plugin.py:195 | a stem that does not contain the pattern's first character, followed by the pattern, has exactly that occurrence replaced |
| Strings.ParseInt | src/protoc_gen_py_mcp/core/config.py:160-163 | `int()` succeeds exactly on a non-empty run of digits, optionally after one "+" or "-" sign (so "x5", "+" and "-" fail), and on every such text it gives the digits' value, negated after a minus sign (with no 4300-digit limit) |
| Strings.ParseIntToString | src/protoc_gen_py_mcp/core/config.py:161 | `int(str(n)) == n` for every integer, negative ones and zero included (with no 4300-digit limit) |
| Collections.AssocSnoc | src/protoc_gen_py_mcp/core/protobuf_indexer.py:80 | one more assignment is performed last |
| Collections.AssocHasKey | src/protoc_gen_py_mcp/validation.py:158 | a key is in the dictionary exactly when some assignment assigns it |
| Collections.AssocValueFrom | src/protoc_gen_py_mcp/validation.py:158 | every value stored comes from an assignment to its key |
| Collections.AssocLastWins | src/protoc_gen_py_mcp/validation.py:158 | the value stored under a key is the one of the last assignment to it |
| Collections.Insert | src/protoc_gen_py_mcp/core/config.py:80-83 | `d[k] = v` on an ordered dictionary: a new key goes last, an existing key keeps its place, and the contents are updated |
| Collections.OrderedAssoc | src/protoc_gen_py_mcp/core/config.py:73-83 | the ordered dictionary has distinct keys, the same keys as its contents, and the same contents as the plain last-wins dictionary |
| Collections.OrderedAssocSnoc | src/protoc_gen_py_mcp/core/config.py:80-83 | one more assignment is an `Insert` at the end |
| Descriptors.QualifiedName | src/protoc_gen_py_mcp/core/protobuf_indexer.py:118-123 | every qualified name starts with '.' and is longer than the simple name |
| TypeAnalyzer.ScalarPythonType | src/protoc_gen_py_mcp/core/type_analyzer.py:83-111 | "float", "int", "bool", "str" and "bytes" each come from exactly their type codes; "Any" comes exactly from group, message, enum and unknown codes |
| TypeAnalyzer.WellKnownType | src/protoc_gen_py_mcp/core/type_analyzer.py:113-142 | only names in package google.protobuf are well known, and each maps to one of the base hints |
| TypeAnalyzer.WellKnownExamples | src/protoc_gen_py_mcp/core/type_analyzer.py:123-142 | Timestamp is "str", Int32Value is "int", Empty is "None", and another package's message is "dict" |
| TypeAnalyzer.MessageTypeHint | src/protoc_gen_py_mcp/core/type_analyzer.py:67-75 | a name in the well-known table gets its entry, any other name "dict", so "dict" for every name outside google.protobuf; the hint is always a base hint |
| TypeAnalyzer.SingleFieldType | src/protoc_gen_py_mcp/core/type_analyzer.py:58-65 | enums are "int", messages get the message hint, and everything else the scalar table |
| TypeAnalyzer.EnumTypeHint | src/protoc_gen_py_mcp/core/type_analyzer.py:77-81 | an enum is hinted as the 32-bit integer scalar type, "int", one of the base hints |
| TypeAnalyzer.BaseHintsUnwrapped | src/protoc_gen_py_mcp/core/type_analyzer.py:259 | no base hint already starts with "Optional[" or "Dict[" |
| TypeAnalyzer.LastNamed | src/protoc_gen_py_mcp/core/type_analyzer.py:184-193 | none exactly when no field has the name; otherwise a field with that name after which no field has it |
| TypeAnalyzer.LastNamedSnoc | src/protoc_gen_py_mcp/core/type_analyzer.py:184-193 | a later field of the name overrides the earlier ones |
| TypeAnalyzer.MapFieldCases | src/protoc_gen_py_mcp/core/type_analyzer.py:144-162 | `is_map_field`: false for a field that is not a repeated message field, false when its type name is not indexed, and otherwise exactly the map-entry option of the indexed message |
| TypeAnalyzer.GetMapTypes | src/protoc_gen_py_mcp/core/type_analyzer.py:144-195 | fails, with the ValueError text, exactly for a field that `is_map_field` rejects (not a repeated message field whose type is an indexed map entry); otherwise the key hint and the value hint of the entry message |
| TypeAnalyzer.EntryTypes | src/protoc_gen_py_mcp/core/type_analyzer.py:181-195 | the loop over the entry's fields yields the last "key" through the scalar table (default "str") and the last "value" by the single-field rule (default "Any") |
| TypeAnalyzer.GetPythonType | src/protoc_gen_py_mcp/core/type_analyzer.py:30-56 | the hint starts with "Dict[" exactly for map fields, and with "Optional[" exactly for non-map, non-repeated proto3 optional fields; a repeated non-map field is "List[...]" of its single-field type |
| TypeAnalyzer.RepeatedNonMapIsList | src/protoc_gen_py_mcp/core/type_analyzer.py:41-48 | a repeated message field whose type is not an indexed map entry is a list, never a dictionary |
| TypeAnalyzer.ScanForProto3Optional | src/protoc_gen_py_mcp/core/type_analyzer.py:222-232 | the scan finds a member exactly when some field of the oneof is proto3 optional |
| TypeAnalyzer.ClassifyOneofs | src/protoc_gen_py_mcp/core/type_analyzer.py:217-239 | the declared oneofs are split into real ones (no proto3 optional member) and synthetic ones (some such member) |
| TypeAnalyzer.FieldRecord | src/protoc_gen_py_mcp/core/type_analyzer.py:241-280 | the flags: oneof iff a member of a real oneof; optional iff proto3 optional or oneof; repeated iff repeated and not a map; required iff none of these; a map is neither repeated nor required; a field outside a real oneof is hinted exactly `get_python_type(field)`; a member of a real oneof gets that hint wrapped in Optional[...] unless it already starts with "Optional[", so it is always hinted Optional[...] exactly once, and carries the oneof's name |
| TypeAnalyzer.AnalyzedFields | src/protoc_gen_py_mcp/core/type_analyzer.py:207-212 | an unknown message gives no records; a known one gives one record per field, in declaration order |
| TypeAnalyzer.AnalyzeMessageFields | src/protoc_gen_py_mcp/core/type_analyzer.py:197-286 | the loop produces exactly those records |
| TypeAnalyzer.AnalyzeField | src/protoc_gen_py_mcp/core/type_analyzer.py:242-280 | one pass of the loop, including the map fix-up of `repeated`, produces the field's record |
| TypeAnalyzer.RealOneofMember | src/protoc_gen_py_mcp/core/type_analyzer.py:245-261 | a member of a real oneof is oneof, optional and not required, under the oneof's name, and wrapped in Optional[...] exactly once |
| TypeAnalyzer.SyntheticOneofMember | src/protoc_gen_py_mcp/core/type_analyzer.py:245-252 | a member of a synthetic oneof is not a oneof member, and is optional only through its own flag |
| TypeAnalyzer.MixedOneofIsSynthetic | src/protoc_gen_py_mcp/core/type_analyzer.py:221-235 | a oneof with one proto3 optional member and one ordinary member is synthetic, and the ordinary member is not a oneof member |
| TypeAnalyzer.OptionalMapFieldIsUnwrapped | src/protoc_gen_py_mcp/core/type_analyzer.py:250-261 | a map field flagged proto3 optional outside a oneof is optional and a map, yet its hint is not Optional[...] |
| TypeAnalyzer.AnyOptional | src/protoc_gen_py_mcp/core/type_analyzer.py:307-309 | true exactly when some record is optional |
| TypeAnalyzer.HasOptionalFields | src/protoc_gen_py_mcp/core/type_analyzer.py:288-311 | true exactly when some top-level message of the file, looked up under its qualified name, has an optional field |
| Indexer.IndexedEnumsKeys | src/protoc_gen_py_mcp/core/protobuf_indexer.py:152-161 | indexing enums adds exactly their qualified names |
| Indexer.IndexedMessagesKeys | src/protoc_gen_py_mcp/core/protobuf_indexer.py:116-136 | indexing messages adds exactly the names of every message at every depth, and of every enum nested in them |
| Indexer.IndexedMessageKeys | src/protoc_gen_py_mcp/core/protobuf_indexer.py:118-136 | one message adds its own name and those of its whole subtree |
| Indexer.IndexedMessagesFrame | src/protoc_gen_py_mcp/core/protobuf_indexer.py:116-131 | an entry whose name is outside the indexed tree is unchanged |
| Indexer.IndexedMessageFrame | src/protoc_gen_py_mcp/core/protobuf_indexer.py:125-131 | the same for one message and its subtree |
| Indexer.NestedNamesLong | src/protoc_gen_py_mcp/core/protobuf_indexer.py:119 | under a non-empty parent chain every name is at least three characters longer than the package and the chain together, so it never equals the parent's own name |
| Indexer.LastMessageWins | src/protoc_gen_py_mcp/core/protobuf_indexer.py:125-131 | the last message of a list, when its name is non-empty, is stored under its qualified name: the indexing of its own nested types never overwrites it |
| Indexer.QualifiedNameExamples | src/protoc_gen_py_mcp/core/protobuf_indexer.py:118-123 | ".pkg.Outer" at top level; "..Outer.Inner" for a nested message in the empty package |
| Indexer.EmptyPackageTree | src/protoc_gen_py_mcp/core/protobuf_indexer.py:116-136 | indexing Outer { Inner; enum Kind } in the empty package gives exactly ".Outer" and "..Outer.Inner" as messages, and "..Outer.Kind" as the enum |
| Indexer.FilePackagesSnoc | src/protoc_gen_py_mcp/core/protobuf_indexer.py:40-42 | one more file records its package last |
| Indexer.FilePackagesRecorded | src/protoc_gen_py_mcp/core/protobuf_indexer.py:40-42 | a file's package is recorded under its name unless a later file has the same name |
| Indexer.CommentParts | src/protoc_gen_py_mcp/core/protobuf_indexer.py:73-77 | at most two parts, and none exactly when both comment texts are empty |
| Indexer.CommentEntry | src/protoc_gen_py_mcp/core/protobuf_indexer.py:70-80 | a location contributes an entry exactly when it has leading or trailing text, keyed by its path |
| Indexer.CommentEntryText | src/protoc_gen_py_mcp/core/protobuf_indexer.py:73-80 | the stored text: stripped leading text and stripped trailing text joined by one space, or whichever one is present |
| Indexer.BlankCommentStored | src/protoc_gen_py_mcp/core/protobuf_indexer.py:74-80 | a location whose comment is a single space stores the empty text |
| Indexer.CommentsOfSnoc | src/protoc_gen_py_mcp/core/protobuf_indexer.py:68-80 | one more location assigns its comment last, if it has one |
| Indexer.CommentStored | src/protoc_gen_py_mcp/core/protobuf_indexer.py:67-80 | a path has a comment exactly when some location with that path has leading or trailing text |
| Indexer.CommentLastWins | src/protoc_gen_py_mcp/core/protobuf_indexer.py:68-80 | the comment stored for a path is that of the last location with that path and some text |
| Indexer.CommentsOfFilesLast | src/protoc_gen_py_mcp/core/protobuf_indexer.py:40-45 | after every file's comments are extracted, a file that no later file shares a name with has the table of its own locations |
| Indexer.NoSourceInfoEmptyTable | src/protoc_gen_py_mcp/core/protobuf_indexer.py:64-82 | a file without source code info gets an empty table, replacing its earlier one, and other files keep theirs |
| Indexer.FilesSnoc | src/protoc_gen_py_mcp/core/protobuf_indexer.py:40-51 | one more file of the request is indexed last |
| Indexer.ProtobufIndexer.constructor | src/protoc_gen_py_mcp/core/protobuf_indexer.py:20-25 | all four tables start empty |
| Indexer.ProtobufIndexer.BuildTypeIndex | src/protoc_gen_py_mcp/core/protobuf_indexer.py:28-55 | after the loop, the type tables, the package table and the comment tables are those of every file of the request, processed in order |
| Indexer.ProtobufIndexer.IndexFile | src/protoc_gen_py_mcp/core/protobuf_indexer.py:40-51 | one file: its package, its comments, then its messages, then its enums |
| Indexer.ProtobufIndexer.ExtractComments | src/protoc_gen_py_mcp/core/protobuf_indexer.py:57-83 | the file's comment table becomes the last-wins table of its locations |
| Indexer.ProtobufIndexer.GetComment | src/protoc_gen_py_mcp/core/protobuf_indexer.py:85-100 | the stored comment of the file and path, or "" for an unknown file or an unknown path |
| Indexer.ProtobufIndexer.CommentAfterBuild | src/protoc_gen_py_mcp/core/protobuf_indexer.py:85-100 | once the comments of all files are extracted, `get_comment` of a file that no later file shares a name with is "" when no location with the path has text, and otherwise the comment of the last such location |
| Indexer.ProtobufIndexer.IndexMessages | src/protoc_gen_py_mcp/core/protobuf_indexer.py:102-136 | the recursive walk: each message, then its nested messages, then its nested enums, under the extended parent chain |
| Indexer.ProtobufIndexer.IndexEnums | src/protoc_gen_py_mcp/core/protobuf_indexer.py:138-162 | each enum stored under its qualified name, in order |
| Config.ParamEntry | src/protoc_gen_py_mcp/core/config.py:74-83 | a piece assigns nothing exactly when it is blank; a piece without '=' is a flag set to "true"; otherwise the stripped piece is split at its first '=' and the key and the value are each stripped |
| Config.ParsedStep | src/protoc_gen_py_mcp/core/config.py:73-83 | one more piece performs its assignment, if any, last |
| Config.ParsedParameters | src/protoc_gen_py_mcp/core/config.py:66-83 | the parameter dictionary is a valid ordered dictionary |
| Config.BlankGivesNoParameters | src/protoc_gen_py_mcp/core/config.py:66-70 | a blank string gives no parameters, and so would the loop: the early return changes nothing |
| Config.BlankPiece | src/protoc_gen_py_mcp/core/config.py:73-76 | every piece of a blank string is blank |
| Config.SplitsAtFirstEquals | src/protoc_gen_py_mcp/core/config.py:78-80 | with a key without '=', the piece `key=value` assigns the rest, further '=' included, to the key |
| Config.ParamEntryExample | src/protoc_gen_py_mcp/core/config.py:79 | "a=b=c" sets `a` to "b=c" |
| Config.ConfigFromParameters | src/protoc_gen_py_mcp/core/config.py:96-146 | debugging is on exactly when the level is not "none", and a gRPC target is set exactly when the parameter `grpc_target` is present; the values of given and absent keys are stated by PresentKeysVerbatim, PresentFlagsParsed and AbsentKeysGiveDefaults |
| Config.AbsentKeysGiveDefaults | src/protoc_gen_py_mcp/core/config.py:96-146 | where a parameter is absent, its field keeps the default of `PluginConfig()` |
| Config.PresentFlagsParsed | src/protoc_gen_py_mcp/core/config.py:108-163 | each of the six flags given with a non-empty value is on exactly when the value is "true", "1" or "yes" in any case, and given empty keeps its default; a given timeout that parses as an integer is taken as it is, zero and negatives included, and one that does not gives 30 |
| Config.PresentKeysVerbatim | src/protoc_gen_py_mcp/core/config.py:116-124 | a given output suffix, server and function name pattern, tool name case, error format or stream mode is taken as written, and a given gRPC target is set to its value |
| Config.GetBooleanParam | src/protoc_gen_py_mcp/core/config.py:148-153 | the default is kept unless the value is present and not empty; "true", "1" and "yes" in any case give true, and any other present value false |
| Config.BooleanParamIff | src/protoc_gen_py_mcp/core/config.py:148-153 | a boolean parameter is its default when absent or empty, and otherwise true exactly for "true", "1" and "yes" in any case |
| Config.BareFlagIsTrue | src/protoc_gen_py_mcp/core/config.py:81-83 | a flag written without a value is on |
| Config.GetIntParam | src/protoc_gen_py_mcp/core/config.py:155-163 | a result other than the default is the parsed value of a present parameter, and a parameter that parses always gives its value |
| Config.IntParamRoundTrip | src/protoc_gen_py_mcp/core/config.py:155-163 | the printed form of any integer comes back unchanged, with no range enforced (and no 4300-digit limit) |
| Config.IntParamDefaults | src/protoc_gen_py_mcp/core/config.py:155-163 | an absent or non-numeric value gives the default; a numeric one gives its value |
| Config.DebugLevel | src/protoc_gen_py_mcp/core/config.py:101-105 | the level is always one of "none", "basic", "verbose", "trace" |
| Config.NoParametersGiveDefaults | src/protoc_gen_py_mcp/core/config.py:96-146 | no parameters give exactly `PluginConfig()`'s defaults |
| Config.DebugLevelConsistent | src/protoc_gen_py_mcp/core/config.py:99-105 | debugging is off exactly when the level is "none"; a level word selects itself; "true", "1" and "yes" select "basic" |
| Config.DebugLevelExample | src/protoc_gen_py_mcp/core/config.py:99-105 | "VERBOSE" switches debugging on at level "verbose" |
| Config.OptionsIgnoreOtherFields | src/protoc_gen_py_mcp/core/config.py:165-177 | the options do not depend on the debug, naming, suffix and error-format fields |
| Config.OptionsExample | tests/unit/test_plugin.py:392-410 | the dictionary of the options test, with its key=value pairs written out by hand, gives options with async on, comments off, camel names, the target "api.example.com:443", a secure channel, timeout 60, stream mode "skip", the interceptor on and generated code shown |
| Config.LevelRank | src/protoc_gen_py_mcp/core/config.py:184-186 | the rank is between 0 and 3, and 0 exactly for words outside the hierarchy |
| Config.ShouldLogLevel | src/protoc_gen_py_mcp/core/config.py:179-188 | a level is logged only with debugging on; at "trace" everything is logged; an unknown level is logged whenever debugging is on; "trace" messages only at "trace" |
| Config.ShouldLogMonotone | src/protoc_gen_py_mcp/core/config.py:179-188 | nothing is logged with debugging off; a logged level implies every lower one; an unknown level is logged whenever debugging is on; a configuration with debugging on and a higher configured level logs everything a lower one does |
| Config.ShouldLogExamples | src/protoc_gen_py_mcp/core/config.py:179-188 | at "basic", verbose messages are suppressed; at "trace", everything is shown |
| Config.ConfigManager.constructor | src/protoc_gen_py_mcp/core/config.py:56-58 | the default configuration and no parameters |
| Config.ConfigManager.ParseParameters | src/protoc_gen_py_mcp/core/config.py:60-94 | the parameters become the parsed dictionary, with its order, and the configuration is built from them; the validation result is discarded |
| Validation.ValidateEnumValue | src/protoc_gen_py_mcp/validation.py:33-39 | a listed value is accepted as written, and an accepted value equals some listed value ignoring case |
| Validation.EnumValueIff | src/protoc_gen_py_mcp/validation.py:33-39 | a value is accepted exactly when it equals some allowed value, ignoring case |
| Validation.EnumValueCaseInsensitive | src/protoc_gen_py_mcp/validation.py:33-39 | the case of the value never changes the verdict, and every listed value is accepted as written |
| Validation.ValidateTimeout | src/protoc_gen_py_mcp/validation.py:42-48 | a timeout is accepted exactly when `int(value)` succeeds with a result from 1 to 300; an accepted timeout never reaches the warning threshold |
| Validation.TimeoutWarningThreshold | src/protoc_gen_py_mcp/validation.py:82-87 | the threshold is reached exactly when `int(value)` succeeds with a result above 300 |
| Validation.TimeoutOfDigits | src/protoc_gen_py_mcp/validation.py:42-48 | on any run of digits, leading zeros included, the check passes exactly for a value from 1 to 300 and the threshold is reached exactly above 300 |
| Validation.TimeoutOfNumber | src/protoc_gen_py_mcp/validation.py:42-48 | a printed number passes exactly when it is between 1 and 300, and reaches the threshold exactly when it is above 300 |
| Validation.TimeoutNeverBoth | src/protoc_gen_py_mcp/validation.py:82-87 | no value both passes the timeout check and reaches its threshold |
| Validation.ValidateGrpcTarget | src/protoc_gen_py_mcp/validation.py:51-61 | an accepted target has exactly one colon and is not blank |
| Validation.GrpcTargetIff | src/protoc_gen_py_mcp/validation.py:51-61 | a target is accepted exactly when it has one colon and neither side is blank |
| Validation.ValidateFileExtension | src/protoc_gen_py_mcp/validation.py:64-70 | an accepted value ends with the extension, and so contains it |
| Validation.ValidatePatternPlaceholder | src/protoc_gen_py_mcp/validation.py:73-79 | a value is accepted exactly when the placeholder occurs in it at some index |
| Validation.FormatError | src/protoc_gen_py_mcp/validation.py:180-186 | the error text starts with the parameter name and the rule's message; ". Examples: " and the comma-separated examples follow exactly when the rule has examples, so every example occurs in the text |
| Validation.FormatErrorIgnoresValue | src/protoc_gen_py_mcp/validation.py:180-186 | the error text is the same whatever the rejected value |
| Validation.FormatWarning | src/protoc_gen_py_mcp/validation.py:188-191 | the text starts with `name=value: `; the rule's own warning follows when it is present and not empty; the generic "Warning for name=value" text appears exactly when the warning is missing or empty, or is itself that text |
| Validation.RuleTableFromList | src/protoc_gen_py_mcp/validation.py:156-158 | every rule of the table is a rule of the list, filed under its own name |
| Validation.DefaultRuleTable | src/protoc_gen_py_mcp/validation.py:91-158 | the default validator has a rule for exactly the nine names of the built-in list, each filed with its own rule |
| Validation.DefaultRulesNeverWarn | src/protoc_gen_py_mcp/validation.py:91-150 | no built-in rule can warn about a value that passed its check |
| Validation.DefaultTimeoutRule | src/protoc_gen_py_mcp/validation.py:118-125 | the default table files the timeout rule under "timeout" |
| Validation.DebugRuleAccepts | src/protoc_gen_py_mcp/validation.py:110-117 | the debug rule accepts the empty value and "TRUE" |
| Validation.DebugRuleRejects | src/protoc_gen_py_mcp/validation.py:110-117 | the debug rule rejects "on" |
| Validation.ValidIffAllPass | src/protoc_gen_py_mcp/validation.py:160-178 | the result is valid exactly when every parameter that has a rule passes its check |
| Validation.RuledNames | src/protoc_gen_py_mcp/validation.py:164-165 | the names that have a rule, in order: none is missing and none is added |
| Validation.ValidatedRuledOnly | src/protoc_gen_py_mcp/validation.py:164-176 | validating all parameters gives the same errors and warnings, in the same order, as validating only those that have a rule |
| Validation.OneMessageEach | src/protoc_gen_py_mcp/validation.py:164-176 | there are never more errors and warnings together than parameters that have a rule |
| Validation.NoWarnings | src/protoc_gen_py_mcp/validation.py:173-176 | rules that never warn produce no warnings |
| Validation.DefaultValidatorNeverWarns | src/protoc_gen_py_mcp/validation.py:195 | the default validator never warns, whatever the parameters |
| Validation.TimeoutTooHigh | src/protoc_gen_py_mcp/validation.py:118-125 | a timeout above 300 is reported as one error, with the rule's text and examples, and never as a warning |
| Validation.UnruledIgnored | src/protoc_gen_py_mcp/validation.py:165 | a dictionary whose parameters all lack a rule produces neither errors nor warnings |
| Validation.ParameterValidator.constructor | src/protoc_gen_py_mcp/validation.py:156-158 | the rules by field name, a later rule replacing an earlier one |
| Validation.ParameterValidator.Validate | src/protoc_gen_py_mcp/validation.py:160-178 | the messages of the parameters, checked in the dictionary's order |
| Utils.CamelToSnake | src/protoc_gen_py_mcp/core/utils.py:12-20 | the loop yields the snake form: every character lowered, with "_" before each upper-case letter that is not the first character |
| Utils.SnakeShape | src/protoc_gen_py_mcp/core/utils.py:15-20 | no upper-case letter survives, and the length grows by one per upper-case letter after the first character |
| Utils.SnakeOfLower | src/protoc_gen_py_mcp/core/utils.py:15-20 | a name without upper-case letters is unchanged |
| Utils.SnakeExamples | src/protoc_gen_py_mcp/core/utils.py:15-20 | "IDs" becomes "i_ds", and "Ok" becomes "ok" |
| Utils.ConvertToolName | src/protoc_gen_py_mcp/core/utils.py:22-37 | the converted name is never shorter than the method name; pascal keeps it; every style except camel and pascal leaves no upper-case letter |
| Utils.ConvertEmpty | src/protoc_gen_py_mcp/core/utils.py:22-37 | the empty name stays empty in every style |
| Utils.ConvertStyles | src/protoc_gen_py_mcp/core/utils.py:22-37 | pascal keeps the name; camel keeps the length and the tail and lowers the first character; kebab is the snake form with '-' for each '_' and no '_' left; any other style is the snake form |
| Utils.ConvertExamples | src/protoc_gen_py_mcp/core/utils.py:22-37 | "IDs" in each style: "i_ds", "i-ds", "iDs", "IDs", and "i_ds" for an unknown style |
| Utils.TroubleshootingCases | src/protoc_gen_py_mcp/core/utils.py:58-80 | no hint lines exactly when the class name contains none of the five fragments; otherwise two, chosen by the first fragment that matches in the order AttributeError, KeyError, ValueError, then ImportError or ModuleNotFoundError |
| Utils.CreateDetailedErrorContext | src/protoc_gen_py_mcp/core/utils.py:43-98 | the report is the newline join of the header, the hints, the debug suggestions and, in debug mode, the stack-trace section |
| Utils.ErrorContextShape | src/protoc_gen_py_mcp/core/utils.py:51-92 | at least nine lines, opening with the file name, the error type and the error message, and always holding the debug suggestions heading |
| Utils.ErrorReportMentions | src/protoc_gen_py_mcp/core/utils.py:43-98 | the joined report starts with the file line and contains the error type, the error message and, in debug mode, the traceback |
| Utils.ReportEnding | src/protoc_gen_py_mcp/core/utils.py:82-98 | in debug mode the report ends with the stack-trace section; otherwise it ends with the debug suggestions |
| Utils.HasOptionalInputFields | src/protoc_gen_py_mcp/core/utils.py:104-115 | true exactly when the input message of some method of some service has an optional field |
| Plugin.OutputName | src/protoc_gen_py_mcp/plugin.py:195 | a name without ".proto" is kept as it is |
| Plugin.ErrorContext | src/protoc_gen_py_mcp/plugin.py:105-107 | the error text of a file whose generation raised starts with the file line and contains the error type, the error message and, in debug mode, the traceback |
| Plugin.HandledFile | src/protoc_gen_py_mcp/plugin.py:178-221 | handling a file keeps the earlier files and adds at most one, named by the output-name rule; the error changes only when the file has services, a generator exists and emission raises, and then no file is added |
| Plugin.Generated | src/protoc_gen_py_mcp/plugin.py:163-171 | the loop keeps the earlier files, and every file it adds carries the output name of some requested file of the request |
| Plugin.GeneratedSnoc | src/protoc_gen_py_mcp/plugin.py:166-171 | one more file of the loop is handled if requested and skipped otherwise |
| Plugin.RequestedFiles | src/protoc_gen_py_mcp/plugin.py:166-167 | a file is selected exactly when it is in the request and its name is requested |
| Plugin.NoServicesNoChange | src/protoc_gen_py_mcp/plugin.py:190-192 | a file without services leaves the response unchanged |
| Plugin.HandledFileOutcome | src/protoc_gen_py_mcp/plugin.py:194-221 | one file named by the suffix rule with the emitted text, or the placeholder text without a generator; when emission raises, no file is added and the error becomes the detailed report |
| Plugin.HandledFileGrows | src/protoc_gen_py_mcp/plugin.py:194-221 | handling a file appends at most one file and removes none |
| Plugin.OutputNameOfStem | src/protoc_gen_py_mcp/plugin.py:195 | "stem.proto", for a stem without dots, is named stem followed by the suffix |
| Plugin.GeneratedIsRequestedHandled | src/protoc_gen_py_mcp/plugin.py:163-171 | the loop is handling exactly the requested files, in the order of the request |
| Plugin.HandledAllSnoc | src/protoc_gen_py_mcp/plugin.py:166-169 | handling one more file at the end |
| Plugin.NothingRequested | src/protoc_gen_py_mcp/plugin.py:166-171 | files that are not requested leave the response unchanged |
| Plugin.GeneratedGrows | src/protoc_gen_py_mcp/plugin.py:166-171 | the loop only appends, at most one file per proto file |
| Plugin.FailureThenSuccess | src/protoc_gen_py_mcp/plugin.py:217-221 | a file that raises does not stop the loop: the next file is still written, and the first one's error remains |
| Plugin.CodeGeneratorResponse.constructor | src/protoc_gen_py_mcp/plugin.py:246 | an empty response |
| Plugin.McpPlugin.constructor | src/protoc_gen_py_mcp/plugin.py:56-79 | the default configuration with its debug settings copied, a manager holding the default configuration and no parameters, an indexer whose four tables are empty, and no analyzer or generator |
| Plugin.McpPlugin.HasOptionalFields | src/protoc_gen_py_mcp/plugin.py:81-85 | false before the type index is built; afterwards true exactly when some top-level message of the file has an optional field |
| Plugin.McpPlugin.ResetIndexer | src/protoc_gen_py_mcp/plugin.py:99-100 | a fresh, empty indexer, with nothing else changed |
| Plugin.McpPlugin.ParseParameters | src/protoc_gen_py_mcp/plugin.py:87-103 | the manager's parsed configuration, its debug settings copied, a fresh empty indexer, and the analyzer and generator unchanged |
| Plugin.McpPlugin.BuildTypeIndex | src/protoc_gen_py_mcp/plugin.py:109-137 | the indexer over every file of the request, added to its old tables, then an analyzer over its type tables and a generator over the configuration and those tables; from empty tables, the tables are exactly those of the request's files |
| Plugin.McpPlugin.HandleFile | src/protoc_gen_py_mcp/plugin.py:178-221 | the response after handling the file, as above; the supported features are unchanged |
| Plugin.McpPlugin.PrepareGeneration | src/protoc_gen_py_mcp/plugin.py:149-159 | the manager's parameters and the configuration parsed from the request's parameter string, its debug settings copied, proto3 optional support announced, a fresh indexer whose type, package and comment tables are those of the request's files, the analyzer and generator over them, and the files and error of the response unchanged |
| Plugin.McpPlugin.HandleRequested | src/protoc_gen_py_mcp/plugin.py:163-171 | the loop over the request's files leaves the response as the specification of the loop says |
| Plugin.McpPlugin.Generate | src/protoc_gen_py_mcp/plugin.py:139-176 | the manager's parameters and the configuration of the request's parameter string, the type, package and comment tables of all its files, feature 1 (proto3 optional), and the response of handling the requested files in order |

## Left out

- Logging is not modelled. This covers every `logger.debug` and `logger.error` call, `configure_logging` (`core/logger.py` is not part of this model), and the loops that only log, under `show_type_details` and `show_generated_code`. These write to the log only.
- `CodeGenerator.generate_file_content`: `core/code_generator.py` is not part of this model. The generator is the `emit` parameter, whose text or raised exception the model passes through.
- `McpPlugin._convert_tool_name` is not modelled: it delegates to `core/code_generator.py`. The naming rule it reaches is `NamingUtils.convert_tool_name`, which is modelled as `Utils.ConvertToolName` (see `Utils.ConvertStyles`).
- `main`, the command-line entry point and its fatal-error report are not modelled. They read standard input, write standard output and standard error, and exit the process.
- The outer `except` of `generate`, which sets "Plugin error: ...", is not modelled. No step the model contains can raise, so that path is unreachable here.
- `traceback.format_exc()` is not computed. The traceback text travels with the raised exception (`Plugin.Raised`) and is given to `Utils.CreateDetailedErrorContext` as a parameter.
- Python strings are modelled on ASCII only. `isspace`, `isupper` and `lower` treat non-ASCII characters as ordinary characters.
- Strings.ParseInt: accepts only an optional sign followed by ASCII digits. Python's `int()` also accepts surrounding white space, underscores between digits and non-ASCII digits. It also has no digit limit: CPython (3.11 and later, and the security releases of 3.7 to 3.10) refuses to convert a decimal text of more than 4300 digits, so there `_get_int_param` returns the default and `validate_timeout` rejects the value, while the model parses the text.
- Strings.ParseIntToString: the round trip is stated for every integer. Under CPython's limit of 4300 digits, `str()` of a larger integer raises, so in the program the round trip holds only below that size.
- Config.IntParamRoundTrip: stated for every integer, for the same reason holds in the program only for integers of at most 4300 digits.
- The type tables and the comment tables are Dafny maps, so their insertion order is not kept; nothing in the core reads it. The parameter dictionary does keep its order, because `validate` reports messages in that order.
- The validators and warning thresholds are closures in the source. Here they are the constructors of `Validation.Check` and `Validation.Threshold`, one per factory function.
- `default_validator` is a module-level object in the source. `Config.ConfigManager.ParseParameters` builds an equal validator at each call instead.
- The `hasattr` tests of the analyzer are not modelled, since they always hold for descriptor messages.
- The fallback in `get_map_types` for a map field whose entry message is not indexed (`core/type_analyzer.py:178-179`) is not modelled. It is unreachable once `is_map_field` has held.
- The `FieldInfo` typed dictionary and `MethodGenerationContext` in `plugin.py` are not modelled; the core never uses them.
- TypeAnalyzer.FieldRecord: "optional implies an Optional[...] hint" is stated only for fields that are neither repeated nor maps. A map field flagged proto3 optional outside a oneof keeps its Dict[...] hint, as `TypeAnalyzer.OptionalMapFieldIsUnwrapped` shows.
- Plugin.McpPlugin.HandleFile: the exception is raised only by the emitter. The source's `try` also covers `replace` and `response.file.add()`, which cannot fail on the values modelled.
- Several loops of the source are split into helper methods that perform one pass or one inner loop, with the same effect: `TypeAnalyzer.AnalyzeField`, `TypeAnalyzer.EntryTypes`, `TypeAnalyzer.AnyOptional`, `TypeAnalyzer.ScanForProto3Optional`, `Indexer.ProtobufIndexer.IndexFile`, `Plugin.McpPlugin.ResetIndexer`, `Plugin.McpPlugin.PrepareGeneration` and `Plugin.McpPlugin.HandleRequested`.
- `Utils.CamelToSnake` accumulates a string instead of a list of one-character strings that is joined at the end. The result is the same.
