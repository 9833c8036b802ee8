/** Mapping of protobuf fields to Python type-hint strings, and the per-field
    analysis of a message (required/optional/repeated/map/oneof flags). The
    analyzer's state is the type index it was built with, which it never
    changes, so it is passed as a value. */
module TypeAnalyzer {
  import opened Wrappers
  import opened Strings
  import opened Descriptors
  import opened Collections

  /** The record `analyze_message_fields` produces for one field. */
  datatype FieldInfo = FieldInfo(
    name: string,
    typeHint: string,
    protoType: int,
    required: bool,
    repeated: bool,
    optional: bool,
    isOneof: bool,
    oneofName: string,
    isMap: bool,
    typeName: Option<string>)

  /** The type hints a single (non-repeated, non-map) field can receive. */
  const BaseHints: set<string> := {"float", "int", "bool", "str", "bytes", "Any", "dict", "None", "List[Any]"}

  predicate IsIntegerType(t: int) {
    t == TYPE_INT64 || t == TYPE_UINT64 || t == TYPE_INT32 || t == TYPE_FIXED64 ||
    t == TYPE_FIXED32 || t == TYPE_UINT32 || t == TYPE_SFIXED32 || t == TYPE_SFIXED64 ||
    t == TYPE_SINT32 || t == TYPE_SINT64
  }

  const ScalarTypes: map<int, string> := map[
    TYPE_DOUBLE := "float",
    TYPE_FLOAT := "float",
    TYPE_INT64 := "int",
    TYPE_UINT64 := "int",
    TYPE_INT32 := "int",
    TYPE_FIXED64 := "int",
    TYPE_FIXED32 := "int",
    TYPE_BOOL := "bool",
    TYPE_STRING := "str",
    TYPE_BYTES := "bytes",
    TYPE_UINT32 := "int",
    TYPE_SFIXED32 := "int",
    TYPE_SFIXED64 := "int",
    TYPE_SINT32 := "int",
    TYPE_SINT64 := "int"]

  /** The scalar table: every numeric code the table does not list (group,
      message, enum, or no type at all) falls back to "Any". */
  function ScalarPythonType(fieldType: int): (r: string)
    ensures r == "float" <==> fieldType == TYPE_DOUBLE || fieldType == TYPE_FLOAT
    ensures r == "int" <==> IsIntegerType(fieldType)
    ensures r == "bool" <==> fieldType == TYPE_BOOL
    ensures r == "str" <==> fieldType == TYPE_STRING
    ensures r == "bytes" <==> fieldType == TYPE_BYTES
    ensures r == "Any" <==>
      fieldType == TYPE_GROUP || fieldType == TYPE_MESSAGE || fieldType == TYPE_ENUM ||
      fieldType < TYPE_DOUBLE || fieldType > TYPE_SINT64
  {
    if fieldType in ScalarTypes then ScalarTypes[fieldType] else "Any"
  }

  const WellKnownTypes: map<string, string> := map[
    ".google.protobuf.StringValue" := "str",
    ".google.protobuf.Int32Value" := "int",
    ".google.protobuf.Int64Value" := "int",
    ".google.protobuf.UInt32Value" := "int",
    ".google.protobuf.UInt64Value" := "int",
    ".google.protobuf.FloatValue" := "float",
    ".google.protobuf.DoubleValue" := "float",
    ".google.protobuf.BoolValue" := "bool",
    ".google.protobuf.BytesValue" := "bytes",
    ".google.protobuf.Timestamp" := "str",
    ".google.protobuf.Duration" := "str",
    ".google.protobuf.Empty" := "None",
    ".google.protobuf.Any" := "dict",
    ".google.protobuf.Struct" := "dict",
    ".google.protobuf.Value" := "Any",
    ".google.protobuf.ListValue" := "List[Any]"]

  /** Only names in package google.protobuf are well known, and each maps
      to one of the base hints. */
  function WellKnownType(typeName: string): (r: Option<string>)
    ensures r.Some? ==> StartsWith(typeName, ".google.protobuf.")
    ensures r.Some? ==> r.value in BaseHints
  {
    if typeName in WellKnownTypes then Some(WellKnownTypes[typeName]) else None
  }

  /** Sample entries of the well-known table: timestamps are strings, Int32Value
      is an integer, Empty is None; a message of an ordinary package is not
      well known and so becomes "dict". */
  lemma WellKnownExamples()
    ensures WellKnownType(".google.protobuf.Timestamp") == Some("str")
    ensures WellKnownType(".google.protobuf.Int32Value") == Some("int")
    ensures WellKnownType(".google.protobuf.Empty") == Some("None")
    ensures WellKnownType(".example.v1.User") == None
    ensures MessageTypeHint(".example.v1.User") == "dict"
  {
    assert !StartsWith(".example.v1.User", ".google.protobuf.") by {
      assert ".example.v1.User"[1] != ".google.protobuf."[1];
    }
  }

  /** `_get_message_type`: a well-known hint, otherwise "dict". */
  function MessageTypeHint(typeName: string): (r: string)
    ensures r in BaseHints
    ensures typeName in WellKnownTypes ==> r == WellKnownTypes[typeName]
    ensures typeName !in WellKnownTypes ==> r == "dict"
    ensures !StartsWith(typeName, ".google.protobuf.") ==> r == "dict"
  {
    match WellKnownType(typeName)
    case Some(hint) => hint
    case None => "dict"
  }

  /** `_get_enum_type`: enums are represented by their integer value. */
  function EnumTypeHint(typeName: string): (r: string)
    ensures r == ScalarPythonType(TYPE_INT32) && r in BaseHints
  {
    "int"
  }

  /** `_get_single_field_type`: the hint of a field as if it were singular. */
  function SingleFieldType(field: Field): (r: string)
    ensures r in BaseHints
    ensures field.fieldType == TYPE_ENUM ==> r == "int"
    ensures field.fieldType == TYPE_MESSAGE ==> r == MessageTypeHint(field.typeName)
    ensures field.fieldType != TYPE_MESSAGE && field.fieldType != TYPE_ENUM ==>
      r == ScalarPythonType(field.fieldType)
  {
    if field.fieldType == TYPE_MESSAGE then MessageTypeHint(field.typeName)
    else if field.fieldType == TYPE_ENUM then EnumTypeHint(field.typeName)
    else ScalarPythonType(field.fieldType)
  }

  lemma BaseHintsUnwrapped(h: string)
    requires h in BaseHints
    ensures !StartsWith(h, "Optional[") && !StartsWith(h, "Dict[")
  {
    assert h[0] != 'O' && h[0] != 'D';
  }

  /** `is_map_field`: a repeated message field whose type is an indexed
      message marked as a map entry. */
  predicate IsMapField(index: TypeIndex, field: Field) {
    && field.fieldLabel == LABEL_REPEATED
    && field.fieldType == TYPE_MESSAGE
    && field.typeName in index.messages
    && index.messages[field.typeName].mapEntry
  }

  /** The three outcomes of `is_map_field`: a singular or non-message field
      is never a map, nor is one whose type is not indexed; otherwise the
      indexed message's map-entry option decides. */
  lemma MapFieldCases(index: TypeIndex, f: Field)
    ensures f.fieldLabel != LABEL_REPEATED || f.fieldType != TYPE_MESSAGE ==> !IsMapField(index, f)
    ensures f.typeName !in index.messages ==> !IsMapField(index, f)
    ensures f.fieldLabel == LABEL_REPEATED && f.fieldType == TYPE_MESSAGE && f.typeName in index.messages ==>
      (IsMapField(index, f) <==> index.messages[f.typeName].mapEntry)
  {
  }

  /** The last field called `name`, if any. */
  function LastNamed(fields: seq<Field>, name: string): (r: Option<Field>)
    ensures r.None? <==> forall i :: 0 <= i < |fields| ==> fields[i].name != name
    ensures r.Some? ==> r.value.name == name && exists i :: (0 <= i < |fields| && fields[i] == r.value &&
      forall j :: i < j < |fields| ==> fields[j].name != name)
  {
    if fields == [] then None
    else if fields[|fields| - 1].name == name then Some(fields[|fields| - 1])
    else LastNamed(fields[..|fields| - 1], name)
  }

  /** Looking one field further. */
  lemma LastNamedSnoc(fields: seq<Field>, i: nat, name: string)
    requires i < |fields|
    ensures LastNamed(fields[..i + 1], name) ==
      if fields[i].name == name then Some(fields[i]) else LastNamed(fields[..i], name)
  {
    assert fields[..i + 1][..i] == fields[..i];
  }

  /** The key hint of a map entry: the last field called "key", read through
      the scalar table only; "str" when there is none. */
  function EntryKeyType(fields: seq<Field>): string {
    match LastNamed(fields, "key")
    case Some(f) => ScalarPythonType(f.fieldType)
    case None => "str"
  }

  /** The value hint of a map entry: the last field called "value", mapped as
      a message, enum or scalar (the same rule as `_get_single_field_type`);
      "Any" when there is none. */
  function EntryValueType(fields: seq<Field>): string {
    match LastNamed(fields, "value")
    case Some(f) => SingleFieldType(f)
    case None => "Any"
  }

  datatype MapEntryTypes = MapEntryTypes(key: string, value: string)

  /** `get_map_types`: fails, as the source's ValueError, for a field that is
      not a map field. */
  method GetMapTypes(index: TypeIndex, field: Field) returns (r: Result<MapEntryTypes, string>)
    ensures r.Failure? <==> !IsMapField(index, field)
    ensures r.Failure? ==> r.error == "Field " + field.name + " is not a map field"
    ensures r.Success? ==>
      var entry := index.messages[field.typeName].fields;
      r.value == MapEntryTypes(EntryKeyType(entry), EntryValueType(entry))
  {
    if !IsMapField(index, field) {
      return Failure("Field " + field.name + " is not a map field");
    }
    var entry := index.messages[field.typeName].fields;
    var keyType, valueType := EntryTypes(entry);
    return Success(MapEntryTypes(keyType, valueType));
  }

  /** The loop of `get_map_types` over the fields of the entry message: later
      "key" and "value" fields override earlier ones. */
  method EntryTypes(entry: seq<Field>) returns (keyType: string, valueType: string)
    ensures keyType == EntryKeyType(entry) && valueType == EntryValueType(entry)
  {
    keyType := "str";
    valueType := "Any";
    for i := 0 to |entry|
      invariant keyType == EntryKeyType(entry[..i])
      invariant valueType == EntryValueType(entry[..i])
    {
      var mapField := entry[i];
      LastNamedSnoc(entry, i, "key");
      LastNamedSnoc(entry, i, "value");
      if mapField.name == "key" {
        keyType := ScalarPythonType(mapField.fieldType);
      } else if mapField.name == "value" {
        if mapField.fieldType == TYPE_MESSAGE {
          valueType := MessageTypeHint(mapField.typeName);
        } else if mapField.fieldType == TYPE_ENUM {
          valueType := EnumTypeHint(mapField.typeName);
        } else {
          valueType := ScalarPythonType(mapField.fieldType);
        }
      }
    }
    assert entry[..|entry|] == entry;
  }

  /** `get_python_type`: map first, then repeated, then proto3 optional,
      then the bare base type. */
  function GetPythonType(index: TypeIndex, field: Field): (r: string)
    ensures StartsWith(r, "Dict[") <==> IsMapField(index, field)
    ensures StartsWith(r, "Optional[") <==>
      !IsMapField(index, field) && field.fieldLabel != LABEL_REPEATED && field.proto3Optional
    ensures !IsMapField(index, field) && field.fieldLabel == LABEL_REPEATED ==>
      r == "List[" + SingleFieldType(field) + "]"
    ensures !IsMapField(index, field) && field.fieldLabel != LABEL_REPEATED ==>
      r == if field.proto3Optional then "Optional[" + SingleFieldType(field) + "]" else SingleFieldType(field)
  {
    if IsMapField(index, field) then
      var entry := index.messages[field.typeName].fields;
      var r := "Dict[" + EntryKeyType(entry) + ", " + EntryValueType(entry) + "]";
      assert r[0] == 'D' && r[..5] == "Dict[";
      r
    else if field.fieldLabel == LABEL_REPEATED then
      var r := "List[" + SingleFieldType(field) + "]";
      assert r[0] == 'L';
      r
    else if field.proto3Optional then
      var r := "Optional[" + SingleFieldType(field) + "]";
      assert r[0] == 'O' && r[..9] == "Optional[";
      r
    else
      BaseHintsUnwrapped(SingleFieldType(field));
      SingleFieldType(field)
  }

  /** A repeated message field whose type is not an indexed map entry is a
      list, never a dictionary. */
  lemma {:induction false} RepeatedNonMapIsList(index: TypeIndex, field: Field)
    requires field.fieldLabel == LABEL_REPEATED && field.fieldType == TYPE_MESSAGE
    requires field.typeName !in index.messages || !index.messages[field.typeName].mapEntry
    ensures StartsWith(GetPythonType(index, field), "List[")
    ensures !StartsWith(GetPythonType(index, field), "Dict[")
  {
    assert !IsMapField(index, field);
  }

  /** Some member of oneof `idx` is a proto3 optional field. */
  predicate HasProto3OptionalMember(m: Message, idx: int) {
    exists j :: 0 <= j < |m.fields| && m.fields[j].oneofIndex == Some(idx) && m.fields[j].proto3Optional
  }

  /** A oneof declaration is real unless one of its members is proto3
      optional, in which case it is synthetic. */
  predicate RealOneof(m: Message, idx: int) {
    0 <= idx < |m.oneofDecls| && !HasProto3OptionalMember(m, idx)
  }

  /** The scan over the fields that stops at the first proto3 optional
      member of oneof `idx`. */
  method ScanForProto3Optional(m: Message, idx: int) returns (found: bool)
    ensures found <==> HasProto3OptionalMember(m, idx)
  {
    found := false;
    var j := 0;
    while j < |m.fields|
      invariant 0 <= j <= |m.fields|
      invariant !found
      invariant forall k :: 0 <= k < j ==> !(m.fields[k].oneofIndex == Some(idx) && m.fields[k].proto3Optional)
    {
      var f := m.fields[j];
      if f.oneofIndex.Some? && f.oneofIndex.value == idx && f.proto3Optional {
        found := true;
        break;
      }
      j := j + 1;
    }
  }

  /** Splits the oneof indices of `m` into real and synthetic ones. */
  method ClassifyOneofs(m: Message) returns (realOneofs: set<int>, syntheticOneofs: set<int>)
    ensures forall i :: i in realOneofs <==> RealOneof(m, i)
    ensures forall i :: i in syntheticOneofs <==> 0 <= i < |m.oneofDecls| && HasProto3OptionalMember(m, i)
  {
    realOneofs, syntheticOneofs := {}, {};
    for i := 0 to |m.oneofDecls|
      invariant forall k :: k in realOneofs <==> 0 <= k < i && RealOneof(m, k)
      invariant forall k :: k in syntheticOneofs <==> 0 <= k < i && HasProto3OptionalMember(m, k)
    {
      var has := ScanForProto3Optional(m, i);
      if has {
        syntheticOneofs := syntheticOneofs + {i};
      } else {
        realOneofs := realOneofs + {i};
      }
    }
  }

  /** Field `f` of `m` is a member of a real oneof. */
  predicate InRealOneof(m: Message, f: Field) {
    f.oneofIndex.Some? && RealOneof(m, f.oneofIndex.value)
  }

  /** The record of one field of message `m`. */
  function FieldRecord(index: TypeIndex, m: Message, f: Field): (r: FieldInfo)
    ensures r.name == f.name && r.protoType == f.fieldType
    ensures r.isOneof <==> InRealOneof(m, f)
    ensures r.optional <==> f.proto3Optional || r.isOneof
    ensures r.isMap <==> IsMapField(index, f)
    ensures r.repeated <==> f.fieldLabel == LABEL_REPEATED && !r.isMap
    ensures r.required <==> !r.optional && f.fieldLabel != LABEL_REPEATED && !r.isMap
    ensures r.isMap ==> !r.repeated && !r.required
    ensures !r.isOneof ==> r.typeHint == GetPythonType(index, f)
    ensures var t := GetPythonType(index, f);
      r.isOneof ==> r.typeHint == if StartsWith(t, "Optional[") then t else "Optional[" + t + "]"
    ensures r.isOneof ==> StartsWith(r.typeHint, "Optional[")
    ensures !r.repeated && !r.isMap && r.optional ==> StartsWith(r.typeHint, "Optional[")
    ensures r.isOneof ==> r.oneofName == m.oneofDecls[f.oneofIndex.value].name
    ensures !r.isOneof ==> r.oneofName == ""
    ensures r.typeName == if f.typeName == "" then None else Some(f.typeName)
  {
    var inReal := InRealOneof(m, f);
    var isOptional := f.proto3Optional || inReal;
    var isRepeated := f.fieldLabel == LABEL_REPEATED;
    var isMap := IsMapField(index, f);
    var baseType := GetPythonType(index, f);
    var hint := if inReal && !StartsWith(baseType, "Optional[") then "Optional[" + baseType + "]" else baseType;
    assert StartsWith("Optional[" + baseType + "]", "Optional[");
    FieldInfo(
      f.name, hint, f.fieldType,
      !isOptional && !isRepeated && !isMap,
      isRepeated && !isMap,
      isOptional, inReal,
      if inReal then m.oneofDecls[f.oneofIndex.value].name else "",
      isMap,
      if f.typeName != "" then Some(f.typeName) else None)
  }

  /** `analyze_message_fields` as a value: no records for an unknown name,
      otherwise one record per field in declaration order. */
  function AnalyzedFields(index: TypeIndex, messageName: string): (r: seq<FieldInfo>)
    ensures messageName !in index.messages ==> r == []
    ensures messageName in index.messages ==>
      var m := index.messages[messageName];
      |r| == |m.fields| && forall i :: 0 <= i < |r| ==> r[i] == FieldRecord(index, m, m.fields[i])
  {
    if messageName !in index.messages then []
    else
      var m := index.messages[messageName];
      seq(|m.fields|, i requires 0 <= i < |m.fields| => FieldRecord(index, m, m.fields[i]))
  }

  method AnalyzeMessageFields(index: TypeIndex, messageName: string) returns (fields: seq<FieldInfo>)
    ensures fields == AnalyzedFields(index, messageName)
  {
    if messageName !in index.messages {
      return [];
    }
    var m := index.messages[messageName];
    var realOneofs, syntheticOneofs := ClassifyOneofs(m);
    fields := [];
    for i := 0 to |m.fields|
      invariant fields == AnalyzedFields(index, messageName)[..i]
    {
      var fieldInfo := AnalyzeField(index, m, realOneofs, m.fields[i]);
      PrefixSnoc(AnalyzedFields(index, messageName), i);
      fields := fields + [fieldInfo];
    }
    assert AnalyzedFields(index, messageName)[..|m.fields|] == AnalyzedFields(index, messageName);
  }

  /** One pass of the loop of `analyze_message_fields`. */
  method AnalyzeField(index: TypeIndex, m: Message, realOneofs: set<int>, field: Field) returns (fieldInfo: FieldInfo)
    requires forall i :: i in realOneofs <==> RealOneof(m, i)
    ensures fieldInfo == FieldRecord(index, m, field)
  {
    var isPartOfRealOneof := false;
    var oneofName := "";
    if field.oneofIndex.Some? && field.oneofIndex.value in realOneofs {
      isPartOfRealOneof := true;
      oneofName := m.oneofDecls[field.oneofIndex.value].name;
    }
    var isOptional := field.proto3Optional || isPartOfRealOneof;
    var isRepeated := field.fieldLabel == LABEL_REPEATED;
    var isMap := IsMapField(index, field);
    var isRequired := !isOptional && !isRepeated && !isMap;
    var baseType := GetPythonType(index, field);
    if isPartOfRealOneof && !StartsWith(baseType, "Optional[") {
      baseType := "Optional[" + baseType + "]";
    }
    fieldInfo := FieldInfo(
      field.name, baseType, field.fieldType, isRequired, isRepeated, isOptional,
      isPartOfRealOneof, oneofName, isMap,
      if field.typeName != "" then Some(field.typeName) else None);
    if isMap {
      fieldInfo := fieldInfo.(repeated := false);
    }
  }

  /** A member of a real oneof is reported optional and as a oneof member
      under the declaration's name, and its hint is wrapped in Optional[...]
      exactly once. */
  lemma {:induction false} RealOneofMember(index: TypeIndex, m: Message, f: Field)
    requires f in m.fields && InRealOneof(m, f)
    ensures var r := FieldRecord(index, m, f);
      && r.isOneof && r.optional && !r.required
      && r.oneofName == m.oneofDecls[f.oneofIndex.value].name
      && r.typeHint == "Optional[" + GetPythonType(index, f) + "]"
      && !StartsWith(GetPythonType(index, f), "Optional[")
  {
    var j :| 0 <= j < |m.fields| && m.fields[j] == f;
    assert m.fields[j].oneofIndex == Some(f.oneofIndex.value);
  }

  /** Members of a synthetic oneof are not oneof members: only their own
      proto3_optional flag makes them optional. */
  lemma {:induction false} SyntheticOneofMember(index: TypeIndex, m: Message, f: Field)
    requires f.oneofIndex.Some? && HasProto3OptionalMember(m, f.oneofIndex.value)
    ensures var r := FieldRecord(index, m, f);
      !r.isOneof && r.oneofName == "" && (r.optional <==> f.proto3Optional)
  {
  }

  /** A oneof with one proto3 optional member and one ordinary member is
      synthetic: a single member suffices, not every member. */
  lemma MixedOneofIsSynthetic()
    ensures var a := Field("a", LABEL_OPTIONAL, TYPE_STRING, "", true, Some(0));
      var b := Field("b", LABEL_OPTIONAL, TYPE_INT32, "", false, Some(0));
      var m := Message("M", [a, b], [], [], [OneofDecl("choice")], false);
      !RealOneof(m, 0) && !FieldRecord(TypeIndex(map[], map[]), m, b).isOneof
  {
    var a := Field("a", LABEL_OPTIONAL, TYPE_STRING, "", true, Some(0));
    var b := Field("b", LABEL_OPTIONAL, TYPE_INT32, "", false, Some(0));
    var m := Message("M", [a, b], [], [], [OneofDecl("choice")], false);
    assert m.fields[0] == a;
    assert HasProto3OptionalMember(m, 0);
  }

  /** A map field flagged proto3_optional outside any oneof (which protoc
      never produces) is optional and not repeated, yet its hint is a
      Dict[...]: the Optional[ prefix property needs the field not to be a map. */
  lemma OptionalMapFieldIsUnwrapped()
    ensures var entry := Message("EntriesEntry", [], [], [], [], true);
      var index := TypeIndex(map[".p.M.EntriesEntry" := entry], map[]);
      var f := Field("entries", LABEL_REPEATED, TYPE_MESSAGE, ".p.M.EntriesEntry", true, None);
      var r := FieldRecord(index, Message("M", [f], [], [], [], false), f);
      r.optional && !r.repeated && r.isMap && !StartsWith(r.typeHint, "Optional[")
  {
    var entry := Message("EntriesEntry", [], [], [], [], true);
    var index := TypeIndex(map[".p.M.EntriesEntry" := entry], map[]);
    var f := Field("entries", LABEL_REPEATED, TYPE_MESSAGE, ".p.M.EntriesEntry", true, None);
    assert IsMapField(index, f);
  }

  /** Some record is optional. */
  predicate SomeOptional(fields: seq<FieldInfo>) {
    exists j :: 0 <= j < |fields| && fields[j].optional
  }

  /** The inner loop of `has_optional_fields`: it stops at the first
      optional record. */
  method AnyOptional(fields: seq<FieldInfo>) returns (b: bool)
    ensures b <==> SomeOptional(fields)
  {
    for j := 0 to |fields|
      invariant forall k :: 0 <= k < j ==> !fields[k].optional
    {
      if fields[j].optional {
        return true;
      }
    }
    return false;
  }

  /** `TypeAnalyzer.has_optional_fields`: whether a top-level message of the
      file has an optional field; it stops at the first one. */
  method HasOptionalFields(index: TypeIndex, file: ProtoFile) returns (b: bool)
    ensures b <==> exists i :: (0 <= i < |file.messageTypes| &&
      SomeOptional(AnalyzedFields(index, QualifiedName(file.package, "", file.messageTypes[i].name))))
  {
    for i := 0 to |file.messageTypes|
      invariant forall k :: 0 <= k < i ==>
        !SomeOptional(AnalyzedFields(index, QualifiedName(file.package, "", file.messageTypes[k].name)))
    {
      var messageType := file.messageTypes[i];
      var fullMessageName := if file.package != "" then "." + file.package + "." + messageType.name
                             else "." + messageType.name;
      assert fullMessageName == QualifiedName(file.package, "", messageType.name);
      var fields := AnalyzeMessageFields(index, fullMessageName);
      var found := AnyOptional(fields);
      if found {
        return true;
      }
    }
    return false;
  }
}
