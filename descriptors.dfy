/** The parts of protobuf's descriptor messages that the plugin reads, as
    plain values. Field types and labels keep their numeric codes, so a code
    the plugin does not know is still a value. */
module Descriptors {
  import opened Wrappers

  // FieldDescriptorProto.Type codes
  const TYPE_DOUBLE: int := 1
  const TYPE_FLOAT: int := 2
  const TYPE_INT64: int := 3
  const TYPE_UINT64: int := 4
  const TYPE_INT32: int := 5
  const TYPE_FIXED64: int := 6
  const TYPE_FIXED32: int := 7
  const TYPE_BOOL: int := 8
  const TYPE_STRING: int := 9
  const TYPE_GROUP: int := 10
  const TYPE_MESSAGE: int := 11
  const TYPE_BYTES: int := 12
  const TYPE_UINT32: int := 13
  const TYPE_ENUM: int := 14
  const TYPE_SFIXED32: int := 15
  const TYPE_SFIXED64: int := 16
  const TYPE_SINT32: int := 17
  const TYPE_SINT64: int := 18

  // FieldDescriptorProto.Label codes
  const LABEL_OPTIONAL: int := 1
  const LABEL_REQUIRED: int := 2
  const LABEL_REPEATED: int := 3

  /** FieldDescriptorProto; `oneofIndex` is `None` when the field has no
      `oneof_index` set. */
  datatype Field = Field(
    name: string,
    fieldLabel: int,
    fieldType: int,
    typeName: string,
    proto3Optional: bool,
    oneofIndex: Option<int>)

  datatype OneofDecl = OneofDecl(name: string)

  datatype EnumDescriptor = EnumDescriptor(name: string)

  /** DescriptorProto; `mapEntry` is `options.map_entry`. */
  datatype Message = Message(
    name: string,
    fields: seq<Field>,
    nestedTypes: seq<Message>,
    enumTypes: seq<EnumDescriptor>,
    oneofDecls: seq<OneofDecl>,
    mapEntry: bool)

  datatype RpcMethod = RpcMethod(
    name: string,
    inputType: string,
    outputType: string,
    clientStreaming: bool,
    serverStreaming: bool)

  datatype Service = Service(name: string, methods: seq<RpcMethod>)

  /** SourceCodeInfo.Location */
  datatype Location = Location(path: seq<int>, leadingComments: string, trailingComments: string)

  /** FileDescriptorProto; `sourceCodeInfo` is `None` when the file carries
      no source code info. */
  datatype ProtoFile = ProtoFile(
    name: string,
    package: string,
    messageTypes: seq<Message>,
    enumTypes: seq<EnumDescriptor>,
    services: seq<Service>,
    sourceCodeInfo: Option<seq<Location>>)

  /** CodeGeneratorRequest */
  datatype Request = Request(
    fileToGenerate: seq<string>,
    parameter: string,
    protoFile: seq<ProtoFile>)

  /** The lookup tables of fully qualified type names that the indexer
      fills and the type analyzer reads. */
  datatype TypeIndex = TypeIndex(
    messages: map<string, Message>,
    enums: map<string, EnumDescriptor>)

  /** The fully qualified name given to a type called `name` declared in
      `package` inside the dotted chain of enclosing messages `parent`
      (empty at top level). With a parent the package is written even when
      it is empty, which yields names beginning with "..". */
  function QualifiedName(package: string, parent: string, name: string): (r: string)
    ensures |r| > |name| && r[0] == '.'
  {
    if parent != "" then "." + package + "." + parent + "." + name
    else if package != "" then "." + package + "." + name
    else "." + name
  }

  /** The parent chain handed to the types nested in message `name`. */
  function ChildParent(parent: string, name: string): string {
    if parent != "" then parent + "." + name else name
  }
}
