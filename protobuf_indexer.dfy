/** The descriptor indexer: flat tables of every message and enum type by
    fully qualified name, the package of every file, and the comments of
    every file keyed by source path. */
module Indexer {
  import opened Wrappers
  import opened Strings
  import opened Collections
  import opened Descriptors

  // ---------------------------------------------------------------------
  // Specification of the type tables

  /** The enum table after inserting `enums` in order under `parent`. */
  function IndexedEnums(acc: map<string, EnumDescriptor>, enums: seq<EnumDescriptor>,
                        package: string, parent: string): map<string, EnumDescriptor>
    decreases |enums|
  {
    if enums == [] then acc
    else
      var e := enums[|enums| - 1];
      IndexedEnums(acc, enums[..|enums| - 1], package, parent)[QualifiedName(package, parent, e.name) := e]
  }

  /** The tables after indexing `messages` in order under `parent`. */
  function IndexedMessages(acc: TypeIndex, messages: seq<Message>,
                           package: string, parent: string): TypeIndex
    decreases messages
  {
    if messages == [] then acc
    else
      IndexedMessage(IndexedMessages(acc, messages[..|messages| - 1], package, parent),
                     messages[|messages| - 1], package, parent)
  }

  /** One message: itself first, then its nested messages, then its nested
      enums, all under the parent chain extended by its name. */
  function IndexedMessage(acc: TypeIndex, m: Message, package: string, parent: string): TypeIndex
    decreases m
  {
    var withSelf := TypeIndex(acc.messages[QualifiedName(package, parent, m.name) := m], acc.enums);
    var child := ChildParent(parent, m.name);
    var withNested := IndexedMessages(withSelf, m.nestedTypes, package, child);
    TypeIndex(withNested.messages, IndexedEnums(withNested.enums, m.enumTypes, package, child))
  }

  /** The tables after indexing one file's top-level messages and enums. */
  function IndexedFile(acc: TypeIndex, file: ProtoFile): TypeIndex {
    var a := IndexedMessages(acc, file.messageTypes, file.package, "");
    TypeIndex(a.messages, IndexedEnums(a.enums, file.enumTypes, file.package, ""))
  }

  function IndexedFiles(acc: TypeIndex, files: seq<ProtoFile>): TypeIndex
    decreases |files|
  {
    if files == [] then acc
    else IndexedFile(IndexedFiles(acc, files[..|files| - 1]), files[|files| - 1])
  }

  // ---------------------------------------------------------------------
  // Reference definition: the names a tree of declarations receives

  function EnumNames(enums: seq<EnumDescriptor>, package: string, parent: string): set<string>
    decreases |enums|
  {
    if enums == [] then {}
    else EnumNames(enums[..|enums| - 1], package, parent) + {QualifiedName(package, parent, enums[|enums| - 1].name)}
  }

  /** The names of the messages of `messages` at every depth. */
  function MessageNames(messages: seq<Message>, package: string, parent: string): set<string>
    decreases messages
  {
    if messages == [] then {}
    else MessageNames(messages[..|messages| - 1], package, parent) + TreeMessageNames(messages[|messages| - 1], package, parent)
  }

  function TreeMessageNames(m: Message, package: string, parent: string): set<string>
    decreases m
  {
    {QualifiedName(package, parent, m.name)} + MessageNames(m.nestedTypes, package, ChildParent(parent, m.name))
  }

  /** The names of the enums nested, at any depth, in the messages of `messages`. */
  function NestedEnumNames(messages: seq<Message>, package: string, parent: string): set<string>
    decreases messages
  {
    if messages == [] then {}
    else NestedEnumNames(messages[..|messages| - 1], package, parent) + TreeEnumNames(messages[|messages| - 1], package, parent)
  }

  function TreeEnumNames(m: Message, package: string, parent: string): set<string>
    decreases m
  {
    var child := ChildParent(parent, m.name);
    NestedEnumNames(m.nestedTypes, package, child) + EnumNames(m.enumTypes, package, child)
  }

  lemma {:induction false} IndexedEnumsKeys(acc: map<string, EnumDescriptor>, enums: seq<EnumDescriptor>,
                                            package: string, parent: string)
    ensures IndexedEnums(acc, enums, package, parent).Keys == acc.Keys + EnumNames(enums, package, parent)
    decreases |enums|
  {
    if enums != [] {
      IndexedEnumsKeys(acc, enums[..|enums| - 1], package, parent);
    }
  }

  /** Indexing inserts exactly the names of the whole tree: every message at
      any depth, and every enum nested in any of them. */
  lemma {:induction false} IndexedMessagesKeys(acc: TypeIndex, messages: seq<Message>, package: string, parent: string)
    ensures IndexedMessages(acc, messages, package, parent).messages.Keys ==
            acc.messages.Keys + MessageNames(messages, package, parent)
    ensures IndexedMessages(acc, messages, package, parent).enums.Keys ==
            acc.enums.Keys + NestedEnumNames(messages, package, parent)
    decreases messages
  {
    if messages != [] {
      var n := |messages| - 1;
      IndexedMessagesKeys(acc, messages[..n], package, parent);
      IndexedMessageKeys(IndexedMessages(acc, messages[..n], package, parent), messages[n], package, parent);
    }
  }

  lemma {:induction false} IndexedMessageKeys(acc: TypeIndex, m: Message, package: string, parent: string)
    ensures IndexedMessage(acc, m, package, parent).messages.Keys ==
            acc.messages.Keys + TreeMessageNames(m, package, parent)
    ensures IndexedMessage(acc, m, package, parent).enums.Keys ==
            acc.enums.Keys + TreeEnumNames(m, package, parent)
    decreases m
  {
    var withSelf := TypeIndex(acc.messages[QualifiedName(package, parent, m.name) := m], acc.enums);
    var child := ChildParent(parent, m.name);
    IndexedMessagesKeys(withSelf, m.nestedTypes, package, child);
    var withNested := IndexedMessages(withSelf, m.nestedTypes, package, child);
    IndexedEnumsKeys(withNested.enums, m.enumTypes, package, child);
  }

  /** Indexing leaves every entry whose name is not in the tree as it was. */
  lemma {:induction false} IndexedMessagesFrame(acc: TypeIndex, messages: seq<Message>, package: string, parent: string, k: string)
    requires k in acc.messages && k !in MessageNames(messages, package, parent)
    ensures k in IndexedMessages(acc, messages, package, parent).messages
    ensures IndexedMessages(acc, messages, package, parent).messages[k] == acc.messages[k]
    decreases messages
  {
    if messages != [] {
      var n := |messages| - 1;
      IndexedMessagesFrame(acc, messages[..n], package, parent, k);
      IndexedMessageFrame(IndexedMessages(acc, messages[..n], package, parent), messages[n], package, parent, k);
    }
  }

  lemma {:induction false} IndexedMessageFrame(acc: TypeIndex, m: Message, package: string, parent: string, k: string)
    requires k in acc.messages && k !in TreeMessageNames(m, package, parent)
    ensures k in IndexedMessage(acc, m, package, parent).messages
    ensures IndexedMessage(acc, m, package, parent).messages[k] == acc.messages[k]
    decreases m
  {
    var withSelf := TypeIndex(acc.messages[QualifiedName(package, parent, m.name) := m], acc.enums);
    IndexedMessagesFrame(withSelf, m.nestedTypes, package, ChildParent(parent, m.name), k);
  }

  /** Under a non-empty parent chain every name is longer than the package
      and the chain together with the three dots that separate them. */
  lemma {:induction false} NestedNamesLong(messages: seq<Message>, package: string, parent: string)
    requires parent != ""
    ensures forall k :: k in MessageNames(messages, package, parent) ==> |k| >= |package| + |parent| + 3
    decreases messages
  {
    if messages != [] {
      var n := |messages| - 1;
      var m := messages[n];
      NestedNamesLong(messages[..n], package, parent);
      NestedNamesLong(m.nestedTypes, package, ChildParent(parent, m.name));
    }
  }

  /** The last of several messages with the same qualified name is the one
      indexed: its own nested types never take its name. */
  lemma {:induction false} LastMessageWins(acc: TypeIndex, messages: seq<Message>, package: string, parent: string)
    requires messages != [] && messages[|messages| - 1].name != ""
    ensures var last := messages[|messages| - 1];
      var result := IndexedMessages(acc, messages, package, parent);
      QualifiedName(package, parent, last.name) in result.messages &&
      result.messages[QualifiedName(package, parent, last.name)] == last
  {
    var n := |messages| - 1;
    var m := messages[n];
    var before := IndexedMessages(acc, messages[..n], package, parent);
    var key := QualifiedName(package, parent, m.name);
    var withSelf := TypeIndex(before.messages[key := m], before.enums);
    var child := ChildParent(parent, m.name);
    NestedNamesLong(m.nestedTypes, package, child);
    assert key !in MessageNames(m.nestedTypes, package, child);
    IndexedMessagesFrame(withSelf, m.nestedTypes, package, child, key);
  }

  /** A top-level message of a package is ".pkg.Name"; a nested message of
      an empty package keeps the empty package segment: "..Outer.Inner". */
  lemma QualifiedNameExamples()
    ensures QualifiedName("pkg", "", "Outer") == ".pkg.Outer"
    ensures QualifiedName("", ChildParent("", "Outer"), "Inner") == "..Outer.Inner"
  {
  }

  /** Indexing an `Outer { Inner; enum Kind }` tree in an empty package. */
  lemma EmptyPackageTree()
    ensures var inner := Message("Inner", [], [], [], [], false);
      var outer := Message("Outer", [], [inner], [EnumDescriptor("Kind")], [], false);
      var r := IndexedMessages(TypeIndex(map[], map[]), [outer], "", "");
      r.messages.Keys == {".Outer", "..Outer.Inner"} && r.enums.Keys == {"..Outer.Kind"}
  {
    var inner := Message("Inner", [], [], [], [], false);
    var outer := Message("Outer", [], [inner], [EnumDescriptor("Kind")], [], false);
    var kind := EnumDescriptor("Kind");
    IndexedMessagesKeys(TypeIndex(map[], map[]), [outer], "", "");
    assert [outer][..0] == [] && [inner][..0] == [] && [kind][..0] == [];
    assert QualifiedName("", "", "Outer") == ".Outer";
    assert QualifiedName("", "Outer", "Inner") == "..Outer.Inner";
    assert QualifiedName("", "Outer", "Kind") == "..Outer.Kind";
    assert ChildParent("", "Outer") == "Outer";
    assert MessageNames([inner], "", "Outer") == {QualifiedName("", "Outer", "Inner")};
    assert NestedEnumNames([inner], "", "Outer") == {};
    assert EnumNames([kind], "", "Outer") == {QualifiedName("", "Outer", "Kind")};
    assert MessageNames([outer], "", "") == {QualifiedName("", "", "Outer"), QualifiedName("", "Outer", "Inner")};
    assert NestedEnumNames([outer], "", "") == {QualifiedName("", "Outer", "Kind")};
  }

  // ---------------------------------------------------------------------
  // Specification of the per-file tables

  function PackageEntries(files: seq<ProtoFile>): (r: seq<Option<(string, string)>>)
    ensures |r| == |files|
    ensures forall i :: 0 <= i < |files| ==> r[i] == Some((files[i].name, files[i].package))
  {
    seq(|files|, i requires 0 <= i < |files| => Some((files[i].name, files[i].package)))
  }

  /** `file_packages` contributed by `files` (a later file of the same name wins). */
  function FilePackages(files: seq<ProtoFile>): map<string, string> {
    Assoc(PackageEntries(files))
  }

  lemma FilePackagesSnoc(files: seq<ProtoFile>, i: int)
    requires 0 <= i < |files|
    ensures FilePackages(files[..i + 1]) == FilePackages(files[..i])[files[i].name := files[i].package]
  {
    assert PackageEntries(files[..i + 1]) == PackageEntries(files[..i]) + [Some((files[i].name, files[i].package))];
    AssocSnoc(PackageEntries(files[..i]), Some((files[i].name, files[i].package)));
  }

  /** Every file of the request has its package recorded, the last file of
      a given name deciding. */
  lemma {:induction false} FilePackagesRecorded(files: seq<ProtoFile>, i: int)
    requires 0 <= i < |files|
    requires forall j :: i < j < |files| ==> files[j].name != files[i].name
    ensures files[i].name in FilePackages(files)
    ensures FilePackages(files)[files[i].name] == files[i].package
  {
    var entries := PackageEntries(files);
    forall j | i < j < |entries| ensures !Assigns(entries, j, entries[i].value.0) {
    }
    AssocLastWins(entries, i);
  }

  /** The parts of a location's comment: its stripped leading text and then
      its stripped trailing text, each present when non-empty as written. */
  function CommentParts(loc: Location): (r: seq<string>)
    ensures r == [] <==> loc.leadingComments == "" && loc.trailingComments == ""
    ensures |r| <= 2
  {
    (if loc.leadingComments != "" then [Strip(loc.leadingComments)] else []) +
    (if loc.trailingComments != "" then [Strip(loc.trailingComments)] else [])
  }

  /** The comment a location contributes, if any: its parts joined by a space. */
  function CommentEntry(loc: Location): (r: Option<(seq<int>, string)>)
    ensures r.Some? <==> loc.leadingComments != "" || loc.trailingComments != ""
    ensures r.Some? ==> r.value.0 == loc.path
  {
    var parts := CommentParts(loc);
    if parts == [] then None else Some((loc.path, JoinWith(parts, " ")))
  }

  /** The text stored for a location, case by case. */
  lemma CommentEntryText(loc: Location)
    ensures loc.leadingComments != "" && loc.trailingComments != "" ==>
      CommentEntry(loc) == Some((loc.path, Strip(loc.leadingComments) + " " + Strip(loc.trailingComments)))
    ensures loc.leadingComments != "" && loc.trailingComments == "" ==>
      CommentEntry(loc) == Some((loc.path, Strip(loc.leadingComments)))
    ensures loc.leadingComments == "" && loc.trailingComments != "" ==>
      CommentEntry(loc) == Some((loc.path, Strip(loc.trailingComments)))
  {
    JoinWithSmall(Strip(loc.leadingComments), Strip(loc.trailingComments), " ");
    JoinWithSmall(Strip(loc.trailingComments), "", " ");
  }

  /** A location with only whitespace on both sides still stores an empty
      comment: the emptiness test precedes the stripping. */
  lemma BlankCommentStored()
    ensures CommentEntry(Location([4, 0], " ", "")) == Some(([4, 0], ""))
  {
    CommentEntryText(Location([4, 0], " ", ""));
    assert IsBlank(" ");
  }

  function CommentEntries(locations: seq<Location>): (r: seq<Option<(seq<int>, string)>>)
    ensures |r| == |locations|
    ensures forall i :: 0 <= i < |locations| ==> r[i] == CommentEntry(locations[i])
  {
    seq(|locations|, i requires 0 <= i < |locations| => CommentEntry(locations[i]))
  }

  /** The comment table of one file's locations. */
  function CommentsOf(locations: seq<Location>): map<seq<int>, string> {
    Assoc(CommentEntries(locations))
  }

  lemma CommentsOfSnoc(locations: seq<Location>, i: int)
    requires 0 <= i < |locations|
    ensures CommentEntry(locations[i]).None? ==> CommentsOf(locations[..i + 1]) == CommentsOf(locations[..i])
    ensures CommentEntry(locations[i]).Some? ==>
      CommentsOf(locations[..i + 1]) == CommentsOf(locations[..i])[locations[i].path := CommentEntry(locations[i]).value.1]
  {
    assert CommentEntries(locations[..i + 1]) == CommentEntries(locations[..i]) + [CommentEntry(locations[i])];
    AssocSnoc(CommentEntries(locations[..i]), CommentEntry(locations[i]));
  }

  /** A path has a comment exactly when some location with that path has a
      non-empty leading or trailing text. */
  lemma {:induction false} CommentStored(locations: seq<Location>, path: seq<int>)
    ensures path in CommentsOf(locations) <==>
      exists i :: 0 <= i < |locations| && locations[i].path == path &&
        (locations[i].leadingComments != "" || locations[i].trailingComments != "")
  {
    var entries := CommentEntries(locations);
    AssocHasKey(entries, path);
    if exists i :: Assigns(entries, i, path) {
      var i :| Assigns(entries, i, path);
      assert locations[i].path == path;
    }
    if exists i :: 0 <= i < |locations| && locations[i].path == path &&
        (locations[i].leadingComments != "" || locations[i].trailingComments != "") {
      var i :| 0 <= i < |locations| && locations[i].path == path &&
        (locations[i].leadingComments != "" || locations[i].trailingComments != "");
      assert Assigns(entries, i, path);
    }
  }

  /** The comment stored for a path is that of the last location with that
      path and some text. */
  lemma {:induction false} CommentLastWins(locations: seq<Location>, i: int)
    requires 0 <= i < |locations|
    requires locations[i].leadingComments != "" || locations[i].trailingComments != ""
    requires forall j :: i < j < |locations| && locations[j].path == locations[i].path ==>
      locations[j].leadingComments == "" && locations[j].trailingComments == ""
    ensures locations[i].path in CommentsOf(locations)
    ensures CommentEntry(locations[i]) == Some((locations[i].path, CommentsOf(locations)[locations[i].path]))
  {
    var entries := CommentEntries(locations);
    forall j | i < j < |entries| ensures !Assigns(entries, j, entries[i].value.0) {
    }
    AssocLastWins(entries, i);
  }

  /** The locations of a file; an unset `source_code_info` reads as an empty
      message, which has none. */
  function FileLocations(file: ProtoFile): seq<Location> {
    match file.sourceCodeInfo
    case None => []
    case Some(locations) => locations
  }

  /** `source_comments` after extracting the comments of `file`. */
  function CommentsAfter(acc: map<string, map<seq<int>, string>>, file: ProtoFile): map<string, map<seq<int>, string>> {
    acc[file.name := CommentsOf(FileLocations(file))]
  }

  /** A file without source code info still gets a table, an empty one,
      which replaces any table stored under its name before; other files
      keep theirs. */
  lemma NoSourceInfoEmptyTable(acc: map<string, map<seq<int>, string>>, file: ProtoFile, other: string)
    requires file.sourceCodeInfo.None?
    ensures file.name in CommentsAfter(acc, file)
    ensures CommentsAfter(acc, file)[file.name] == map[]
    ensures other != file.name && other in acc ==>
      other in CommentsAfter(acc, file) && CommentsAfter(acc, file)[other] == acc[other]
  {
  }

  function CommentsOfFiles(acc: map<string, map<seq<int>, string>>, files: seq<ProtoFile>): map<string, map<seq<int>, string>>
    decreases |files|
  {
    if files == [] then acc
    else CommentsAfter(CommentsOfFiles(acc, files[..|files| - 1]), files[|files| - 1])
  }

  /** The comment table of a file is the one of its locations, unless a
      later file has the same name. */
  lemma {:induction false} CommentsOfFilesLast(acc: map<string, map<seq<int>, string>>, files: seq<ProtoFile>, i: int)
    requires 0 <= i < |files|
    requires forall j :: i < j < |files| ==> files[j].name != files[i].name
    ensures files[i].name in CommentsOfFiles(acc, files)
    ensures CommentsOfFiles(acc, files)[files[i].name] == CommentsOf(FileLocations(files[i]))
    decreases |files|
  {
    var prefix := files[..|files| - 1];
    var last := files[|files| - 1];
    if i < |files| - 1 {
      assert prefix[i] == files[i];
      forall j | i < j < |prefix| ensures prefix[j].name != prefix[i].name {
        assert prefix[j] == files[j];
      }
      CommentsOfFilesLast(acc, prefix, i);
      CommentsAfterOther(CommentsOfFiles(acc, prefix), last, files[i].name);
    } else {
      CommentsAfterSelf(CommentsOfFiles(acc, prefix), last);
    }
  }

  /** Extracting the comments of a file stores its table under its name. */
  lemma CommentsAfterSelf(acc: map<string, map<seq<int>, string>>, file: ProtoFile)
    ensures file.name in CommentsAfter(acc, file)
    ensures CommentsAfter(acc, file)[file.name] == CommentsOf(FileLocations(file))
  {
  }

  /** Extracting the comments of one file leaves the tables of the other
      names alone. */
  lemma CommentsAfterOther(acc: map<string, map<seq<int>, string>>, file: ProtoFile, name: string)
    requires name != file.name && name in acc
    ensures name in CommentsAfter(acc, file) && CommentsAfter(acc, file)[name] == acc[name]
  {
  }

  /** One more file of the request. */
  lemma FilesSnoc(index: TypeIndex, comments: map<string, map<seq<int>, string>>, files: seq<ProtoFile>, i: nat)
    requires i < |files|
    ensures IndexedFiles(index, files[..i + 1]) == IndexedFile(IndexedFiles(index, files[..i]), files[i])
    ensures CommentsOfFiles(comments, files[..i + 1]) == CommentsAfter(CommentsOfFiles(comments, files[..i]), files[i])
  {
    assert files[..i + 1][..i] == files[..i];
  }

  // ---------------------------------------------------------------------
  // The indexer object

  class ProtobufIndexer {
    var messageTypes: map<string, Message>
    var enumTypes: map<string, EnumDescriptor>
    var filePackages: map<string, string>
    var sourceComments: map<string, map<seq<int>, string>>

    constructor ()
      ensures messageTypes == map[] && enumTypes == map[]
      ensures filePackages == map[] && sourceComments == map[]
    {
      messageTypes, enumTypes := map[], map[];
      filePackages, sourceComments := map[], map[];
    }

    /** The type tables as the analyzer receives them. */
    function Index(): TypeIndex
      reads this
    {
      TypeIndex(messageTypes, enumTypes)
    }

    /** `build_type_index`: every file of the request, in order, including
        the ones that are not generated. */
    method BuildTypeIndex(files: seq<ProtoFile>)
      modifies this
      ensures Index() == IndexedFiles(old(Index()), files)
      ensures filePackages == old(filePackages) + FilePackages(files)
      ensures sourceComments == CommentsOfFiles(old(sourceComments), files)
    {
      for i := 0 to |files|
        invariant Index() == IndexedFiles(old(Index()), files[..i])
        invariant filePackages == old(filePackages) + FilePackages(files[..i])
        invariant sourceComments == CommentsOfFiles(old(sourceComments), files[..i])
      {
        FilesSnoc(old(Index()), old(sourceComments), files, i);
        FilePackagesSnoc(files, i);
        MergeUpdate(old(filePackages), FilePackages(files[..i]), files[i].name, files[i].package);
        IndexFile(files[i]);
      }
      assert files[..|files|] == files;
    }

    /** One pass of the loop of `build_type_index`. */
    method IndexFile(protoFile: ProtoFile)
      modifies this
      ensures Index() == IndexedFile(old(Index()), protoFile)
      ensures filePackages == old(filePackages)[protoFile.name := protoFile.package]
      ensures sourceComments == CommentsAfter(old(sourceComments), protoFile)
    {
      filePackages := filePackages[protoFile.name := protoFile.package];
      ExtractComments(protoFile);
      IndexMessages(protoFile.messageTypes, protoFile.package, "");
      ghost var afterMessages := Index();
      IndexEnums(protoFile.enumTypes, protoFile.package, "");
      assert enumTypes == IndexedEnums(afterMessages.enums, protoFile.enumTypes, protoFile.package, "");
    }

    /** `extract_comments`. Its early return for a file without source code
        info never fires: the unset message is truthy. */
    method ExtractComments(file: ProtoFile)
      modifies this`sourceComments
      ensures sourceComments == CommentsAfter(old(sourceComments), file)
    {
      var locations := FileLocations(file);
      var comments: map<seq<int>, string> := map[];
      for i := 0 to |locations|
        invariant comments == CommentsOf(locations[..i])
        invariant sourceComments == old(sourceComments)
      {
        var location := locations[i];
        CommentsOfSnoc(locations, i);
        var pathKey := location.path;
        var commentParts: seq<string> := [];
        if location.leadingComments != "" {
          commentParts := commentParts + [Strip(location.leadingComments)];
        }
        assert commentParts == if location.leadingComments != "" then [Strip(location.leadingComments)] else [];
        if location.trailingComments != "" {
          commentParts := commentParts + [Strip(location.trailingComments)];
        }
        assert commentParts == CommentParts(location);
        if commentParts != [] {
          comments := comments[pathKey := JoinWith(commentParts, " ")];
        }
      }
      assert locations[..|locations|] == locations;
      sourceComments := sourceComments[file.name := comments];
    }

    /** `get_comment`: the empty string for an unknown file or path. */
    function GetComment(protoFileName: string, path: seq<int>): (r: string)
      reads this
      ensures protoFileName !in sourceComments ==> r == ""
      ensures protoFileName in sourceComments && path !in sourceComments[protoFileName] ==> r == ""
      ensures protoFileName in sourceComments && path in sourceComments[protoFileName] ==>
        r == sourceComments[protoFileName][path]
    {
      if protoFileName !in sourceComments then ""
      else if path in sourceComments[protoFileName] then sourceComments[protoFileName][path]
      else ""
    }

    /** After the comments of `files` are extracted, `get_comment` of a file
        that no later file shares a name with gives "" when no location with
        the path has text, gives only a stored text otherwise, and gives the
        text of the last location with that path and some text. */
    lemma CommentAfterBuild(acc: map<string, map<seq<int>, string>>, files: seq<ProtoFile>, i: int, path: seq<int>)
      requires sourceComments == CommentsOfFiles(acc, files)
      requires 0 <= i < |files| && forall j :: i < j < |files| ==> files[j].name != files[i].name
      ensures var locs := FileLocations(files[i]);
        (forall k :: 0 <= k < |locs| && locs[k].path == path ==> locs[k].leadingComments == "" && locs[k].trailingComments == "") ==>
        GetComment(files[i].name, path) == ""
      ensures var locs := FileLocations(files[i]);
        forall k :: (0 <= k < |locs| && locs[k].path == path && (locs[k].leadingComments != "" || locs[k].trailingComments != "") &&
                     (forall m :: k < m < |locs| && locs[m].path == path ==> locs[m].leadingComments == "" && locs[m].trailingComments == "")) ==>
        CommentEntry(locs[k]) == Some((path, GetComment(files[i].name, path)))
    {
      var locs := FileLocations(files[i]);
      CommentsOfFilesLast(acc, files, i);
      CommentStored(locs, path);
      forall k | 0 <= k < |locs| && locs[k].path == path && (locs[k].leadingComments != "" || locs[k].trailingComments != "") &&
          (forall m :: k < m < |locs| && locs[m].path == path ==> locs[m].leadingComments == "" && locs[m].trailingComments == "")
        ensures CommentEntry(locs[k]) == Some((path, GetComment(files[i].name, path)))
      {
        CommentLastWins(locs, k);
      }
    }

    /** `index_messages` */
    method IndexMessages(messages: seq<Message>, package: string, parentName: string)
      modifies this`messageTypes, this`enumTypes
      ensures Index() == IndexedMessages(old(Index()), messages, package, parentName)
      decreases messages
    {
      for i := 0 to |messages|
        invariant Index() == IndexedMessages(old(Index()), messages[..i], package, parentName)
      {
        var message := messages[i];
        assert messages[..i + 1][..i] == messages[..i];
        ghost var before := Index();
        var fullName := if parentName != "" then "." + package + "." + parentName + "." + message.name
                        else if package != "" then "." + package + "." + message.name
                        else "." + message.name;
        messageTypes := messageTypes[fullName := message];
        ghost var withSelf := Index();
        var nestedParent := if parentName != "" then parentName + "." + message.name else message.name;
        assert nestedParent == ChildParent(parentName, message.name);
        if message.nestedTypes != [] {
          IndexMessages(message.nestedTypes, package, nestedParent);
        }
        assert Index() == IndexedMessages(withSelf, message.nestedTypes, package, nestedParent);
        ghost var withNested := Index();
        if message.enumTypes != [] {
          IndexEnums(message.enumTypes, package, nestedParent);
        }
        assert enumTypes == IndexedEnums(withNested.enums, message.enumTypes, package, nestedParent);
        assert Index() == IndexedMessage(before, message, package, parentName);
      }
      assert messages[..|messages|] == messages;
    }

    /** `index_enums` */
    method IndexEnums(enums: seq<EnumDescriptor>, package: string, parentName: string)
      modifies this`enumTypes
      ensures enumTypes == IndexedEnums(old(enumTypes), enums, package, parentName)
    {
      for i := 0 to |enums|
        invariant enumTypes == IndexedEnums(old(enumTypes), enums[..i], package, parentName)
      {
        var e := enums[i];
        assert enums[..i + 1][..i] == enums[..i];
        var fullName := if parentName != "" then "." + package + "." + parentName + "." + e.name
                        else if package != "" then "." + package + "." + e.name
                        else "." + e.name;
        enumTypes := enumTypes[fullName := e];
      }
      assert enums[..|enums|] == enums;
    }
  }
}
