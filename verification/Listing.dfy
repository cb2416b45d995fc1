/** Directory trees: the recursive listing that a side sends, and the recursive purge of temporary
    files when the client starts. */
module Listing {
  import opened Seqs
  import opened Codec
  import opened Chunking
  import opened Transfer
  import opened Link
  import Reconcile

  datatype Node =
    | File(name: string, content: Bytes)
    | Folder(name: string, entries: seq<Node>)

  const SLASH: char := '/'

  /** What a file system keeps: the names in a directory are distinct and have no slash. A listing
      needs them without bars, too. */
  ghost predicate WellFormed(entries: seq<Node>)
    decreases entries
  {
    && (forall i, j :: 0 <= i < j < |entries| ==> entries[i].name != entries[j].name)
    && (forall i :: 0 <= i < |entries| ==>
          entries[i].name != "" && Free(entries[i].name, SLASH) && Free(entries[i].name, BAR))
    && (forall i :: 0 <= i < |entries| && entries[i].Folder? ==> WellFormed(entries[i].entries))
  }

  /** The paths of the regular files below a directory, in the order of a recursive walk. */
  function Paths(entries: seq<Node>, prefix: string): seq<string>
    decreases entries, 0
  {
    if entries == [] then [] else NodePaths(entries[0], prefix) + Paths(entries[1..], prefix)
  }

  function NodePaths(node: Node, prefix: string): seq<string>
    decreases node, 1
  {
    var path := prefix + [SLASH] + node.name;
    if node.File? then [path] else Paths(node.entries, path)
  }

  // ----- the listing -----

  /** The walk of slist_: appends every file's path to the output, after a bar unless the output is
      still empty. */
  method List(entries: seq<Node>, prefix: string, output: string) returns (out: string)
    ensures out == Extended(output, Paths(entries, prefix))
    decreases entries, 0
  {
    out := output;
    var i := 0;
    assert entries[0..] == entries;
    while i < |entries|
      invariant 0 <= i <= |entries|
      invariant Extended(out, Paths(entries[i..], prefix)) == Extended(output, Paths(entries, prefix))
    {
      ListStep(out, entries, prefix, i);
      out := ListNode(entries[i], prefix, out);
      i := i + 1;
    }
    assert Paths(entries[i..], prefix) == [];
  }

  method ListNode(node: Node, prefix: string, output: string) returns (out: string)
    ensures out == Extended(output, NodePaths(node, prefix))
    decreases node, 1
  {
    var path := prefix + [SLASH] + node.name;
    if node.File? {
      ExtendedOne(output, path);
      if |output| > 0 {
        out := output + [BAR] + path;
      } else {
        out := output + path;
      }
    } else {
      out := List(node.entries, path, output);
    }
  }

  /** Whether a path of these components leads to something: only a folder has anything below it. */
  predicate Exists(entries: seq<Node>, path: seq<string>)
    requires path != []
    decreases |path|
  {
    exists i :: 0 <= i < |entries| && entries[i].name == path[0]
             && (|path| == 1 || (entries[i].Folder? && Exists(entries[i].entries, path[1..])))
  }

  /** The walk as it is written: it appends a regular file's name to its path twice and lists the file
      if there is something at that path. Its branch for directories is for regular files only, and so
      is left out. Nothing is ever listed. */
  method ListAsWritten(entries: seq<Node>, prefix: string) returns (out: string)
    requires WellFormed(entries)
    ensures out == ""
  {
    out := "";
    for i := 0 to |entries|
      invariant out == ""
    {
      var name := entries[i].name;
      var path := prefix + [SLASH] + name + [SLASH] + name;
      if entries[i].File? && Exists(entries, [name, name]) {
        out := if |out| > 0 then out + [BAR] + path else path;
      }
    }
  }

  lemma ListStep(out: string, entries: seq<Node>, prefix: string, i: nat)
    requires i < |entries|
    ensures Extended(out, Paths(entries[i..], prefix))
         == Extended(Extended(out, NodePaths(entries[i], prefix)), Paths(entries[i + 1..], prefix))
  {
    assert entries[i..][1..] == entries[i + 1..];
    ExtendedConcat(out, NodePaths(entries[i], prefix), Paths(entries[i + 1..], prefix));
  }

  /** Names appended to an output, each after a bar unless the output is still empty. */
  function Extended(output: string, names: seq<string>): string
    decreases |names|
  {
    if names == [] then output else
      Extended(if output == "" then names[0] else output + [BAR] + names[0], names[1..])
  }

  lemma ExtendedOne(output: string, name: string)
    ensures Extended(output, [name]) == if output == "" then name else output + [BAR] + name
  {
    assert [name][1..] == [];
  }

  lemma {:induction false} ExtendedConcat(output: string, a: seq<string>, b: seq<string>)
    ensures Extended(output, a + b) == Extended(Extended(output, a), b)
    decreases |a|
  {
    if a == [] {
      assert a + b == b;
    } else {
      assert (a + b)[0] == a[0] && (a + b)[1..] == a[1..] + b;
      ExtendedConcat(if output == "" then a[0] else output + [BAR] + a[0], a[1..], b);
    }
  }

  lemma {:induction false} ExtendedIsJoin(output: string, names: seq<string>)
    requires output != "" && names != []
    ensures Extended(output, names) == output + [BAR] + Join(names)
    decreases |names|
  {
    if |names| == 1 {
      assert names[1..] == [];
    } else {
      ExtendedIsJoin(output + [BAR] + names[0], names[1..]);
    }
  }

  /** From an empty output the walk produces the listing of module Reconcile. */
  lemma ListingOfWalk(names: seq<string>)
    requires forall i :: 0 <= i < |names| ==> names[i] != ""
    ensures Extended("", names) == Reconcile.Listing(names)
  {
    if |names| > 1 {
      ExtendedIsJoin(names[0], names[1..]);
    }
  }

  /** A path below `prefix`: its next component is `name`. */
  ghost predicate Below(path: string, prefix: string, name: string) {
    && |path| > |prefix| && path[..|prefix|] == prefix && path[|prefix|] == SLASH
    && var rest := path[|prefix| + 1..]; rest[..IndexOf(rest, SLASH)] == name
  }

  lemma {:induction false} NodePathsBelow(node: Node, prefix: string, path: string)
    requires path in NodePaths(node, prefix) && Free(node.name, SLASH)
    requires node.Folder? ==> WellFormed(node.entries)
    ensures Below(path, prefix, node.name)
    decreases node, 1
  {
    var p := prefix + [SLASH] + node.name;
    if node.File? {
      assert path[|prefix| + 1..] == node.name;
      IndexOfUnique(node.name, SLASH, |node.name|);
    } else {
      PathsLonger(node.entries, p, path);
      var rest := path[|prefix| + 1..];
      assert path[..|p|] == p;
      assert rest[..|node.name|] == path[..|p|][|prefix| + 1..] == node.name;
      assert path[..|prefix|] == path[..|p|][..|prefix|];
      IndexOfUnique(rest, SLASH, |node.name|);
    }
  }

  /** Every listed path extends its directory's path by a slash and more, and has no bar of its
      own. */
  lemma {:induction false} PathsLonger(entries: seq<Node>, prefix: string, path: string)
    requires path in Paths(entries, prefix)
    ensures |path| > |prefix| && path[..|prefix|] == prefix && path[|prefix|] == SLASH
    decreases entries, 0
  {
    if path in NodePaths(entries[0], prefix) {
      var p := prefix + [SLASH] + entries[0].name;
      if entries[0].Folder? {
        PathsLonger(entries[0].entries, p, path);
        assert path[..|prefix|] == path[..|p|][..|prefix|];
        assert path[|prefix|] == path[..|p|][|prefix|];
      }
    } else {
      PathsLonger(entries[1..], prefix, path);
    }
  }

  /** Which entry a path comes from. */
  lemma {:induction false} PathsFromEntry(entries: seq<Node>, prefix: string, path: string) returns (i: nat)
    requires path in Paths(entries, prefix)
    ensures i < |entries| && path in NodePaths(entries[i], prefix)
    decreases |entries|
  {
    if path in NodePaths(entries[0], prefix) {
      i := 0;
    } else {
      i := PathsFromEntry(entries[1..], prefix, path);
      i := i + 1;
    }
  }

  lemma WellFormedTail(entries: seq<Node>)
    requires WellFormed(entries) && entries != []
    ensures WellFormed(entries[1..])
    ensures entries[0].Folder? ==> WellFormed(entries[0].entries)
  {
  }

  lemma DistinctConcat(a: seq<string>, b: seq<string>)
    requires Distinct(a) && Distinct(b) && forall x :: x in a ==> x !in b
    ensures Distinct(a + b)
  {
    forall i, j | 0 <= i < j < |a + b| ensures (a + b)[i] != (a + b)[j] {
      if i < |a| && j >= |a| {
        assert (a + b)[i] in a && (a + b)[j] in b;
      }
    }
  }

  /** Each regular file is listed exactly once: no two listed paths are equal. */
  lemma {:induction false} PathsDistinct(entries: seq<Node>, prefix: string)
    requires WellFormed(entries)
    ensures Distinct(Paths(entries, prefix))
    decreases entries
  {
    if entries != [] {
      var node, rest := entries[0], entries[1..];
      WellFormedTail(entries);
      PathsDistinct(rest, prefix);
      if node.Folder? {
        PathsDistinct(node.entries, prefix + [SLASH] + node.name);
      }
      forall path | path in NodePaths(node, prefix) ensures path !in Paths(rest, prefix) {
        NodePathsBelow(node, prefix, path);
        if path in Paths(rest, prefix) {
          var i := PathsFromEntry(rest, prefix, path);
          assert rest[i] == entries[i + 1];
          NodePathsBelow(rest[i], prefix, path);
        }
      }
      DistinctConcat(NodePaths(node, prefix), Paths(rest, prefix));
    }
  }

  /** Where a chain of positions leads: through folders to a file, whose path this is, or nowhere. */
  function Follow(entries: seq<Node>, prefix: string, chain: seq<nat>): Option<string>
    decreases |chain|
  {
    if chain == [] || chain[0] >= |entries| then None
    else
      var node := entries[chain[0]];
      var path := prefix + [SLASH] + node.name;
      if node.File? then (if |chain| == 1 then Some(path) else None)
      else Follow(node.entries, path, chain[1..])
  }

  lemma {:induction false} ChainToPath(entries: seq<Node>, prefix: string, path: string) returns (chain: seq<nat>)
    requires path in Paths(entries, prefix)
    ensures Follow(entries, prefix, chain) == Some(path)
    decreases entries
  {
    var i := PathsFromEntry(entries, prefix, path);
    if entries[i].File? {
      chain := [i];
    } else {
      var rest := ChainToPath(entries[i].entries, prefix + [SLASH] + entries[i].name, path);
      chain := [i] + rest;
      assert chain[1..] == rest;
    }
  }

  lemma {:induction false} ChainIsListed(entries: seq<Node>, prefix: string, chain: seq<nat>)
    requires Follow(entries, prefix, chain).Some?
    ensures Follow(entries, prefix, chain).value in Paths(entries, prefix)
    decreases |chain|
  {
    var node := entries[chain[0]];
    if node.Folder? {
      ChainIsListed(node.entries, prefix + [SLASH] + node.name, chain[1..]);
    }
    EntryIsListed(entries, prefix, chain[0], Follow(entries, prefix, chain).value);
  }

  lemma {:induction false} EntryIsListed(entries: seq<Node>, prefix: string, i: nat, path: string)
    requires i < |entries| && path in NodePaths(entries[i], prefix)
    ensures path in Paths(entries, prefix)
    decreases i
  {
    if i > 0 {
      EntryIsListed(entries[1..], prefix, i - 1, path);
    }
  }

  /** Every regular file is listed, and nothing else: the paths of the listing are those that some chain
      of folders leads to. */
  lemma EveryFileListed(entries: seq<Node>, prefix: string, path: string)
    ensures path in Paths(entries, prefix) <==> exists chain :: Follow(entries, prefix, chain) == Some(path)
  {
    if path in Paths(entries, prefix) {
      var chain := ChainToPath(entries, prefix, path);
    }
    forall chain | Follow(entries, prefix, chain) == Some(path) ensures path in Paths(entries, prefix) {
      ChainIsListed(entries, prefix, chain);
    }
  }

  lemma {:induction false} PathsBarFree(entries: seq<Node>, prefix: string, path: string)
    requires WellFormed(entries) && Free(prefix, BAR) && path in Paths(entries, prefix)
    ensures Free(path, BAR)
    decreases entries
  {
    WellFormedTail(entries);
    if path in NodePaths(entries[0], prefix) {
      if entries[0].Folder? {
        PathsBarFree(entries[0].entries, prefix + [SLASH] + entries[0].name, path);
      }
    } else {
      PathsBarFree(entries[1..], prefix, path);
    }
  }

  /** Listing round trip: for every tree the walk lists each file once, and both readers of the
      string recover that list, provided there is a file at all. */
  lemma ListingRoundTrip(entries: seq<Node>)
    requires WellFormed(entries)
    ensures var names, listing := Paths(entries, ""), Extended("", Paths(entries, ""));
            && Distinct(names) && GetLines(listing) == names
            && Split(listing) == if names == [] then [""] else names
  {
    var names := Paths(entries, "");
    PathsDistinct(entries, "");
    forall i | 0 <= i < |names| ensures names[i] != "" && Free(names[i], BAR) {
      PathsLonger(entries, "", names[i]);
      PathsBarFree(entries, "", names[i]);
    }
    ListingOfWalk(names);
    if names == [] {
      assert Extended("", names) == "";
      IndexOfUnique("", BAR, 0);
    } else {
      SplitOfJoin(names);
      ReadersAgree(Join(names));
      JoinEnds(names);
    }
  }

  // ----- the purge -----

  /** std::filesystem::path::extension of a file name: from the last dot, unless that is the first
      character. */
  function Extension(name: string): string {
    var i := AfterLast(name, '.');
    if i <= 1 then "" else name[i - 1..]
  }

  predicate IsTempEntry(node: Node) { node.File? && Extension(node.name) == EXTENSION }

  /** The extension test finds exactly the temporary files of non-empty names. */
  lemma TempEntries(name: string)
    ensures Extension(name) == EXTENSION <==> IsTempPath(name) && |name| > |EXTENSION|
  {
    if IsTempPath(name) {
      var k := |name| - |EXTENSION|;
      DotLeads(name, k);
      AfterLastUnique(name, '.', k + 1);
    } else {
      ExtensionEnds(name);
    }
  }

  /** An extension is an end of the name, after at least one character. */
  lemma ExtensionEnds(name: string)
    ensures Extension(name) != "" ==>
      |Extension(name)| < |name| && name[|name| - |Extension(name)|..] == Extension(name)
  {
  }

  lemma DotLeads(name: string, k: nat)
    requires k <= |name| && name[k..] == EXTENSION
    ensures k < |name| && name[k] == '.' && Free(name[k + 1..], '.')
  {
    assert name[k] == name[k..][0];
    assert name[k + 1..] == EXTENSION[1..];
  }

  function Purged(entries: seq<Node>): seq<Node>
    decreases entries, 0
  {
    if entries == [] then [] else PurgedNode(entries[0]) + Purged(entries[1..])
  }

  function TempCount(entries: seq<Node>): nat
    decreases entries, 0
  {
    if entries == [] then 0 else TempNodes(entries[0]) + TempCount(entries[1..])
  }

  function TempNodes(node: Node): nat
    decreases node, 1
  {
    if IsTempEntry(node) then 1 else if node.File? then 0 else TempCount(node.entries)
  }

  /** delete_temporary_download_files_: the result is -1 when there is no such directory. */
  method Purge(directory: Option<seq<Node>>) returns (after: Option<seq<Node>>, deleted: int)
    ensures directory.None? ==> after == None && deleted == -1
    ensures directory.Some? ==> after == Some(Purged(directory.value)) && deleted == TempCount(directory.value)
  {
    if directory.Some? {
      var kept;
      kept, deleted := PurgeEntries(directory.value);
      after := Some(kept);
    } else {
      after, deleted := None, -1;
    }
  }

  /** Its loop over the entries of a directory. */
  method PurgeEntries(entries: seq<Node>) returns (kept: seq<Node>, deletedFiles: int)
    ensures kept == Purged(entries) && deletedFiles == TempCount(entries)
    decreases entries, 0
  {
    kept, deletedFiles := [], 0;
    var i := 0;
    assert entries[0..] == entries;
    while i < |entries|
      invariant 0 <= i <= |entries|
      invariant kept + Purged(entries[i..]) == Purged(entries)
      invariant deletedFiles + TempCount(entries[i..]) == TempCount(entries)
    {
      PurgeStep(kept, entries, i);
      var left, deleted := PurgeNode(entries[i]);
      kept := kept + left;
      deletedFiles := deletedFiles + deleted;
      i := i + 1;
    }
    assert entries[i..] == [];
  }

  /** What is left of one entry, and how many files were deleted for it. */
  method PurgeNode(node: Node) returns (left: seq<Node>, deleted: int)
    ensures left == PurgedNode(node) && deleted == TempNodes(node)
    decreases node, 1
  {
    if IsTempEntry(node) {
      return [], 1;
    }
    if node.Folder? {
      var below, deletedSubfolder := PurgeEntries(node.entries);
      return [Folder(node.name, below)], if deletedSubfolder > 0 then deletedSubfolder else 0;
    }
    return [node], 0;
  }

  function PurgedNode(node: Node): seq<Node>
    decreases node, 1
  {
    if IsTempEntry(node) then [] else if node.File? then [node] else [Folder(node.name, Purged(node.entries))]
  }

  lemma PurgeStep(kept: seq<Node>, entries: seq<Node>, i: nat)
    requires i < |entries|
    ensures kept + Purged(entries[i..]) == (kept + PurgedNode(entries[i])) + Purged(entries[i + 1..])
    ensures TempCount(entries[i..]) == TempNodes(entries[i]) + TempCount(entries[i + 1..])
  {
    assert entries[i..][1..] == entries[i + 1..];
    Associate(kept, PurgedNode(entries[i]), Purged(entries[i + 1..]));
  }

  /** The last component of a path. */
  function LastName(path: string): string { path[AfterLast(path, SLASH)..] }

  lemma LastNameOf(prefix: string, name: string)
    requires Free(name, SLASH)
    ensures LastName(prefix + [SLASH] + name) == name
  {
    var path := prefix + [SLASH] + name;
    assert path[|prefix| + 1..] == name;
    AfterLastUnique(path, SLASH, |prefix| + 1);
  }

  predicate IsTempFile(path: string) { Extension(LastName(path)) == EXTENSION }
  predicate IsKeptFile(path: string) { !IsTempFile(path) }

  /** The purge removes exactly the temporary files, at every depth, keeps all other files in
      their places, and counts what it removed. */
  lemma {:induction false} PurgeIsExact(entries: seq<Node>, prefix: string)
    requires WellFormed(entries)
    ensures Paths(Purged(entries), prefix) == Filter(Paths(entries, prefix), IsKeptFile)
    ensures TempCount(entries) == |Filter(Paths(entries, prefix), IsTempFile)|
    decreases entries
  {
    if entries != [] {
      var node, rest := entries[0], entries[1..];
      WellFormedTail(entries);
      PurgeIsExact(rest, prefix);
      if node.Folder? { PurgeIsExact(node.entries, prefix + [SLASH] + node.name); }
      PurgedPaths(node, prefix);
      PathsConcat(PurgedNode(node), Purged(rest), prefix);
      FilterConcat(NodePaths(node, prefix), Paths(rest, prefix), IsKeptFile);
      FilterConcat(NodePaths(node, prefix), Paths(rest, prefix), IsTempFile);
    }
  }

  lemma PurgedPaths(node: Node, prefix: string)
    requires Free(node.name, SLASH)
    requires node.Folder? ==>
      var path := prefix + [SLASH] + node.name;
      && Paths(Purged(node.entries), path) == Filter(Paths(node.entries, path), IsKeptFile)
      && TempCount(node.entries) == |Filter(Paths(node.entries, path), IsTempFile)|
    ensures Paths(PurgedNode(node), prefix) == Filter(NodePaths(node, prefix), IsKeptFile)
    ensures TempNodes(node) == |Filter(NodePaths(node, prefix), IsTempFile)|
  {
    LastNameOf(prefix, node.name);
    if node.File? {
      FilterOne(prefix + [SLASH] + node.name);
      if !IsTempEntry(node) { PathsOne(node, prefix); }
    } else {
      PathsOne(Folder(node.name, Purged(node.entries)), prefix);
    }
  }

  /** The paths of all directories, at every depth, in the order of the walk. */
  function Directories(entries: seq<Node>, prefix: string): seq<string>
    decreases entries
  {
    if entries == [] then [] else
      var node, path := entries[0], prefix + [SLASH] + entries[0].name;
      (if node.Folder? then [path] + Directories(node.entries, path) else []) + Directories(entries[1..], prefix)
  }

  /** A purge keeps all directories, emptied ones and those named like temporary files too. */
  lemma {:induction false} DirectoriesStay(entries: seq<Node>, prefix: string)
    ensures Directories(Purged(entries), prefix) == Directories(entries, prefix)
    decreases entries
  {
    if entries != [] {
      var node, rest := entries[0], entries[1..];
      DirectoriesStay(rest, prefix);
      if node.Folder? { DirectoriesStay(node.entries, prefix + [SLASH] + node.name); }
      if PurgedNode(node) == [] {
        assert Purged(entries) == Purged(rest);
      } else {
        assert Purged(entries)[0] == PurgedNode(node)[0] && Purged(entries)[1..] == Purged(rest);
      }
    }
  }

  lemma PathsOne(node: Node, prefix: string)
    ensures Paths([node], prefix) == NodePaths(node, prefix)
  {
    assert [node][1..] == [];
  }

  lemma {:induction false} PathsConcat(a: seq<Node>, b: seq<Node>, prefix: string)
    ensures Paths(a + b, prefix) == Paths(a, prefix) + Paths(b, prefix)
    decreases |a|
  {
    if a == [] {
      assert a + b == b;
    } else {
      PathsConcat(a[1..], b, prefix);
      assert (a + b)[0] == a[0] && (a + b)[1..] == a[1..] + b;
      Associate(NodePaths(a[0], prefix), Paths(a[1..], prefix), Paths(b, prefix));
    }
  }

  lemma FilterOne(path: string)
    ensures Filter([path], IsKeptFile) == if IsTempFile(path) then [] else [path]
    ensures Filter([path], IsTempFile) == if IsTempFile(path) then [path] else []
  {
    assert [path][1..] == [];
  }

  /** Restart safety: after the purge a path looks like a temporary file only if its last component
      is the bare extension, which the reassembler uses for no name but the empty one; so the
      folder is as a new session needs it. */
  lemma RestartIsClean(entries: seq<Node>, prefix: string, path: string)
    requires WellFormed(entries) && path in Paths(Purged(entries), prefix)
    ensures IsTempPath(path) ==> LastName(path) == EXTENSION
  {
    PurgeIsExact(entries, prefix);
    assert IsKeptFile(path);
    if IsTempPath(path) {
      TempLastName(path);
      TempEntries(LastName(path));
    }
  }

  /** There is no temporary path left at all if and only if no file before the purge has the bare
      extension as its name. */
  lemma RestartIsReady(entries: seq<Node>, prefix: string)
    requires WellFormed(entries)
    ensures (forall path :: path in Paths(Purged(entries), prefix) ==> !IsTempPath(path))
       <==> (forall path :: path in Paths(entries, prefix) ==> LastName(path) != EXTENSION)
  {
    PurgeIsExact(entries, prefix);
    forall path | path in Paths(Purged(entries), prefix) ensures IsTempPath(path) ==> LastName(path) == EXTENSION {
      RestartIsClean(entries, prefix, path);
    }
    forall path | path in Paths(entries, prefix) && LastName(path) == EXTENSION
      ensures path in Paths(Purged(entries), prefix) && IsTempPath(path)
    {
      TempEntries(EXTENSION);
      var i := AfterLast(path, SLASH);
      assert path[i..] == EXTENSION && |path| - |EXTENSION| == i;
    }
  }

  /** The contents of all files below a directory, by path: the tree as the folder of a session. */
  function FolderOf(entries: seq<Node>, prefix: string): Folder
    decreases entries, 0
  {
    if entries == [] then map[] else FolderOf(entries[1..], prefix) + NodeFolder(entries[0], prefix)
  }

  function NodeFolder(node: Node, prefix: string): Folder
    decreases node, 1
  {
    var path := prefix + [SLASH] + node.name;
    if node.File? then map[path := node.content] else FolderOf(node.entries, path)
  }

  lemma {:induction false} FolderPaths(entries: seq<Node>, prefix: string, path: string)
    ensures path in FolderOf(entries, prefix) <==> path in Paths(entries, prefix)
    decreases entries
  {
    if entries != [] {
      FolderPaths(entries[1..], prefix, path);
      if entries[0].Folder? {
        FolderPaths(entries[0].entries, prefix + [SLASH] + entries[0].name, path);
      }
    }
  }

  function KeptPart(folder: Folder): Folder {
    map path | path in folder && IsKeptFile(path) :: folder[path]
  }

  /** The purged tree is the folder without the temporary files, all other contents as they were. */
  lemma {:induction false} PurgedFolder(entries: seq<Node>, prefix: string)
    requires WellFormed(entries)
    ensures FolderOf(Purged(entries), prefix) == KeptPart(FolderOf(entries, prefix))
    decreases entries
  {
    if entries != [] {
      var node, rest := entries[0], entries[1..];
      WellFormedTail(entries);
      PurgedFolder(rest, prefix);
      if node.Folder? { PurgedFolder(node.entries, prefix + [SLASH] + node.name); }
      PurgedEntry(node, prefix);
      PurgedCons(node, Purged(rest), prefix);
      KeptConcat(FolderOf(rest, prefix), NodeFolder(node, prefix));
    }
  }

  lemma PurgedEntry(node: Node, prefix: string)
    requires Free(node.name, SLASH)
    requires node.Folder? ==>
      var path := prefix + [SLASH] + node.name;
      FolderOf(Purged(node.entries), path) == KeptPart(FolderOf(node.entries, path))
    ensures FolderOf(PurgedNode(node), prefix) == KeptPart(NodeFolder(node, prefix))
  {
    LastNameOf(prefix, node.name);
    if node.Folder? {
      FolderOne(Folder(node.name, Purged(node.entries)), prefix);
    } else if !IsTempEntry(node) {
      FolderOne(node, prefix);
    }
  }

  lemma FolderOne(node: Node, prefix: string)
    ensures FolderOf([node], prefix) == NodeFolder(node, prefix)
  {
    assert [node][1..] == [];
    assert map[] + NodeFolder(node, prefix) == NodeFolder(node, prefix);
  }

  lemma PurgedCons(node: Node, rest: seq<Node>, prefix: string)
    ensures FolderOf(PurgedNode(node) + rest, prefix) == FolderOf(rest, prefix) + FolderOf(PurgedNode(node), prefix)
  {
    if PurgedNode(node) == [] {
      assert PurgedNode(node) + rest == rest;
    } else {
      var kept := PurgedNode(node)[0];
      assert PurgedNode(node) == [kept];
      FolderCons(kept, rest, prefix);
      FolderOne(kept, prefix);
    }
  }

  lemma KeptConcat(a: Folder, b: Folder)
    ensures KeptPart(a + b) == KeptPart(a) + KeptPart(b)
  {
  }

  lemma FolderCons(node: Node, rest: seq<Node>, prefix: string)
    ensures FolderOf([node] + rest, prefix) == FolderOf(rest, prefix) + NodeFolder(node, prefix)
  {
    assert ([node] + rest)[1..] == rest;
  }

  /** After the purge a session begins as `Link.EndsWell` needs it: no name has temporary data, except
      one without a last component, that is the path of a file named by the bare extension; and all
      plain files are as they were. */
  lemma RestartEndsWell(entries: seq<Node>, prefix: string, n: Name)
    requires WellFormed(entries)
    ensures var before, after := FolderOf(entries, prefix), FolderOf(Purged(entries), prefix);
            && (LastName(n) != "" ==> Leftover(after, n) == [])
            && (LastName(n) == "" ==> SameAt(after, before, TempPath(n)))
            && (!IsTempPath(n) ==> SameAt(after, before, n))
  {
    PurgedFolder(entries, prefix);
    LastNameOfTemp(n);
    TempEntries(LastName(TempPath(n)));
    assert IsTempPath(LastName(TempPath(n)));
    TempEntries(LastName(n));
    if IsTempFile(n) {
      PathEndsAsLastName(n);
    }
  }

  lemma LastNameOfTemp(n: Name)
    ensures LastName(TempPath(n)) == TempPath(LastName(n)) && IsTempPath(TempPath(LastName(n)))
  {
    var i := AfterLast(n, SLASH);
    TempPaths(LastName(n), n);
    assert TempPath(n)[i..] == n[i..] + EXTENSION;
    AfterLastUnique(TempPath(n), SLASH, i);
  }

  lemma PathEndsAsLastName(path: string)
    requires IsTempPath(LastName(path))
    ensures IsTempPath(path)
  {
    var i := AfterLast(path, SLASH);
    var k := |LastName(path)| - |EXTENSION|;
    assert path[i + k..] == LastName(path)[k..];
  }

  lemma ExtensionFree()
    ensures Free(EXTENSION, SLASH)
  {
  }

  lemma TempLastName(path: string)
    requires IsTempPath(path)
    ensures IsTempPath(LastName(path))
  {
    var i, k := AfterLast(path, SLASH), |path| - |EXTENSION|;
    ExtensionFree();
    FreeFrom(path, SLASH, k);
    assert i <= k;
    assert path[i..][k - i..] == path[k..];
  }
}
