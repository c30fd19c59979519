// The local playlist scan of src/automation/c64-automation-playlist.c: a walk
// over directories with an explicit stack, kept out of symbolic-link cycles by
// the identity (device and inode) of every directory visited.
module DirectoryScan {
  import opened Options

  const MAX_FILES: nat := 100000
  const MAX_DEPTH: nat := 64

  datatype Id = Id(device: nat, inode: nat)

  // What readdir and stat say about an entry, with the path it is reached by.
  datatype Child = Child(path: string, isDir: bool, isPlayable: bool)

  // The identity of a path that is a directory, following links, and the
  // entries of a directory that can be folders.
  datatype FileSystem = FileSystem(identity: string -> Option<Id>, listing: string -> Option<seq<Child>>)

  datatype DirEntry = DirEntry(path: string, depth: nat)

  // ------------------------------------------------------------ specification

  function PlayableFiles(list: seq<Child>): seq<string> {
    if list == [] then []
    else
      var last := list[|list| - 1];
      PlayableFiles(list[..|list| - 1]) + (if !last.isDir && last.isPlayable then [last.path] else [])
  }

  function Subfolders(list: seq<Child>, depth: nat): seq<DirEntry> {
    if list == [] then []
    else
      var last := list[|list| - 1];
      Subfolders(list[..|list| - 1], depth) + (if last.isDir then [DirEntry(last.path, depth)] else [])
  }

  // The files a scan that opened these directories in this order has listed.
  ghost function Listed(fs: FileSystem, folders: seq<string>): seq<string> {
    if folders == [] then []
    else
      var list := fs.listing(folders[|folders| - 1]);
      Listed(fs, folders[..|folders| - 1]) + (if list.Some? then PlayableFiles(list.value) else [])
  }

  ghost predicate IsSubfolder(fs: FileSystem, parent: string, child: string) {
    fs.listing(parent).Some? &&
    exists i :: 0 <= i < |fs.listing(parent).value| && fs.listing(parent).value[i].isDir
                && fs.listing(parent).value[i].path == child
  }

  // A way down the directory tree from root.
  ghost predicate IsWay(fs: FileSystem, root: string, way: seq<string>) {
    way != [] &&
    var n := |way| - 1;
    if n == 0 then way[0] == root
    else IsWay(fs, root, way[..n]) && fs.identity(way[n - 1]).Some? && IsSubfolder(fs, way[n - 1], way[n])
  }

  ghost predicate Reachable(fs: FileSystem, root: string, path: string) {
    exists way :: IsWay(fs, root, way) && way[|way| - 1] == path
  }

  // These paths are directories, all of them different.
  ghost predicate Different(fs: FileSystem, folders: seq<string>) {
    && (forall i :: 0 <= i < |folders| ==> fs.identity(folders[i]).Some?)
    && (forall i, j :: 0 <= i < j < |folders| ==> fs.identity(folders[i]) != fs.identity(folders[j]))
  }

  // Some way down, without going round in a cycle, has more levels than the cap.
  ghost predicate TooDeep(fs: FileSystem, root: string) {
    exists way :: IsWay(fs, root, way) && |way| > MAX_DEPTH && Different(fs, way)
  }

  // An entry is done with: it is no directory, or its directory was visited.
  ghost predicate Seen(fs: FileSystem, visited: seq<Id>, path: string) {
    fs.identity(path).None? || fs.identity(path).value in visited
  }

  // Every subfolder of every visited directory was visited too.
  ghost predicate Closed(fs: FileSystem, visited: seq<Id>, reached: seq<string>) {
    forall k, child :: 0 <= k < |reached| && IsSubfolder(fs, reached[k], child) ==> Seen(fs, visited, child)
  }

  ghost predicate Represents(fs: FileSystem, visited: seq<Id>, reached: seq<string>) {
    |reached| == |visited| && forall k :: 0 <= k < |visited| ==> fs.identity(reached[k]) == Some(visited[k])
  }

  ghost predicate Distinct(visited: seq<Id>) {
    forall i, j :: 0 <= i < j < |visited| ==> visited[i] != visited[j]
  }

  // q has a subfolder that is the same directory as child.
  ghost predicate HasTwin(fs: FileSystem, q: string, child: string) {
    exists twin :: IsSubfolder(fs, q, twin) && fs.identity(twin) == fs.identity(child)
  }

  // Two paths to one directory list the same subfolders.
  ghost predicate Consistent(fs: FileSystem) {
    forall p, q, child :: IsSubfolder(fs, p, child) && fs.identity(p).Some? && fs.identity(p) == fs.identity(q) ==>
      HasTwin(fs, q, child)
  }

  // Different directories under root never hold as many playable files as the
  // list can take.
  ghost predicate FewFiles(fs: FileSystem, root: string) {
    forall ids: seq<Id>, folders: seq<string> ::
      Represents(fs, ids, folders) && Distinct(ids) && AllReachable(fs, root, folders) ==>
        |Listed(fs, folders)| < MAX_FILES
  }

  ghost predicate AllReachable(fs: FileSystem, root: string, folders: seq<string>) {
    forall k :: 0 <= k < |folders| ==> Reachable(fs, root, folders[k])
  }

  // No limit can be hit, however many directories there are.
  ghost predicate WithinLimits(fs: FileSystem, root: string) {
    FewFiles(fs, root) && !TooDeep(fs, root)
  }

  ghost predicate VisitsAll(fs: FileSystem, root: string, visited: seq<Id>) {
    forall path :: Reachable(fs, root, path) ==> Seen(fs, visited, path)
  }

  // ----------------------------------------------------------------- completeness

  // A scan that was closed under subfolders and visited the root has visited
  // every directory there is a way to, cycles or not.
  lemma {:induction false} ClosedVisitsReachable(fs: FileSystem, root: string, visited: seq<Id>, reached: seq<string>,
                                                 way: seq<string>)
    requires Consistent(fs) && Represents(fs, visited, reached) && Closed(fs, visited, reached)
    requires Seen(fs, visited, root) && IsWay(fs, root, way)
    ensures Seen(fs, visited, way[|way| - 1])
    decreases |way|
  {
    var n := |way| - 1;
    if n > 0 {
      ClosedVisitsReachable(fs, root, visited, reached, way[..n]);
      SubfolderSeen(fs, visited, reached, way[n - 1], way[n]);
    }
  }

  lemma SubfolderSeen(fs: FileSystem, visited: seq<Id>, reached: seq<string>, parent: string, child: string)
    requires Consistent(fs) && Represents(fs, visited, reached) && Closed(fs, visited, reached)
    requires Seen(fs, visited, parent) && fs.identity(parent).Some? && IsSubfolder(fs, parent, child)
    ensures Seen(fs, visited, child)
  {
    var k :| 0 <= k < |visited| && visited[k] == fs.identity(parent).value;
    assert fs.identity(reached[k]) == fs.identity(parent);
    assert HasTwin(fs, reached[k], child);
    var twin :| IsSubfolder(fs, reached[k], twin) && fs.identity(twin) == fs.identity(child);
    assert Seen(fs, visited, twin);
  }

  // ------------------------------------------------------------------- the scan

  // What was done with the first entries of a directory.
  ghost predicate EntriesDone(entries: seq<Child>, depth: nat, includeSubfolders: bool, stack: seq<DirEntry>,
                              files: seq<string>, stack': seq<DirEntry>, files': seq<string>, cut: bool) {
    && files <= files' && |files'| <= MAX_FILES && stack <= stack'
    && |files'| <= |files| + |PlayableFiles(entries)|
    && (forall f :: f in files' ==> f in files || f in PlayableFiles(entries))
    && (forall e :: e in stack' ==> e in stack || e in Subfolders(entries, depth + 1))
    && (!cut ==> files' == files + PlayableFiles(entries))
    && (!cut && includeSubfolders ==> stack' == stack + Subfolders(entries, depth + 1))
    && (!includeSubfolders ==> stack' == stack)
  }

  // One directory: subfolders go on the stack, playable files on the list.
  method ScanEntries(list: seq<Child>, depth: nat, includeSubfolders: bool, stack: seq<DirEntry>, files: seq<string>)
    returns (stack': seq<DirEntry>, files': seq<string>, cut: bool)
    requires |files| <= MAX_FILES
    ensures EntriesDone(list, depth, includeSubfolders, stack, files, stack', files', cut)
    // Entries are left out only because of a limit.
    ensures cut ==> |files'| == MAX_FILES || (includeSubfolders && depth >= MAX_DEPTH)
  {
    stack', files', cut := stack, files, false;
    var i := 0;
    while i < |list| && |files'| < MAX_FILES
      invariant i <= |list|
      invariant EntriesDone(list[..i], depth, includeSubfolders, stack, files, stack', files', cut)
      invariant cut ==> includeSubfolders && depth >= MAX_DEPTH
    {
      var entry := list[i];
      EntryDone(list, i, depth, includeSubfolders, stack, files, stack', files', cut);
      i := i + 1;
      if entry.isDir {
        if !includeSubfolders {
          continue;
        }
        if depth >= MAX_DEPTH {
          cut := true;
          continue;
        }
        stack' := stack' + [DirEntry(entry.path, depth + 1)];
        continue;
      }
      if !entry.isPlayable {
        continue;
      }
      files' := files' + [entry.path];
    }
    EntriesEnd(list, i, depth, includeSubfolders, stack, files, stack', files', cut);
    cut := cut || i < |list|;
  }

  lemma EntriesEnd(list: seq<Child>, i: nat, depth: nat, includeSubfolders: bool, stack: seq<DirEntry>,
                   files: seq<string>, stack': seq<DirEntry>, files': seq<string>, cut: bool)
    requires i <= |list|
    requires EntriesDone(list[..i], depth, includeSubfolders, stack, files, stack', files', cut)
    ensures EntriesDone(list, depth, includeSubfolders, stack, files, stack', files', cut || i < |list|)
  {
    if i < |list| {
      PlayableGrows(list, i);
      SubfoldersGrow(list, i, depth + 1);
    } else {
      assert list[..i] == list;
    }
  }

  // What one more entry adds.
  lemma EntryAdds(entries: seq<Child>, entry: Child, depth: nat)
    ensures PlayableFiles(entries + [entry]) ==
            PlayableFiles(entries) + if !entry.isDir && entry.isPlayable then [entry.path] else []
    ensures Subfolders(entries + [entry], depth) ==
            Subfolders(entries, depth) + if entry.isDir then [DirEntry(entry.path, depth)] else []
  {
    assert (entries + [entry])[..|entries|] == entries;
  }

  lemma EntryDone(list: seq<Child>, i: nat, depth: nat, includeSubfolders: bool, stack: seq<DirEntry>,
                  files: seq<string>, stack': seq<DirEntry>, files': seq<string>, cut: bool)
    requires i < |list| && |files'| < MAX_FILES
    requires EntriesDone(list[..i], depth, includeSubfolders, stack, files, stack', files', cut)
    ensures var entry, pushed := list[i], stack' + [DirEntry(list[i].path, depth + 1)];
            if !entry.isDir then
              var listed := if entry.isPlayable then files' + [entry.path] else files';
              EntriesDone(list[..i + 1], depth, includeSubfolders, stack, files, stack', listed, cut)
            else if !includeSubfolders then
              EntriesDone(list[..i + 1], depth, includeSubfolders, stack, files, stack', files', cut)
            else
              && EntriesDone(list[..i + 1], depth, includeSubfolders, stack, files, stack', files', true)
              && EntriesDone(list[..i + 1], depth, includeSubfolders, stack, files, pushed, files', cut)
  {
    EntryAdds(list[..i], list[i], depth + 1);
    assert list[..i + 1] == list[..i] + [list[i]];
  }

  lemma {:induction false} PlayableGrows(list: seq<Child>, i: nat)
    requires i <= |list|
    ensures forall f :: f in PlayableFiles(list[..i]) ==> f in PlayableFiles(list)
    ensures |PlayableFiles(list[..i])| <= |PlayableFiles(list)|
    decreases |list| - i
  {
    if i < |list| {
      PlayableGrows(list, i + 1);
      assert list[..i + 1][..i] == list[..i];
    } else {
      assert list[..i] == list;
    }
  }

  lemma {:induction false} SubfoldersGrow(list: seq<Child>, i: nat, depth: nat)
    requires i <= |list|
    ensures forall e :: e in Subfolders(list[..i], depth) ==> e in Subfolders(list, depth)
    decreases |list| - i
  {
    if i < |list| {
      SubfoldersGrow(list, i + 1, depth);
      assert list[..i + 1][..i] == list[..i];
    } else {
      assert list[..i] == list;
    }
  }

  // The entries of Subfolders are the subfolders.
  lemma {:induction false} SubfolderMembers(list: seq<Child>, depth: nat, path: string)
    ensures DirEntry(path, depth) in Subfolders(list, depth) <==>
            exists i :: 0 <= i < |list| && list[i].isDir && list[i].path == path
    ensures forall e :: e in Subfolders(list, depth) ==> e.depth == depth
  {
    if list != [] {
      var n := |list| - 1;
      SubfolderMembers(list[..n], depth, path);
      if exists i :: 0 <= i < |list| && list[i].isDir && list[i].path == path {
        var i :| 0 <= i < |list| && list[i].isDir && list[i].path == path;
        assert i < n ==> list[..n][i] == list[i];
      }
      if DirEntry(path, depth) in Subfolders(list, depth) {
        assert DirEntry(path, depth) in Subfolders(list[..n], depth) || (list[n].isDir && list[n].path == path);
      }
    }
  }

  ghost predicate OnStack(stack: seq<DirEntry>, path: string) {
    exists k :: 0 <= k < |stack| && stack[k].path == path
  }

  // An entry lies no deeper than the number of directories visited.
  ghost predicate Shallow(stack: seq<DirEntry>, visited: nat) {
    forall e :: e in stack ==> e.depth <= visited
  }

  // A way to an entry of the stack: the directories above it are all different,
  // and were visited.
  ghost predicate OpenWay(fs: FileSystem, root: string, visited: seq<Id>, way: seq<string>) {
    IsWay(fs, root, way) &&
    var above := way[..|way| - 1];
    Different(fs, above) && forall i :: 0 <= i < |above| ==> Seen(fs, visited, above[i])
  }

  ghost predicate OpenAt(fs: FileSystem, root: string, visited: seq<Id>, path: string, depth: nat) {
    exists way :: OpenWay(fs, root, visited, way) && way[|way| - 1] == path && |way| == depth + 1
  }

  lemma OpenStays(fs: FileSystem, root: string, visited: seq<Id>, id: Id, path: string, depth: nat)
    requires OpenAt(fs, root, visited, path, depth)
    ensures OpenAt(fs, root, visited + [id], path, depth)
  {
    var way :| OpenWay(fs, root, visited, way) && way[|way| - 1] == path && |way| == depth + 1;
    assert OpenWay(fs, root, visited + [id], way);
  }

  // A new directory at the end of an open way is different from those above it.
  lemma NewIsDifferent(fs: FileSystem, root: string, visited: seq<Id>, way: seq<string>)
    requires OpenWay(fs, root, visited, way) && !Seen(fs, visited, way[|way| - 1])
    ensures Different(fs, way)
  {
    var above := way[..|way| - 1];
    forall i, j | 0 <= i < j < |way|
      ensures fs.identity(way[i]) != fs.identity(way[j])
    {
      assert way[i] == above[i] && Seen(fs, visited, above[i]);
      assert j < |above| ==> way[j] == above[j];
    }
    forall i | 0 <= i < |way|
      ensures fs.identity(way[i]).Some?
    {
      assert i < |above| ==> way[i] == above[i];
    }
  }

  lemma OpenStep(fs: FileSystem, root: string, visited: seq<Id>, parent: string, child: string, depth: nat)
    requires OpenAt(fs, root, visited, parent, depth) && !Seen(fs, visited, parent) && IsSubfolder(fs, parent, child)
    ensures OpenAt(fs, root, visited + [fs.identity(parent).value], child, depth + 1)
  {
    var way :| OpenWay(fs, root, visited, way) && way[|way| - 1] == parent && |way| == depth + 1;
    var longer, visited' := way + [child], visited + [fs.identity(parent).value];
    NewIsDifferent(fs, root, visited, way);
    assert longer[..|way|] == way;
    forall i | 0 <= i < |way|
      ensures Seen(fs, visited', way[i])
    {
      assert i < |way| - 1 ==> Seen(fs, visited, way[..|way| - 1][i]);
    }
    assert OpenWay(fs, root, visited', longer);
  }

  // A new directory at the cap lies too deep.
  lemma CapIsDeep(fs: FileSystem, root: string, visited: seq<Id>, path: string, depth: nat)
    requires OpenAt(fs, root, visited, path, depth) && !Seen(fs, visited, path) && depth >= MAX_DEPTH
    ensures TooDeep(fs, root)
  {
    var way :| OpenWay(fs, root, visited, way) && way[|way| - 1] == path && |way| == depth + 1;
    NewIsDifferent(fs, root, visited, way);
  }

  // What the walk keeps about the files listed: all of those of the directories
  // visited, unless a limit was hit.
  ghost predicate FilesInv(fs: FileSystem, root: string, files: seq<string>, visited: seq<Id>, reached: seq<string>,
                           limited: bool) {
    && |files| <= MAX_FILES && |files| <= |Listed(fs, reached)|
    && (!limited ==> files == Listed(fs, reached))
    && (limited ==> |files| == MAX_FILES || (TooDeep(fs, root) && |visited| > MAX_DEPTH))
  }

  // What the walk keeps, apart from which files are listed.
  ghost predicate WalkInv(fs: FileSystem, root: string, visited: seq<Id>, reached: seq<string>, stack: seq<DirEntry>) {
    && Distinct(visited) && Represents(fs, visited, reached)
    && AllReachable(fs, root, reached)
    && (forall k :: 0 <= k < |stack| ==> OpenAt(fs, root, visited, stack[k].path, stack[k].depth))
    && (Seen(fs, visited, root) || OnStack(stack, root))
  }

  // Every subfolder of a visited directory is done with or waits on the stack.
  ghost predicate Pending(fs: FileSystem, visited: seq<Id>, reached: seq<string>, stack: seq<DirEntry>) {
    forall k, child :: 0 <= k < |reached| && IsSubfolder(fs, reached[k], child) ==>
      Seen(fs, visited, child) || OnStack(stack, child)
  }

  lemma PoppedFromStack(stack: seq<DirEntry>, path: string)
    requires stack != [] && OnStack(stack, path)
    ensures path == stack[|stack| - 1].path || OnStack(stack[..|stack| - 1], path)
  {
    var k :| 0 <= k < |stack| && stack[k].path == path;
    assert k < |stack| - 1 ==> stack[..|stack| - 1][k].path == path;
  }

  lemma StackGrows(stack: seq<DirEntry>, longer: seq<DirEntry>, path: string)
    requires stack <= longer && OnStack(stack, path)
    ensures OnStack(longer, path)
  {
    var k :| 0 <= k < |stack| && stack[k].path == path;
    assert longer[k] == stack[k];
  }

  // The top of the stack is no directory or was visited before.
  lemma SkipKeeps(fs: FileSystem, root: string, visited: seq<Id>, reached: seq<string>, stack: seq<DirEntry>)
    requires WalkInv(fs, root, visited, reached, stack) && stack != [] && Seen(fs, visited, stack[|stack| - 1].path)
    ensures WalkInv(fs, root, visited, reached, stack[..|stack| - 1])
    ensures Pending(fs, visited, reached, stack) ==> Pending(fs, visited, reached, stack[..|stack| - 1])
  {
    if !Seen(fs, visited, root) {
      PoppedFromStack(stack, root);
    }
    if Pending(fs, visited, reached, stack) {
      forall k, child | 0 <= k < |reached| && IsSubfolder(fs, reached[k], child) && !Seen(fs, visited, child)
        ensures OnStack(stack[..|stack| - 1], child)
      {
        PoppedFromStack(stack, child);
      }
    }
  }

  // The top of the stack is a new directory, with these entries put on the stack.
  lemma VisitKeeps(fs: FileSystem, root: string, visited: seq<Id>, reached: seq<string>, stack: seq<DirEntry>,
                   stack': seq<DirEntry>)
    requires WalkInv(fs, root, visited, reached, stack) && stack != []
    requires var path := stack[|stack| - 1].path;
             fs.identity(path).Some? && fs.identity(path).value !in visited &&
             stack[..|stack| - 1] <= stack' &&
             forall e :: e in stack' ==>
               e in stack[..|stack| - 1] || (e.depth == stack[|stack| - 1].depth + 1 && IsSubfolder(fs, path, e.path))
    ensures var path := stack[|stack| - 1].path;
            WalkInv(fs, root, visited + [fs.identity(path).value], reached + [path], stack')
  {
    var path, rest := stack[|stack| - 1].path, stack[..|stack| - 1];
    var visited' := visited + [fs.identity(path).value];
    assert OpenAt(fs, root, visited, path, stack[|stack| - 1].depth);
    forall k | 0 <= k < |stack'|
      ensures OpenAt(fs, root, visited', stack'[k].path, stack'[k].depth)
    {
      if stack'[k] in rest {
        var m :| 0 <= m < |rest| && rest[m] == stack'[k];
        assert stack[m] == rest[m];
        OpenStays(fs, root, visited, fs.identity(path).value, stack[m].path, stack[m].depth);
      } else {
        OpenStep(fs, root, visited, path, stack'[k].path, stack[|stack| - 1].depth);
      }
    }
    if !Seen(fs, visited', root) {
      assert !Seen(fs, visited, root);
      PoppedFromStack(stack, root);
      StackGrows(rest, stack', root);
    }
  }

  // And when all its subfolders are among them, nothing is left out.
  lemma VisitKeepsPending(fs: FileSystem, visited: seq<Id>, reached: seq<string>, stack: seq<DirEntry>,
                          stack': seq<DirEntry>)
    requires Pending(fs, visited, reached, stack) && stack != []
    requires var path := stack[|stack| - 1].path;
             fs.identity(path).Some? && stack[..|stack| - 1] <= stack' &&
             forall child :: IsSubfolder(fs, path, child) ==> OnStack(stack', child)
    ensures var path := stack[|stack| - 1].path;
            Pending(fs, visited + [fs.identity(path).value], reached + [path], stack')
  {
    var path, rest := stack[|stack| - 1].path, stack[..|stack| - 1];
    var visited', reached' := visited + [fs.identity(path).value], reached + [path];
    forall k, child | 0 <= k < |reached'| && IsSubfolder(fs, reached'[k], child)
      ensures Seen(fs, visited', child) || OnStack(stack', child)
    {
      if k < |reached| && !Seen(fs, visited', child) {
        assert IsSubfolder(fs, reached[k], child) && !Seen(fs, visited, child);
        PoppedFromStack(stack, child);
        StackGrows(rest, stack', child);
      }
    }
  }

  lemma SubfoldersOnStack(fs: FileSystem, path: string, depth: nat, rest: seq<DirEntry>)
    requires fs.listing(path).Some?
    ensures forall child :: IsSubfolder(fs, path, child) ==>
              OnStack(rest + Subfolders(fs.listing(path).value, depth), child)
  {
    var subs := Subfolders(fs.listing(path).value, depth);
    forall child | IsSubfolder(fs, path, child)
      ensures OnStack(rest + subs, child)
    {
      SubfolderMembers(fs.listing(path).value, depth, child);
      var m :| 0 <= m < |subs| && subs[m] == DirEntry(child, depth);
      assert (rest + subs)[|rest| + m].path == child;
    }
  }

  lemma OnlySubfoldersOnStack(fs: FileSystem, path: string, depth: nat)
    requires fs.listing(path).Some?
    ensures forall e :: e in Subfolders(fs.listing(path).value, depth) ==>
              e.depth == depth && IsSubfolder(fs, path, e.path)
  {
    forall e | e in Subfolders(fs.listing(path).value, depth)
      ensures e.depth == depth && IsSubfolder(fs, path, e.path)
    {
      SubfolderMembers(fs.listing(path).value, depth, e.path);
    }
  }

  // What every turn of the scan keeps.
  ghost predicate ScanInv(fs: FileSystem, root: string, includeSubfolders: bool, all: set<Id>, stack: seq<DirEntry>,
                          files: seq<string>, visited: seq<Id>, reached: seq<string>, limited: bool) {
    && WalkInv(fs, root, visited, reached, stack) && Shallow(stack, |visited|)
    && FilesInv(fs, root, files, visited, reached, limited)
    && (!includeSubfolders ==> |visited| + |stack| <= 1)
    && (!limited && includeSubfolders ==> Pending(fs, visited, reached, stack))
    && (forall id :: id in visited ==> id in all)
  }

  lemma ScanStarts(fs: FileSystem, root: string, includeSubfolders: bool, all: set<Id>)
    ensures ScanInv(fs, root, includeSubfolders, all, [DirEntry(root, 0)], [], [], [], false)
  {
    assert OpenWay(fs, root, [], [root]) && [root][|[root]| - 1] == root;
    assert [DirEntry(root, 0)][0].path == root;
  }

  lemma SkipKeepsScan(fs: FileSystem, root: string, includeSubfolders: bool, all: set<Id>, rest: seq<DirEntry>,
                      current: DirEntry, files: seq<string>, visited: seq<Id>, reached: seq<string>, limited: bool)
    requires ScanInv(fs, root, includeSubfolders, all, rest + [current], files, visited, reached, limited)
    requires Seen(fs, visited, current.path)
    ensures ScanInv(fs, root, includeSubfolders, all, rest, files, visited, reached, limited)
  {
    assert (rest + [current])[..|rest|] == rest;
    SkipKeeps(fs, root, visited, reached, rest + [current]);
  }

  // Opens one new directory.
  method VisitDirectory(fs: FileSystem, root: string, includeSubfolders: bool, ghost all: set<Id>, current: DirEntry,
                        rest: seq<DirEntry>, files: seq<string>, limited: bool, ghost visited: seq<Id>,
                        ghost reached: seq<string>)
    returns (stack: seq<DirEntry>, files': seq<string>, limited': bool)
    requires ScanInv(fs, root, includeSubfolders, all, rest + [current], files, visited, reached, limited)
    requires |files| < MAX_FILES && fs.identity(current.path).Some?
    requires fs.identity(current.path).value !in visited && fs.identity(current.path).value in all
    ensures ScanInv(fs, root, includeSubfolders, all, stack, files', visited + [fs.identity(current.path).value],
                    reached + [current.path], limited')
  {
    var cut := false;
    stack, files' := rest, files;
    var list := fs.listing(current.path);
    if list.Some? {
      stack, files', cut := ScanEntries(list.value, current.depth, includeSubfolders, rest, files);
    }
    limited' := limited || cut;
    if cut && |files'| < MAX_FILES {
      CurrentIsDeep(fs, root, current, rest, visited, reached);
    }
    VisitKeepsFiles(fs, root, current, rest, files, files', visited, reached, limited, cut);
    VisitKeepsWalk(fs, root, current, rest, stack, visited, reached);
    if !limited' && includeSubfolders {
      VisitAddsAll(fs, current, rest, stack, visited, reached);
    }
  }

  lemma CurrentIsDeep(fs: FileSystem, root: string, current: DirEntry, rest: seq<DirEntry>, visited: seq<Id>,
                      reached: seq<string>)
    requires WalkInv(fs, root, visited, reached, rest + [current]) && !Seen(fs, visited, current.path)
    requires current.depth >= MAX_DEPTH
    ensures TooDeep(fs, root)
  {
    assert (rest + [current])[|rest|] == current;
    CapIsDeep(fs, root, visited, current.path, current.depth);
  }

  lemma VisitKeepsFiles(fs: FileSystem, root: string, current: DirEntry, rest: seq<DirEntry>, files: seq<string>,
                        files': seq<string>, visited: seq<Id>, reached: seq<string>, limited: bool, cut: bool)
    requires FilesInv(fs, root, files, visited, reached, limited) && |files| < MAX_FILES
    requires fs.identity(current.path).Some?
    requires Shallow(rest + [current], |visited|) && files <= files' && |files'| <= MAX_FILES
    requires var list := fs.listing(current.path);
             var added := if list.Some? then PlayableFiles(list.value) else [];
             |files'| <= |files| + |added| && (!cut ==> files' == files + added)
    requires cut ==> |files'| == MAX_FILES || (TooDeep(fs, root) && current.depth >= MAX_DEPTH)
    ensures FilesInv(fs, root, files', visited + [fs.identity(current.path).value], reached + [current.path],
                     limited || cut)
  {
    assert (reached + [current.path])[..|reached|] == reached;
    assert current in rest + [current];
  }

  lemma VisitKeepsWalk(fs: FileSystem, root: string, current: DirEntry, rest: seq<DirEntry>, stack: seq<DirEntry>,
                       visited: seq<Id>, reached: seq<string>)
    requires WalkInv(fs, root, visited, reached, rest + [current]) && Shallow(rest + [current], |visited|)
    requires fs.identity(current.path).Some? && fs.identity(current.path).value !in visited && rest <= stack
    requires var list := fs.listing(current.path);
             forall e :: e in stack ==>
               e in rest || (list.Some? && e in Subfolders(list.value, current.depth + 1))
    ensures WalkInv(fs, root, visited + [fs.identity(current.path).value], reached + [current.path], stack)
    ensures Shallow(stack, |visited| + 1)
  {
    var before := rest + [current];
    assert before[..|before| - 1] == rest && current in before;
    if fs.listing(current.path).Some? {
      OnlySubfoldersOnStack(fs, current.path, current.depth + 1);
    }
    assert forall e :: e in rest ==> e in before;
    VisitKeeps(fs, root, visited, reached, before, stack);
  }

  lemma VisitAddsAll(fs: FileSystem, current: DirEntry, rest: seq<DirEntry>, stack: seq<DirEntry>, visited: seq<Id>,
                     reached: seq<string>)
    requires Pending(fs, visited, reached, rest + [current]) && fs.identity(current.path).Some?
    requires var list := fs.listing(current.path);
             stack == rest + if list.Some? then Subfolders(list.value, current.depth + 1) else []
    ensures Pending(fs, visited + [fs.identity(current.path).value], reached + [current.path], stack)
  {
    var before := rest + [current];
    assert before[..|before| - 1] == rest;
    if fs.listing(current.path).Some? {
      SubfoldersOnStack(fs, current.path, current.depth + 1, rest);
    }
    VisitKeepsPending(fs, visited, reached, before, stack);
  }

  lemma TopAndRest(stack: seq<DirEntry>)
    requires stack != []
    ensures stack == stack[..|stack| - 1] + [stack[|stack| - 1]]
  {
  }

  // One turn of the scan: the top of the stack is skipped or visited.
  method Turn(fs: FileSystem, root: string, includeSubfolders: bool, ghost all: set<Id>, stack: seq<DirEntry>,
              files: seq<string>, visited: seq<Id>, ghost reached: seq<string>, limited: bool)
    returns (stack': seq<DirEntry>, files': seq<string>, visited': seq<Id>, ghost reached': seq<string>, limited': bool)
    requires ScanInv(fs, root, includeSubfolders, all, stack, files, visited, reached, limited)
    requires stack != [] && |files| < MAX_FILES && forall p :: fs.identity(p).Some? ==> fs.identity(p).value in all
    ensures ScanInv(fs, root, includeSubfolders, all, stack', files', visited', reached', limited')
    ensures |visited| < |visited'| <= |all| || (|visited'| == |visited| && |stack'| < |stack|)
  {
    var current := stack[|stack| - 1];
    var rest := stack[..|stack| - 1];
    TopAndRest(stack);
    var id := fs.identity(current.path);
    if id.None? || id.value in visited {
      SkipKeepsScan(fs, root, includeSubfolders, all, rest, current, files, visited, reached, limited);
      return rest, files, visited, reached, limited;
    }
    stack', files', limited' := VisitDirectory(fs, root, includeSubfolders, all, current, rest, files, limited, visited,
                                                reached);
    visited', reached' := visited + [id.value], reached + [current.path];
    DistinctFit(visited', all);
  }

  // The walk ends with an empty stack or a full list: its turns visit another of
  // finitely many directories, or shorten the stack.
  method Walk(fs: FileSystem, root: string, includeSubfolders: bool, ghost all: set<Id>)
    returns (stack: seq<DirEntry>, files: seq<string>, visited: seq<Id>, ghost reached: seq<string>, limited: bool)
    requires forall p :: fs.identity(p).Some? ==> fs.identity(p).value in all
    ensures ScanInv(fs, root, includeSubfolders, all, stack, files, visited, reached, limited)
    ensures stack == [] || |files| == MAX_FILES
  {
    stack, files, visited, reached, limited := [DirEntry(root, 0)], [], [], [], false;
    ScanStarts(fs, root, includeSubfolders, all);
    while stack != [] && |files| < MAX_FILES
      invariant ScanInv(fs, root, includeSubfolders, all, stack, files, visited, reached, limited)
      decreases |all| - |visited|, |stack|
    {
      stack, files, visited, reached, limited :=
        Turn(fs, root, includeSubfolders, all, stack, files, visited, reached, limited);
    }
  }

  // `all` bounds the identities: the file system is finite, its paths need not be.
  method ScanLocal(fs: FileSystem, root: string, includeSubfolders: bool, ghost all: set<Id>)
    returns (files: seq<string>, visited: seq<Id>, ghost reached: seq<string>, limited: bool)
    requires forall p :: fs.identity(p).Some? ==> fs.identity(p).value in all
    // No directory is listed twice, and only directories under root are.
    ensures Distinct(visited) && Represents(fs, visited, reached)
    ensures AllReachable(fs, root, reached)
    ensures |files| <= MAX_FILES && (!includeSubfolders ==> |visited| <= 1)
    // Unless a limit was hit, exactly their playable files are listed, and
    // nothing below them was left out.
    ensures !limited ==> files == Listed(fs, reached) && Seen(fs, visited, root)
    ensures !limited && includeSubfolders ==> Closed(fs, visited, reached)
    // A limit takes that many files, or a way down that really is too deep.
    ensures limited ==> |files| == MAX_FILES || (TooDeep(fs, root) && |visited| > MAX_DEPTH)
    ensures WithinLimits(fs, root) ==> !limited
    // So on any such file system, however many directories it has, every
    // directory there is a way to is visited, cycles or not.
    ensures WithinLimits(fs, root) && includeSubfolders && Consistent(fs) ==> VisitsAll(fs, root, visited)
  {
    var stack;
    stack, files, visited, reached, limited := Walk(fs, root, includeSubfolders, all);
    ScanEnds(fs, root, includeSubfolders, all, stack, files, visited, reached, limited);
    limited := limited || stack != [];
  }

  lemma ScanEnds(fs: FileSystem, root: string, includeSubfolders: bool, all: set<Id>, stack: seq<DirEntry>,
                 files: seq<string>, visited: seq<Id>, reached: seq<string>, cut: bool)
    requires ScanInv(fs, root, includeSubfolders, all, stack, files, visited, reached, cut)
    requires stack == [] || |files| == MAX_FILES
    ensures Distinct(visited) && Represents(fs, visited, reached)
    ensures AllReachable(fs, root, reached)
    ensures |files| <= MAX_FILES && (!includeSubfolders ==> |visited| <= 1)
    ensures var limited := cut || stack != [];
            && (!limited ==> files == Listed(fs, reached) && Seen(fs, visited, root))
            && (!limited && includeSubfolders ==> Closed(fs, visited, reached))
            && (limited ==> |files| == MAX_FILES || (TooDeep(fs, root) && |visited| > MAX_DEPTH))
            && (WithinLimits(fs, root) ==> !limited)
    ensures WithinLimits(fs, root) && includeSubfolders && Consistent(fs) ==> VisitsAll(fs, root, visited)
  {
    if stack == [] && !cut && includeSubfolders {
      EmptyStackIsClosed(fs, visited, reached);
    }
    ScanIsComplete(fs, root, includeSubfolders, files, visited, reached, cut || stack != []);
  }

  lemma ScanIsComplete(fs: FileSystem, root: string, includeSubfolders: bool, files: seq<string>, visited: seq<Id>,
                       reached: seq<string>, limited: bool)
    requires Distinct(visited) && Represents(fs, visited, reached) && |files| <= |Listed(fs, reached)|
    requires AllReachable(fs, root, reached) && (limited ==> |files| == MAX_FILES || TooDeep(fs, root))
    requires !limited ==> Seen(fs, visited, root)
    requires !limited && includeSubfolders ==> Closed(fs, visited, reached)
    ensures WithinLimits(fs, root) ==> !limited
    ensures WithinLimits(fs, root) && includeSubfolders && Consistent(fs) ==> VisitsAll(fs, root, visited)
  {
    if WithinLimits(fs, root) {
      assert |Listed(fs, reached)| < MAX_FILES;
      if includeSubfolders && Consistent(fs) {
        ClosedVisitsAll(fs, root, visited, reached);
      }
    }
  }

  // With no more directories than levels no way is too deep.
  lemma FewDirectoriesAreNotDeep(fs: FileSystem, root: string, all: set<Id>)
    requires (forall p :: fs.identity(p).Some? ==> fs.identity(p).value in all) && |all| <= MAX_DEPTH
    ensures !TooDeep(fs, root)
  {
    if TooDeep(fs, root) {
      var way :| IsWay(fs, root, way) && |way| > MAX_DEPTH && Different(fs, way);
      DistinctFit(seq(|way|, i requires 0 <= i < |way| => fs.identity(way[i]).value), all);
    }
  }

  lemma {:induction false} DistinctFit(visited: seq<Id>, all: set<Id>)
    requires Distinct(visited) && forall id :: id in visited ==> id in all
    ensures |visited| <= |all|
    decreases |visited|
  {
    if visited != [] {
      var n := |visited| - 1;
      DistinctFit(visited[..n], all - {visited[n]});
    }
  }

  lemma ClosedVisitsAll(fs: FileSystem, root: string, visited: seq<Id>, reached: seq<string>)
    requires Consistent(fs) && Represents(fs, visited, reached) && Closed(fs, visited, reached)
    requires Seen(fs, visited, root)
    ensures VisitsAll(fs, root, visited)
  {
    forall path | Reachable(fs, root, path)
      ensures Seen(fs, visited, path)
    {
      var way :| IsWay(fs, root, way) && way[|way| - 1] == path;
      ClosedVisitsReachable(fs, root, visited, reached, way);
    }
  }

  lemma EmptyStackIsClosed(fs: FileSystem, visited: seq<Id>, reached: seq<string>)
    requires Pending(fs, visited, reached, [])
    ensures Closed(fs, visited, reached)
  {
  }
}
