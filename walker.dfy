/** The breadth-first storage walker (backends/util.go). Storage is seen only through
    `ReadDir`; every callback invocation is recorded, in order, as a `Call`. */
module Walker {
  import opened Common

  /** A directory path as its list of components, the first being the walk's start. */
  type Path = seq<string>

  /** The part of an `os.FileInfo` the walker looks at. */
  datatype FileInfo = FileInfo(name: string, isDir: bool)

  /** What `ReadDir` reports for one directory. */
  datatype Listing = Entries(files: seq<FileInfo>) | Failed(err: Error)

  /** A finite storage: the listing of every directory it can read, keyed by path. */
  type Storage = map<Path, Listing>

  const ErrNotExist: Error := Error("file does not exist")

  /** `Storage.ReadDir`: a path the storage does not know fails. */
  function ReadDir(fs: Storage, p: Path): Listing {
    if p in fs then fs[p] else Failed(ErrNotExist)
  }

  /** `path.Join`: the components separated by slashes (no lexical cleaning). */
  function Join(p: Path): string {
    if |p| == 0 then ""
    else if |p| == 1 then p[0]
    else Join(p[..|p| - 1]) + "/" + p[|p| - 1]
  }

  /** One invocation of the walk callback: path, entry (nil when reporting an error), error. */
  datatype Call = Call(path: string, info: Option<FileInfo>, err: Option<Error>)

  /** What a walk does: the directories it reads in order, the callbacks it makes, and the
      error it returns. */
  datatype Walk = Walk(visited: seq<Path>, calls: seq<Call>, err: Option<Error>)

  /** The callbacks for the entries of one directory listing, all with a nil error. */
  function EntryCalls(spwd: string, files: seq<FileInfo>): seq<Call> {
    if files == [] then []
    else EntryCalls(spwd, files[..|files| - 1]) + [Call(spwd, Some(files[|files| - 1]), None)]
  }

  /** The paths of the subdirectories among `files`, in listing order. */
  function Subdirs(pwd: Path, files: seq<FileInfo>): seq<Path> {
    if files == [] then []
    else
      var last := files[|files| - 1];
      Subdirs(pwd, files[..|files| - 1]) + (if last.isDir then [pwd + [last.name]] else [])
  }

  /** Whether the depth limit forbids descending below `pwd`; 0 (or less) means no limit. */
  predicate AtDepthLimit(pwd: Path, depth: int) {
    depth != 0 && depth == |pwd|
  }

  /** The paths queued after reading `pwd`. */
  function Enqueued(pwd: Path, files: seq<FileInfo>, depth: int): seq<Path> {
    if AtDepthLimit(pwd, depth) then [] else Subdirs(pwd, files)
  }

  // ---------------------------------------------------------------------------
  // Termination: the storage is finite, so every path it can list is at most
  // MaxLen long, and the number of directory reads left is bounded by Work.

  ghost function MaxLen(keys: set<Path>): (n: nat)
    ensures forall p :: p in keys ==> |p| <= n
    decreases keys
  {
    if keys == {} then 0
    else
      var p :| p in keys;
      var rest := MaxLen(keys - {p});
      if |p| > rest then |p| else rest
  }

  ghost function Rank(fs: Storage, p: Path): nat {
    if p in fs then MaxLen(fs.Keys) + 1 - |p| else 0
  }

  /** Upper bound on the reads a walk from `p` alone can make. */
  ghost function Work(fs: Storage, p: Path): nat
    decreases Rank(fs, p), 1, 0
  {
    if p in fs && fs[p].Entries? then 1 + DirWork(fs, p, fs[p].files) else 1
  }

  ghost function DirWork(fs: Storage, p: Path, files: seq<FileInfo>): nat
    requires p in fs
    decreases Rank(fs, p), 0, |files|
  {
    if files == [] then 0
    else
      var last := files[|files| - 1];
      DirWork(fs, p, files[..|files| - 1]) + (if last.isDir then Work(fs, p + [last.name]) else 0)
  }

  ghost function QueueWork(fs: Storage, q: seq<Path>): nat {
    if q == [] then 0 else Work(fs, q[0]) + QueueWork(fs, q[1..])
  }

  lemma {:induction false} QueueWorkAppend(fs: Storage, a: seq<Path>, b: seq<Path>)
    ensures QueueWork(fs, a + b) == QueueWork(fs, a) + QueueWork(fs, b)
  {
    if a == [] {
      assert a + b == b;
    } else {
      assert (a + b)[0] == a[0];
      assert (a + b)[1..] == a[1..] + b;
      QueueWorkAppend(fs, a[1..], b);
    }
  }

  lemma {:induction false} DirWorkIsQueueWork(fs: Storage, p: Path, files: seq<FileInfo>)
    requires p in fs
    ensures DirWork(fs, p, files) == QueueWork(fs, Subdirs(p, files))
  {
    if files != [] {
      var last := files[|files| - 1];
      DirWorkIsQueueWork(fs, p, files[..|files| - 1]);
      QueueWorkAppend(fs, Subdirs(p, files[..|files| - 1]), if last.isDir then [p + [last.name]] else []);
    }
  }

  /** Reading `pwd` and queueing what it yields strictly lowers the work left. */
  lemma StepDecreases(fs: Storage, pwd: Path, queue: seq<Path>, depth: int)
    requires ReadDir(fs, pwd).Entries?
    ensures QueueWork(fs, queue + Enqueued(pwd, ReadDir(fs, pwd).files, depth))
            < Work(fs, pwd) + QueueWork(fs, queue)
  {
    var files := ReadDir(fs, pwd).files;
    DirWorkIsQueueWork(fs, pwd, files);
    QueueWorkAppend(fs, queue, Enqueued(pwd, files, depth));
  }

  // ---------------------------------------------------------------------------
  // The walk as a function: read `pwd`, report its entries, queue its subdirectories,
  // continue with the head of the queue.

  function WalkFrom(fs: Storage, pwd: Path, queue: seq<Path>, depth: int): (w: Walk)
    decreases Work(fs, pwd) + QueueWork(fs, queue)
  {
    var spwd := Join(pwd);
    match ReadDir(fs, pwd)
    case Failed(e) => Walk([pwd], [Call(spwd, None, Some(e))], Some(e))
    case Entries(files) =>
      var queue' := queue + Enqueued(pwd, files, depth);
      if |queue'| == 0 then Walk([pwd], EntryCalls(spwd, files), None)
      else
        StepDecreases(fs, pwd, queue, depth);
        var rest := WalkFrom(fs, queue'[0], queue'[1..], depth);
        Walk([pwd] + rest.visited, EntryCalls(spwd, files) + rest.calls, rest.err)
  }

  /** The walk `ReadDirRecursivelyLimited(storage, relpath, depth)` performs. */
  function WalkTree(fs: Storage, relpath: string, depth: int): Walk {
    WalkFrom(fs, [relpath], [], depth)
  }

  /** One step of the walk, unfolded: a readable `pwd` followed by a non-empty queue. */
  lemma WalkStep(fs: Storage, pwd: Path, queue: seq<Path>, depth: int)
    requires ReadDir(fs, pwd).Entries?
    requires |queue + Enqueued(pwd, ReadDir(fs, pwd).files, depth)| > 0
    ensures var files := ReadDir(fs, pwd).files;
            var queue' := queue + Enqueued(pwd, files, depth);
            var rest := WalkFrom(fs, queue'[0], queue'[1..], depth);
            WalkFrom(fs, pwd, queue, depth)
            == Walk([pwd] + rest.visited, EntryCalls(Join(pwd), files) + rest.calls, rest.err)
  {
  }

  /** A walk whose first read fails, or leaves nothing queued, ends there. */
  lemma WalkEnds(fs: Storage, pwd: Path, queue: seq<Path>, depth: int)
    ensures ReadDir(fs, pwd).Failed? ==>
              var e := ReadDir(fs, pwd).err;
              WalkFrom(fs, pwd, queue, depth) == Walk([pwd], [Call(Join(pwd), None, Some(e))], Some(e))
    ensures ReadDir(fs, pwd).Entries? && |queue + Enqueued(pwd, ReadDir(fs, pwd).files, depth)| == 0 ==>
              WalkFrom(fs, pwd, queue, depth) == Walk([pwd], EntryCalls(Join(pwd), ReadDir(fs, pwd).files), None)
  {
  }

  /** A walk `w` preceded by the reads and callbacks already made. */
  function After(visited: seq<Path>, calls: seq<Call>, w: Walk): Walk {
    Walk(visited + w.visited, calls + w.calls, w.err)
  }

  /** Moving one read and its callbacks from the walk to what was already done. */
  lemma AfterShift(visited: seq<Path>, calls: seq<Call>, pwd: Path, entries: seq<Call>, rest: Walk)
    ensures After(visited, calls, Walk([pwd] + rest.visited, entries + rest.calls, rest.err))
            == After(visited + [pwd], calls + entries, rest)
  {
    assert visited + ([pwd] + rest.visited) == visited + [pwd] + rest.visited;
    assert calls + (entries + rest.calls) == calls + entries + rest.calls;
  }

  lemma AppendAssoc<T>(a: seq<T>, b: seq<T>, c: seq<T>)
    ensures a + b + c == a + (b + c)
  {
  }

  /** The callbacks and queued paths of a listing grow one entry at a time. */
  lemma ListingSnoc(spwd: string, pwd: Path, files: seq<FileInfo>, depth: int, i: nat)
    requires i < |files|
    ensures EntryCalls(spwd, files[..i + 1]) == EntryCalls(spwd, files[..i]) + [Call(spwd, Some(files[i]), None)]
    ensures Enqueued(pwd, files[..i + 1], depth) ==
              Enqueued(pwd, files[..i], depth)
              + (if files[i].isDir && !AtDepthLimit(pwd, depth) then [pwd + [files[i].name]] else [])
  {
    assert files[..i + 1][..i] == files[..i];
  }

  // ---------------------------------------------------------------------------
  // The source's loop.

  /** The inner loop over one listing: every entry goes to the callback with a nil error,
      and every subdirectory is queued unless the depth limit is reached at `pwd`. */
  method ReportEntries(spwd: string, pwd: Path, files: seq<FileInfo>, depth: int,
                       pwds: seq<Path>, calls: seq<Call>)
    returns (pwds': seq<Path>, calls': seq<Call>)
    ensures pwds' == pwds + Enqueued(pwd, files, depth)
    ensures calls' == calls + EntryCalls(spwd, files)
  {
    pwds', calls' := pwds, calls;
    var i := 0;
    while i < |files|
      invariant 0 <= i <= |files|
      invariant pwds' == pwds + Enqueued(pwd, files[..i], depth)
      invariant calls' == calls + EntryCalls(spwd, files[..i])
    {
      var f := files[i];
      ListingSnoc(spwd, pwd, files, depth, i);
      AppendAssoc(calls, EntryCalls(spwd, files[..i]), [Call(spwd, Some(f), None)]);
      AppendAssoc(pwds, Enqueued(pwd, files[..i], depth), [pwd + [f.name]]);
      calls' := calls' + [Call(spwd, Some(f), None)];
      if f.isDir {
        if depth != 0 && depth == |pwd| {
          // the depth limit forbids descending further
          i := i + 1;
          continue;
        }
        pwds' := pwds' + [pwd + [f.name]];
      }
      i := i + 1;
    }
    assert files[..i] == files;
  }

  method ReadDirRecursivelyLimited(fs: Storage, relpath: string, depth: int)
    returns (visited: seq<Path>, calls: seq<Call>, err: Option<Error>)
    ensures Walk(visited, calls, err) == WalkTree(fs, relpath, depth)
  {
    var pwds: seq<Path> := [];
    var pwd: Path := [relpath];
    visited, calls := [], [];
    while true
      invariant WalkTree(fs, relpath, depth) == After(visited, calls, WalkFrom(fs, pwd, pwds, depth))
      decreases Work(fs, pwd) + QueueWork(fs, pwds)
    {
      var spwd := Join(pwd);
      var listing := ReadDir(fs, pwd);
      WalkEnds(fs, pwd, pwds, depth);
      ghost var visited0, calls0 := visited, calls;
      visited := visited + [pwd];
      if listing.Failed? {
        calls := calls + [Call(spwd, None, Some(listing.err))];
        return visited, calls, Some(listing.err);
      }
      var files := listing.files;
      ghost var pwds0 := pwds;
      pwds, calls := ReportEntries(spwd, pwd, files, depth, pwds, calls);
      StepDecreases(fs, pwd, pwds0, depth);
      if |pwds| <= 0 {
        break;
      }
      WalkStep(fs, pwd, pwds0, depth);
      AfterShift(visited0, calls0, pwd, EntryCalls(spwd, files), WalkFrom(fs, pwds[0], pwds[1..], depth));
      pwd := pwds[0];
      pwds := pwds[1..];
    }
    err := None;
  }

  /** The unlimited walk is the limited one with depth 0. */
  method ReadDirRecursively(fs: Storage, relpath: string)
    returns (visited: seq<Path>, calls: seq<Call>, err: Option<Error>)
    ensures Walk(visited, calls, err) == WalkTree(fs, relpath, 0)
  {
    visited, calls, err := ReadDirRecursivelyLimited(fs, relpath, 0);
  }

  // ---------------------------------------------------------------------------
  // Properties of the walk.

  lemma {:induction false} EntryCallsReport(spwd: string, files: seq<FileInfo>)
    ensures |EntryCalls(spwd, files)| == |files|
    ensures forall i :: 0 <= i < |files| ==> EntryCalls(spwd, files)[i] == Call(spwd, Some(files[i]), None)
  {
    if files != [] {
      EntryCallsReport(spwd, files[..|files| - 1]);
    }
  }

  lemma {:induction false} SubdirsAreChildren(pwd: Path, files: seq<FileInfo>)
    ensures forall s :: s in Subdirs(pwd, files) ==>
              |s| == |pwd| + 1 && s[..|pwd|] == pwd && FileInfo(s[|pwd|], true) in files
  {
    if files != [] {
      SubdirsAreChildren(pwd, files[..|files| - 1]);
    }
  }

  lemma {:induction false} SubdirsComplete(pwd: Path, files: seq<FileInfo>)
    ensures forall f :: f in files && f.isDir ==> pwd + [f.name] in Subdirs(pwd, files)
  {
    if files != [] {
      SubdirsComplete(pwd, files[..|files| - 1]);
      forall f | f in files && f.isDir ensures pwd + [f.name] in Subdirs(pwd, files) {
        if f != files[|files| - 1] {
          assert f in files[..|files| - 1];
        }
      }
    }
  }

  /** A depth of zero or below never prunes: it is the unlimited walk. */
  lemma {:induction false} NonPositiveDepthIsUnlimited(fs: Storage, pwd: Path, queue: seq<Path>, depth: int)
    requires depth <= 0
    ensures WalkFrom(fs, pwd, queue, depth) == WalkFrom(fs, pwd, queue, 0)
    decreases Work(fs, pwd) + QueueWork(fs, queue)
  {
    match ReadDir(fs, pwd)
    case Failed(_) =>
    case Entries(files) =>
      assert Enqueued(pwd, files, depth) == Enqueued(pwd, files, 0);
      var queue' := queue + Enqueued(pwd, files, depth);
      if |queue'| > 0 {
        StepDecreases(fs, pwd, queue, depth);
        NonPositiveDepthIsUnlimited(fs, queue'[0], queue'[1..], depth);
        WalkStep(fs, pwd, queue, depth);
        WalkStep(fs, pwd, queue, 0);
      }
  }

  /** The callback sees a nil error and an entry on every call but possibly the last; a
      walk that fails ends with exactly one call carrying that error and no entry. */
  ghost predicate ErrorReportedLast(w: Walk) {
    && (w.err.Some? ==> |w.calls| > 0)
    && forall i :: 0 <= i < |w.calls| ==>
         if w.err.Some? && i == |w.calls| - 1
         then w.calls[i].info.None? && w.calls[i].err == w.err
         else w.calls[i].info.Some? && w.calls[i].err.None?
  }

  /** Any read that fails is the last read of the walk, and its error is the walk's. */
  ghost predicate FailureEndsWalk(fs: Storage, w: Walk) {
    forall i :: 0 <= i < |w.visited| && ReadDir(fs, w.visited[i]).Failed? ==>
      i == |w.visited| - 1 && w.err == Some(ReadDir(fs, w.visited[i]).err)
  }

  lemma {:induction false} ErrorEndsWalk(fs: Storage, pwd: Path, queue: seq<Path>, depth: int)
    ensures ErrorReportedLast(WalkFrom(fs, pwd, queue, depth))
    ensures WalkFrom(fs, pwd, queue, depth).err.Some? ==>
              ReadDir(fs, Last(WalkFrom(fs, pwd, queue, depth).visited)) == Failed(WalkFrom(fs, pwd, queue, depth).err.value)
    ensures FailureEndsWalk(fs, WalkFrom(fs, pwd, queue, depth))
    decreases Work(fs, pwd) + QueueWork(fs, queue)
  {
    match ReadDir(fs, pwd)
    case Failed(_) =>
    case Entries(files) =>
      EntryCallsReport(Join(pwd), files);
      var queue' := queue + Enqueued(pwd, files, depth);
      if |queue'| > 0 {
        StepDecreases(fs, pwd, queue, depth);
        ErrorEndsWalk(fs, queue'[0], queue'[1..], depth);
        WalkStep(fs, pwd, queue, depth);
        var rest := WalkFrom(fs, queue'[0], queue'[1..], depth);
        var w := WalkFrom(fs, pwd, queue, depth);
        assert rest.visited != [];
        assert Last([pwd] + rest.visited) == Last(rest.visited);
        forall i | 0 <= i < |w.visited| && ReadDir(fs, w.visited[i]).Failed?
          ensures i == |w.visited| - 1 && w.err == Some(ReadDir(fs, w.visited[i]).err)
        {
          assert i > 0 && w.visited[i] == rest.visited[i - 1];
        }
      }
  }

  function Last<T>(s: seq<T>): T
    requires s != []
  {
    s[|s| - 1]
  }

  ghost predicate SortedByLength(ps: seq<Path>) {
    forall i, j :: 0 <= i < j < |ps| ==> |ps[i]| <= |ps[j]|
  }

  /** A queue holding paths of one level, or of that level and the next, in that order. */
  ghost predicate LevelQueue(queue: seq<Path>, level: nat, root: Path) {
    && SortedByLength(queue)
    && (forall i :: 0 <= i < |queue| ==> level <= |queue[i]| <= level + 1)
    && forall i :: 0 <= i < |queue| ==> |queue[i]| >= 1 && queue[i][..1] == root
  }

  lemma QueueAfterRead(pwd: Path, queue: seq<Path>, files: seq<FileInfo>, depth: int)
    requires |pwd| > 0 && LevelQueue(queue, |pwd|, pwd[..1])
    ensures LevelQueue(queue + Enqueued(pwd, files, depth), |pwd|, pwd[..1])
  {
    var queue' := queue + Enqueued(pwd, files, depth);
    SubdirsAreChildren(pwd, files);
    forall i | |queue| <= i < |queue'|
      ensures |queue'[i]| == |pwd| + 1 && queue'[i][..1] == pwd[..1]
    {
      var s := queue'[i];
      assert s in Enqueued(pwd, files, depth);
      assert s[..|pwd|] == pwd;
      assert s[..1] == s[..|pwd|][..1];
    }
  }

  lemma QueueAfterDequeue(queue: seq<Path>, level: nat, root: Path)
    requires queue != [] && LevelQueue(queue, level, root)
    ensures LevelQueue(queue[1..], |queue[0]|, root)
  {
    assert forall i :: 0 <= i < |queue| - 1 ==> queue[1..][i] == queue[i + 1];
  }

  /** Directories are read level by level: never a shallower one after a deeper one. The
      first read is the start, and every read lies under the start's first component. */
  lemma {:induction false} BreadthFirst(fs: Storage, pwd: Path, queue: seq<Path>, depth: int)
    requires |pwd| > 0 && LevelQueue(queue, |pwd|, pwd[..1])
    ensures var w := WalkFrom(fs, pwd, queue, depth);
            && w.visited != [] && w.visited[0] == pwd
            && SortedByLength(w.visited)
            && forall v :: v in w.visited ==> |v| >= |pwd| && v[..1] == pwd[..1]
    decreases Work(fs, pwd) + QueueWork(fs, queue)
  {
    match ReadDir(fs, pwd)
    case Failed(_) =>
    case Entries(files) =>
      var queue' := queue + Enqueued(pwd, files, depth);
      if |queue'| > 0 {
        QueueAfterRead(pwd, queue, files, depth);
        QueueAfterDequeue(queue', |pwd|, pwd[..1]);
        var next := queue'[0];
        assert next[..1] == pwd[..1] && |next| >= |pwd|;
        StepDecreases(fs, pwd, queue, depth);
        BreadthFirst(fs, next, queue'[1..], depth);
        WalkStep(fs, pwd, queue, depth);
        PrependShallower(pwd, WalkFrom(fs, next, queue'[1..], depth).visited);
      }
  }

  lemma PrependShallower(p: Path, rest: seq<Path>)
    requires |p| > 0 && SortedByLength(rest)
    requires forall v :: v in rest ==> |v| >= |p| && v[..1] == p[..1]
    ensures SortedByLength([p] + rest)
    ensures forall v :: v in [p] + rest ==> |v| >= |p| && v[..1] == p[..1]
  {
    var s := [p] + rest;
    forall i, j | 0 <= i < j < |s| ensures |s[i]| <= |s[j]| {
      assert s[j] == rest[j - 1];
      if i > 0 {
        assert s[i] == rest[i - 1];
      }
    }
  }

  /** With a positive depth, no directory deeper than `depth` components is read. */
  lemma {:induction false} DepthBounded(fs: Storage, pwd: Path, queue: seq<Path>, depth: int)
    requires depth > 0 && |pwd| <= depth
    requires forall i :: 0 <= i < |queue| ==> |queue[i]| <= depth
    ensures forall v :: v in WalkFrom(fs, pwd, queue, depth).visited ==> |v| <= depth
    decreases Work(fs, pwd) + QueueWork(fs, queue)
  {
    match ReadDir(fs, pwd)
    case Failed(_) =>
    case Entries(files) =>
      var queue' := queue + Enqueued(pwd, files, depth);
      if |queue'| > 0 {
        SubdirsAreChildren(pwd, files);
        assert forall i :: |queue| <= i < |queue'| ==> queue'[i] in Enqueued(pwd, files, depth);
        StepDecreases(fs, pwd, queue, depth);
        DepthBounded(fs, queue'[0], queue'[1..], depth);
        WalkStep(fs, pwd, queue, depth);
      }
  }

  /** Reading `v` yields the directory entry `f`. */
  ghost predicate ListsSubdir(fs: Storage, v: Path, f: FileInfo) {
    ReadDir(fs, v).Entries? && f in ReadDir(fs, v).files && f.isDir
  }

  /** A walk that ends without error has read everything queued, and below every
      directory it read (unless the depth limit stops it there) every subdirectory. */
  lemma {:induction false} Complete(fs: Storage, pwd: Path, queue: seq<Path>, depth: int)
    ensures var w := WalkFrom(fs, pwd, queue, depth);
            w.err.None? ==>
              && pwd in w.visited
              && (forall q :: q in queue ==> q in w.visited)
              && forall v, f :: v in w.visited && ListsSubdir(fs, v, f) && !AtDepthLimit(v, depth)
                                ==> v + [f.name] in w.visited
    decreases Work(fs, pwd) + QueueWork(fs, queue)
  {
    var w := WalkFrom(fs, pwd, queue, depth);
    match ReadDir(fs, pwd)
    case Failed(_) =>
    case Entries(files) =>
      SubdirsComplete(pwd, files);
      var queue' := queue + Enqueued(pwd, files, depth);
      if |queue'| > 0 {
        StepDecreases(fs, pwd, queue, depth);
        Complete(fs, queue'[0], queue'[1..], depth);
        WalkStep(fs, pwd, queue, depth);
        var rest := WalkFrom(fs, queue'[0], queue'[1..], depth);
        if w.err.None? {
          assert forall q :: q in queue' ==> q in rest.visited by {
            forall q | q in queue' ensures q in rest.visited {
              if q != queue'[0] {
                var k :| 0 <= k < |queue'| && queue'[k] == q;
                assert queue'[1..][k - 1] == q;
              }
            }
          }
        }
      }
  }

  // The same properties for the walk `ReadDirRecursivelyLimited` performs.

  /** `ReadDirRecursively` (depth 0) and any negative depth give the same walk. */
  lemma NegativeDepthUnlimited(fs: Storage, relpath: string, depth: int)
    requires depth < 0
    ensures WalkTree(fs, relpath, depth) == WalkTree(fs, relpath, 0)
  {
    NonPositiveDepthIsUnlimited(fs, [relpath], [], depth);
  }

  lemma WalkTreeBreadthFirst(fs: Storage, relpath: string, depth: int)
    ensures var w := WalkTree(fs, relpath, depth);
            && w.visited != [] && w.visited[0] == [relpath]
            && SortedByLength(w.visited)
            && forall v :: v in w.visited ==> |v| >= 1 && v[0] == relpath
  {
    assert [relpath][..1] == [relpath];
    BreadthFirst(fs, [relpath], [], depth);
    var w := WalkTree(fs, relpath, depth);
    forall v | v in w.visited ensures v[0] == relpath {
      assert v[..1][0] == v[0];
    }
  }

  lemma WalkTreeDepthBounded(fs: Storage, relpath: string, depth: int)
    requires depth > 0
    ensures forall v :: v in WalkTree(fs, relpath, depth).visited ==> |v| <= depth
  {
    DepthBounded(fs, [relpath], [], depth);
  }

  lemma WalkTreeErrorLast(fs: Storage, relpath: string, depth: int)
    ensures ErrorReportedLast(WalkTree(fs, relpath, depth))
    ensures var w := WalkTree(fs, relpath, depth);
            w.err.Some? ==> ReadDir(fs, Last(w.visited)) == Failed(w.err.value)
    ensures FailureEndsWalk(fs, WalkTree(fs, relpath, depth))
  {
    ErrorEndsWalk(fs, [relpath], [], depth);
  }

  /** Without a depth limit, a walk that ends without error has read every subdirectory
      of every directory it read. */
  lemma WalkTreeComplete(fs: Storage, relpath: string, depth: int)
    requires depth <= 0
    ensures var w := WalkTree(fs, relpath, depth);
            w.err.None? ==>
              forall v, f :: v in w.visited && ListsSubdir(fs, v, f) ==> v + [f.name] in w.visited
  {
    Complete(fs, [relpath], [], depth);
  }
}
