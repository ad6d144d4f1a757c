/**
 Directory enumeration of internal/directories/dirs.go.

 `filepath.WalkDir` is replaced by the sequence of calls it makes to its
 callback (a walk: one `Visit` per call, in call order), so a filesystem is a
 function from a root to the walk that starts there. `filepath.Abs` becomes a
 partial function and `os.Stat(..).IsDir()` a predicate.
 */
module Directories {
  import opened Paths
  import opened Wrappers

  /** The error WalkDir hands the callback: none, an `*fs.PathError`, or any other error. */
  datatype WalkErr = NoErr | PathErr | OtherErr

  /** One callback invocation: the path, whether its entry is a directory, and the error passed with it. */
  datatype Visit = Visit(path: Path, isDir: bool, err: WalkErr)

  /** The non-path error that aborted a walk, with the path it was reported for. */
  datatype WalkError = WalkError(path: Path)

  /** The error collectAllSubDirs wraps around a walk error ("failed to collect subdirectories for root"). */
  datatype CollectError = CollectError(root: Path, cause: WalkError)

  /**
   safeWalkDir with its callback: a visit carrying a path error is skipped, a
   visit carrying any other error aborts the walk with that error, and every
   other visit is handed to the callback. The result holds the visits that were
   handed over.
   */
  function SafeWalkDir(walk: seq<Visit>): (r: Result<seq<Visit>, WalkError>)
    ensures r.Success? <==> forall i :: 0 <= i < |walk| ==> walk[i].err != OtherErr
    ensures r.Failure? ==>
              exists i :: 0 <= i < |walk| && walk[i].err == OtherErr && r.error == WalkError(walk[i].path)
                          && forall j :: 0 <= j < i ==> walk[j].err != OtherErr
    ensures r.Success? ==> forall v :: v in r.value <==> v in walk && v.err == NoErr
    ensures r.Success? ==> |r.value| <= |walk|
    decreases |walk|
  {
    if |walk| == 0 then
      Success([])
    else
      assert forall i :: 1 <= i < |walk| ==> walk[i] == walk[1..][i - 1];
      match walk[0].err
      case PathErr => SafeWalkDir(walk[1..])
      case OtherErr => Failure(WalkError(walk[0].path))
      case NoErr =>
        match SafeWalkDir(walk[1..])
        case Success(rest) => Success([walk[0]] + rest)
        case Failure(e) => Failure(e)
  }

  /** A path error anywhere in a walk is swallowed: the walk continues as if that visit had not happened. */
  lemma {:induction false} PathErrorSwallowed(before: seq<Visit>, p: Path, isDir: bool, after: seq<Visit>)
    ensures SafeWalkDir(before + [Visit(p, isDir, PathErr)] + after) == SafeWalkDir(before + after)
    decreases |before|
  {
    var w := before + [Visit(p, isDir, PathErr)] + after;
    if |before| == 0 {
      assert w[1..] == after;
      assert before + after == after;
    } else {
      assert w[0] == before[0];
      assert w[1..] == before[1..] + [Visit(p, isDir, PathErr)] + after;
      assert (before + after)[0] == before[0];
      assert (before + after)[1..] == before[1..] + after;
      PathErrorSwallowed(before[1..], p, isDir, after);
    }
  }

  /** The directories among the visits handed to the callback. */
  function DirsOf(visits: seq<Visit>): set<Path> {
    set v | v in visits && v.isDir :: v.path
  }

  /** collectAllSubDirs: every directory the walk reaches, or a wrapped error if the walk aborted. */
  function CollectAllSubDirs(root: Path, walk: seq<Visit>): (r: Result<set<Path>, CollectError>)
    ensures r.Success? <==> forall i :: 0 <= i < |walk| ==> walk[i].err != OtherErr
    ensures r.Success? ==>
              forall p :: p in r.value <==> exists i :: 0 <= i < |walk| && walk[i] == Visit(p, true, NoErr)
    ensures r.Failure? ==> r.error.root == root
  {
    match SafeWalkDir(walk)
    case Failure(e) => Failure(CollectError(root, e))
    case Success(visits) =>
      var dirs := DirsOf(visits);
      assert forall p :: p in dirs ==> exists i :: 0 <= i < |walk| && walk[i] == Visit(p, true, NoErr);
      Success(dirs)
  }

  /** The directories a root contributes: its collected set, or nothing when its collection failed. */
  function Found(root: Path, fs: Path -> seq<Visit>): set<Path> {
    match CollectAllSubDirs(root, fs(root))
    case Success(dirs) => dirs
    case Failure(_) => {}
  }

  /** Every directory found under any of the roots. */
  function AllDirs(roots: seq<Path>, fs: Path -> seq<Visit>): set<Path> {
    set root, p | root in roots && p in Found(root, fs) :: p
  }

  /** mergeRootDirs: a new set holding every directory of either input. */
  method MergeRootDirs(d1: set<Path>, d2: set<Path>) returns (result: set<Path>)
    ensures forall k :: k in result <==> k in d1 || k in d2
  {
    result := {};
    var todo := d1;
    while todo != {}
      invariant todo <= d1
      invariant result == d1 - todo
      decreases todo
    {
      var k :| k in todo;
      result := result + {k};
      todo := todo - {k};
    }
    todo := d2;
    while todo != {}
      invariant todo <= d2
      invariant result == d1 + (d2 - todo)
      decreases todo
    {
      var k :| k in todo;
      result := result + {k};
      todo := todo - {k};
    }
  }

  /**
   GetAllDirs: folds over the roots in order, merging the directories of every
   root whose collection succeeds and skipping (after logging) every root whose
   collection fails. Its error result is always nil.
   */
  method GetAllDirs(roots: seq<Path>, fs: Path -> seq<Visit>) returns (allDirs: set<Path>, err: Option<CollectError>)
    ensures err == None
    ensures forall p :: p in allDirs <==>
              exists i :: 0 <= i < |roots| && CollectAllSubDirs(roots[i], fs(roots[i])).Success?
                          && p in CollectAllSubDirs(roots[i], fs(roots[i])).value
    ensures allDirs == AllDirs(roots, fs)
  {
    allDirs := {};
    err := None;
    var i := 0;
    while i < |roots|
      invariant 0 <= i <= |roots|
      invariant allDirs == AllDirs(roots[..i], fs)
    {
      assert roots[..i + 1] == roots[..i] + [roots[i]];
      var subDirs := CollectAllSubDirs(roots[i], fs(roots[i]));
      if subDirs.Failure? {
        AllDirsAppend(roots[..i], roots[i], fs);
        i := i + 1;
        continue;
      }
      allDirs := MergeRootDirs(allDirs, subDirs.value);
      AllDirsAppend(roots[..i], roots[i], fs);
      i := i + 1;
    }
    assert roots[..i] == roots;
    forall p, k | 0 <= k < |roots| && CollectAllSubDirs(roots[k], fs(roots[k])).Success?
                  && p in CollectAllSubDirs(roots[k], fs(roots[k])).value
      ensures p in allDirs
    {
      assert roots[k] in roots && p in Found(roots[k], fs);
    }
    forall p | p in allDirs
      ensures exists k :: 0 <= k < |roots| && CollectAllSubDirs(roots[k], fs(roots[k])).Success?
                          && p in CollectAllSubDirs(roots[k], fs(roots[k])).value
    {
      var root :| root in roots && p in Found(root, fs);
      var k :| 0 <= k < |roots| && roots[k] == root;
      assert CollectAllSubDirs(roots[k], fs(roots[k])).Success?;
    }
  }

  /** Processing one more root adds exactly what that root contributes. */
  lemma AllDirsAppend(roots: seq<Path>, root: Path, fs: Path -> seq<Visit>)
    ensures AllDirs(roots + [root], fs) == AllDirs(roots, fs) + Found(root, fs)
  {
  }

  /** The result does not depend on the order or the repetition of the roots. */
  lemma AllDirsOrderIndependent(roots1: seq<Path>, roots2: seq<Path>, fs: Path -> seq<Visit>)
    requires forall root :: root in roots1 <==> root in roots2
    ensures AllDirs(roots1, fs) == AllDirs(roots2, fs)
  {
  }

  /** When every root fails, nothing is found. */
  lemma AllRootsFail(roots: seq<Path>, fs: Path -> seq<Visit>)
    requires forall i :: 0 <= i < |roots| ==> CollectAllSubDirs(roots[i], fs(roots[i])).Failure?
    ensures AllDirs(roots, fs) == {}
  {
  }

  /** Whether a path given by the user is kept: `filepath.Abs` succeeds and the absolute path is a directory. */
  predicate Valid(path: Path, abs: Path -> Option<Path>, isDir: Path -> bool) {
    abs(path).Some? && isDir(abs(path).value)
  }

  /** The absolute forms of the valid paths, in input order. */
  function ValidDirs(paths: seq<Path>, abs: Path -> Option<Path>, isDir: Path -> bool): seq<Path>
    decreases |paths|
  {
    if |paths| == 0 then []
    else
      var last := paths[|paths| - 1];
      ValidDirs(paths[..|paths| - 1], abs, isDir) + (if Valid(last, abs, isDir) then [abs(last).value] else [])
  }

  /**
   FilterValidDirs: keeps, in input order, the absolute form of exactly those
   paths whose `filepath.Abs` succeeds and whose absolute form is a directory.
   `origin` tells, for each kept path, which input it came from.
   */
  method FilterValidDirs(paths: seq<Path>, abs: Path -> Option<Path>, isDir: Path -> bool)
    returns (validDirs: seq<Path>, ghost origin: seq<nat>)
    ensures validDirs == ValidDirs(paths, abs, isDir)
    ensures |validDirs| == |origin| <= |paths|
    ensures forall j :: 0 <= j < |origin| ==>
              origin[j] < |paths| && Valid(paths[origin[j]], abs, isDir) && abs(paths[origin[j]]) == Some(validDirs[j])
    ensures forall j, k :: 0 <= j < k < |origin| ==> origin[j] < origin[k]
    ensures forall i :: 0 <= i < |paths| && Valid(paths[i], abs, isDir) ==> i in origin
  {
    validDirs := [];
    origin := [];
    var i := 0;
    while i < |paths|
      invariant 0 <= i <= |paths|
      invariant validDirs == ValidDirs(paths[..i], abs, isDir)
      invariant |validDirs| == |origin| <= i
      invariant forall j :: 0 <= j < |origin| ==>
                  origin[j] < i && Valid(paths[origin[j]], abs, isDir) && abs(paths[origin[j]]) == Some(validDirs[j])
      invariant forall j, k :: 0 <= j < k < |origin| ==> origin[j] < origin[k]
      invariant forall m :: 0 <= m < i && Valid(paths[m], abs, isDir) ==> m in origin
    {
      assert paths[..i + 1][..i] == paths[..i];
      var absPath := abs(paths[i]);
      if absPath.None? {
        i := i + 1;
        continue;
      }
      if isDir(absPath.value) {
        validDirs := validDirs + [absPath.value];
        origin := origin + [i];
      }
      i := i + 1;
    }
    assert paths[..i] == paths;
  }

  /**
   PrepareDirsForMonitoring: GetAllDirs over the valid paths. The fatal branch
   is taken only if GetAllDirs reports an error, which it never does.
   */
  method PrepareDirsForMonitoring(paths: seq<Path>, abs: Path -> Option<Path>, isDir: Path -> bool,
                                  fs: Path -> seq<Visit>)
    returns (allRecursiveDirs: set<Path>)
    ensures forall p :: p in allRecursiveDirs <==>
              exists i :: 0 <= i < |paths| && Valid(paths[i], abs, isDir) && p in Found(abs(paths[i]).value, fs)
  {
    var validDirs, origin := FilterValidDirs(paths, abs, isDir);
    var err;
    allRecursiveDirs, err := GetAllDirs(validDirs, fs);
    if err.Some? {
      // log.Fatalf: unreachable, GetAllDirs never reports an error
      assert false;
    }
    forall p, i | 0 <= i < |paths| && Valid(paths[i], abs, isDir) && p in Found(abs(paths[i]).value, fs)
      ensures p in allRecursiveDirs
    {
      var j :| 0 <= j < |origin| && origin[j] == i;
      assert validDirs[j] in validDirs;
    }
    forall p | p in allRecursiveDirs
      ensures exists i :: 0 <= i < |paths| && Valid(paths[i], abs, isDir) && p in Found(abs(paths[i]).value, fs)
    {
      var root :| root in validDirs && p in Found(root, fs);
      var j :| 0 <= j < |validDirs| && validDirs[j] == root;
      assert Valid(paths[origin[j]], abs, isDir);
    }
  }
}
