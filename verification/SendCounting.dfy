/** fileshare/server.go: how many files the paths of a Send request stand for. */
module SendCounting {
  import opened Options

  const DIR_DEPTH_LIMIT := 5
  const TRANSFER_FILE_LIMIT := 1000

  /** A closed directory is one whose listing cannot be read. */
  datatype Entry = File | ClosedDir | Dir(entries: seq<Entry>)

  datatype Problem = TooDeep | Unreadable

  datatype Result = Ok(count: nat) | Err(problem: Problem)

  // ----- the simple reading of a tree -----

  function Count(e: Entry): nat {
    match e
    case File => 1
    case ClosedDir => 0
    case Dir(es) => CountAll(es)
  }

  function CountAll(es: seq<Entry>): nat {
    if es == [] then 0 else CountAll(es[..|es| - 1]) + Count(es[|es| - 1])
  }

  /** How many directories lie one inside the other. */
  function Depth(e: Entry): nat {
    match e
    case File => 0
    case ClosedDir => 1
    case Dir(es) => 1 + DepthAll(es)
  }

  function DepthAll(es: seq<Entry>): nat {
    if es == [] then 0
    else
      var d, last := DepthAll(es[..|es| - 1]), Depth(es[|es| - 1]);
      if last > d then last else d
  }

  predicate Open(e: Entry) {
    match e
    case File => true
    case ClosedDir => false
    case Dir(es) => forall x :: x in es ==> Open(x)
  }

  /** A negative bound is none. */
  predicate Within(depth: nat, bound: int) {
    bound < 0 || depth <= bound
  }

  // ----- the walk -----

  /** What a depth-first walk meets first: a directory too deep or one that cannot be read. */
  function FirstProblem(e: Entry, maxDepth: int): Option<Problem> {
    match e
    case File => None
    case ClosedDir => Some(if maxDepth == 0 then TooDeep else Unreadable)
    case Dir(es) => if maxDepth == 0 then Some(TooDeep) else FirstProblemIn(es, maxDepth - 1)
  }

  function FirstProblemIn(es: seq<Entry>, maxDepth: int): Option<Problem> {
    if es == [] then None
    else
      var before := FirstProblemIn(es[..|es| - 1], maxDepth);
      if before.Some? then before else FirstProblem(es[|es| - 1], maxDepth)
  }

  function Walk(e: Entry, maxDepth: int): Result {
    var p := FirstProblem(e, maxDepth);
    if p.Some? then Err(p.value) else Ok(Count(e))
  }

  lemma {:induction false} ProblemSticks(es: seq<Entry>, maxDepth: int, i: nat)
    requires i < |es| && (FirstProblemIn(es[..i], maxDepth).Some? || FirstProblem(es[i], maxDepth).Some?)
    ensures FirstProblemIn(es, maxDepth) ==
            if FirstProblemIn(es[..i], maxDepth).Some? then FirstProblemIn(es[..i], maxDepth)
            else FirstProblem(es[i], maxDepth)
  {
    var n := |es| - 1;
    if i < n {
      assert es[..n][..i] == es[..i];
      ProblemSticks(es[..n], maxDepth, i);
    }
  }

  method GetNumberOfFiles(dir: Entry, maxDepth: int) returns (r: Result)
    requires dir != File
    ensures r == Walk(dir, maxDepth)
  {
    if maxDepth == 0 {
      return Err(TooDeep);
    }
    if dir.ClosedDir? {
      return Err(Unreadable);
    }
    var n := 0;
    var es := dir.entries;
    for i := 0 to |es|
      invariant FirstProblemIn(es[..i], maxDepth - 1).None? && n == CountAll(es[..i])
    {
      assert es[..i + 1][..i] == es[..i];
      if es[i] != File {
        var nested := GetNumberOfFiles(es[i], maxDepth - 1);
        if nested.Err? {
          ProblemSticks(es, maxDepth - 1, i);
          return Err(nested.problem);
        }
        n := n + nested.count;
      } else {
        n := n + 1;
      }
    }
    assert es[..|es|] == es;
    return Ok(n);
  }

  lemma {:induction false} NoProblemIff(e: Entry, maxDepth: int)
    ensures FirstProblem(e, maxDepth).None? <==> Open(e) && Within(Depth(e), maxDepth)
  {
    if e.Dir? && maxDepth != 0 {
      NoProblemInIff(e.entries, maxDepth - 1);
    }
  }

  lemma {:induction false} NoProblemInIff(es: seq<Entry>, maxDepth: int)
    ensures FirstProblemIn(es, maxDepth).None? <==> (forall x :: x in es ==> Open(x)) && Within(DepthAll(es), maxDepth)
  {
    if es != [] {
      var n := |es| - 1;
      NoProblemInIff(es[..n], maxDepth);
      NoProblemIff(es[n], maxDepth);
      assert forall x :: x in es <==> x in es[..n] || x == es[n];
    }
  }

  /** The walk counts the files iff every directory can be read and none lies too deep; a negative bound
      asks only for the first. */
  lemma CountsIff(dir: Entry, maxDepth: int)
    ensures Walk(dir, maxDepth).Ok? <==> Open(dir) && Within(Depth(dir), maxDepth)
    ensures Walk(dir, maxDepth).Ok? ==> Walk(dir, maxDepth).count == Count(dir)
  {
    NoProblemIff(dir, maxDepth);
  }

  // ----- the paths of a request -----

  /** A path that cannot be looked at has no entry. */
  datatype Verdict = Go(count: nat) | NotFound | DirectoryTooDeep | TooManyFiles | NoFiles

  function Verdicts(paths: seq<Option<Entry>>): Verdict {
    if paths == [] then Go(0)
    else
      var before := Verdicts(paths[..|paths| - 1]);
      if !before.Go? then before else VerdictNext(before.count, paths[|paths| - 1])
  }

  function VerdictNext(count: nat, path: Option<Entry>): Verdict {
    match path
    case None => NotFound
    case Some(e) =>
      match Walk(e, DIR_DEPTH_LIMIT)
      case Err(TooDeep) => DirectoryTooDeep
      case Err(Unreadable) => NotFound
      case Ok(n) =>
        if count + n > TRANSFER_FILE_LIMIT then TooManyFiles
        else if count + n == 0 then NoFiles
        else Go(count + n)
  }

  lemma {:induction false} VerdictSticks(paths: seq<Option<Entry>>, i: nat)
    requires i < |paths| && Verdicts(paths[..i]).Go?
    requires !VerdictNext(Verdicts(paths[..i]).count, paths[i]).Go?
    ensures Verdicts(paths) == VerdictNext(Verdicts(paths[..i]).count, paths[i])
  {
    var n := |paths| - 1;
    if i < n {
      assert paths[..n][..i] == paths[..i];
      VerdictSticks(paths[..n], i);
    }
  }

  /** The loop over the request's paths. */
  method CountPaths(paths: seq<Option<Entry>>) returns (v: Verdict)
    ensures v == Verdicts(paths)
  {
    var fileCount: nat := 0;
    for i := 0 to |paths|
      invariant Verdicts(paths[..i]) == Go(fileCount)
    {
      assert paths[..i + 1][..i] == paths[..i];
      if !VerdictNext(fileCount, paths[i]).Go? {
        VerdictSticks(paths, i);
      }
      if paths[i].None? {
        return NotFound;
      }
      if paths[i].value != File {
        var counted := GetNumberOfFiles(paths[i].value, DIR_DEPTH_LIMIT);
        if counted == Err(TooDeep) {
          return DirectoryTooDeep;
        } else if counted.Err? {
          return NotFound;
        }
        fileCount := fileCount + counted.count;
      } else {
        fileCount := fileCount + 1;
      }
      if fileCount > TRANSFER_FILE_LIMIT {
        return TooManyFiles;
      }
      if fileCount == 0 {
        return NoFiles;
      }
    }
    assert paths[..|paths|] == paths;
    return Go(fileCount);
  }

  predicate Sendable(path: Option<Entry>) {
    path.Some? && Open(path.value) && Depth(path.value) <= DIR_DEPTH_LIMIT
  }

  function TotalFiles(paths: seq<Option<Entry>>): nat {
    if paths == [] then 0
    else
      var last := paths[|paths| - 1];
      TotalFiles(paths[..|paths| - 1]) + if last.Some? then Count(last.value) else 0
  }

  /** A request goes ahead iff every path is readable and shallow, all together stand for at most 1000
      files, and the first path has a file: empty directories pass only behind a path that has one. */
  lemma {:induction false} GoesIff(paths: seq<Option<Entry>>)
    ensures Verdicts(paths).Go? <==>
            && (forall p :: p in paths ==> Sendable(p))
            && TotalFiles(paths) <= TRANSFER_FILE_LIMIT
            && (paths != [] ==> paths[0].Some? && Count(paths[0].value) > 0)
    ensures Verdicts(paths).Go? ==> Verdicts(paths).count == TotalFiles(paths)
  {
    if paths != [] {
      var n := |paths| - 1;
      GoesIff(paths[..n]);
      assert forall p :: p in paths <==> p in paths[..n] || p == paths[n];
      if paths[n].Some? {
        CountsIff(paths[n].value, DIR_DEPTH_LIMIT);
      }
      assert paths[n] in paths && (n > 0 ==> paths[..n] != [] && paths[..n][0] == paths[0]);
      if n > 0 && paths[0].Some? {
        FirstCounts(paths[..n]);
      }
    }
  }

  lemma {:induction false} FirstCounts(paths: seq<Option<Entry>>)
    requires paths != [] && paths[0].Some?
    ensures TotalFiles(paths) >= Count(paths[0].value)
  {
    if |paths| > 1 {
      FirstCounts(paths[..|paths| - 1]);
    }
  }

  /** So the order of the paths matters. */
  lemma OrderMatters()
    ensures Verdicts([Some(File), Some(Dir([]))]) == Go(1) && Verdicts([Some(Dir([])), Some(File)]) == NoFiles
  {
    var a, b := [Some(File), Some(Dir([]))], [Some(Dir([])), Some(File)];
    assert a[..1] == [Some(File)] && b[..1] == [Some(Dir([]))] && a[..1][..0] == [] && b[..1][..0] == [];
  }

  // ----- why a request does not go -----

  /** A tree that can be read is at worst too deep, and one that is shallow at worst cannot be read. */
  lemma {:induction false} ProblemKind(e: Entry, maxDepth: int)
    ensures Open(e) ==> FirstProblem(e, maxDepth) in {None, Some(TooDeep)}
    ensures Within(Depth(e), maxDepth) ==> FirstProblem(e, maxDepth) in {None, Some(Unreadable)}
  {
    if e.Dir? && maxDepth != 0 {
      ProblemKindIn(e.entries, maxDepth - 1);
    }
  }

  lemma {:induction false} ProblemKindIn(es: seq<Entry>, maxDepth: int)
    ensures (forall x :: x in es ==> Open(x)) ==> FirstProblemIn(es, maxDepth) in {None, Some(TooDeep)}
    ensures Within(DepthAll(es), maxDepth) ==> FirstProblemIn(es, maxDepth) in {None, Some(Unreadable)}
  {
    if es != [] {
      var n := |es| - 1;
      ProblemKindIn(es[..n], maxDepth);
      ProblemKind(es[n], maxDepth);
      assert forall x :: x in es <==> x in es[..n] || x == es[n];
    }
  }

  /** The first path at which the request stops: it is missing or has a problem of its own, or with it there are more
      than 1000 files or none at all. */
  lemma {:induction false} StopsAt(paths: seq<Option<Entry>>) returns (i: nat)
    requires !Verdicts(paths).Go?
    ensures i < |paths| && Verdicts(paths[..i]).Go?
    ensures match Verdicts(paths)
            case NotFound => paths[i].None? || !Open(paths[i].value)
            case DirectoryTooDeep => paths[i].Some? && Depth(paths[i].value) > 5
            case TooManyFiles => Sendable(paths[i]) && TotalFiles(paths[..i + 1]) > 1000
            case NoFiles => Sendable(paths[i]) && TotalFiles(paths[..i + 1]) == 0
            case Go(_) => false
  {
    var n := |paths| - 1;
    if Verdicts(paths[..n]).Go? {
      i := n;
      assert paths[..n + 1] == paths;
      GoesIff(paths[..n]);
      if paths[n].Some? {
        ProblemKind(paths[n].value, DIR_DEPTH_LIMIT);
        CountsIff(paths[n].value, DIR_DEPTH_LIMIT);
      }
    } else {
      i := StopsAt(paths[..n]);
      assert paths[..n][..i] == paths[..i] && paths[..n][..i + 1] == paths[..i + 1];
    }
  }
}
