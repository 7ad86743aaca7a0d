/** Choosing and accepting the files of a transfer (fileshare/transfer.go, fileshare/server.go and
    acceptTransfer in fileshare/event_manager.go). */
module Acceptance {
  import opened Options
  import opened Totals
  import opened Transfers
  import Sorting

  method GetTransferFilesByPathPrefix(files: seq<File>, prefix: string) returns (found: seq<File>)
    ensures found == FilesByPrefix(files, prefix)
  {
    found := [];
    for i := 0 to |files|
      invariant found == FilesByPrefix(files[..i], prefix)
    {
      PrefixNext(files[..i], files[i], prefix);
      assert files[..i + 1] == files[..i] + [files[i]];
      if prefix <= files[i].path {
        found := found + [files[i]];
      }
    }
    assert files[..|files|] == files;
  }

  lemma PrefixNext(files: seq<File>, f: File, prefix: string)
    ensures FilesByPrefix(files + [f], prefix) == FilesByPrefix(files, prefix) + if prefix <= f.path then [f] else []
  {
    Sorting.FilterSnoc(files, f, Under(prefix));
  }

  /** The files named by a request; naming none means all. */
  method ChooseFiles(files: seq<File>, paths: seq<string>) returns (chosen: Option<seq<File>>)
    ensures chosen == if paths == [] then Some(files) else Chosen(files, paths)
  {
    if paths == [] {
      return Some(files);
    }
    var sofar := [];
    for i := 0 to |paths|
      invariant Chosen(files, paths[..i]) == Some(sofar)
    {
      var found := GetTransferFilesByPathPrefix(files, paths[i]);
      assert paths[..i + 1][..i] == paths[..i];
      if found == [] {
        ChosenFails(files, paths, i + 1);
        return None;
      }
      sofar := sofar + found;
    }
    assert paths[..|paths|] == paths;
    return Some(sofar);
  }

  lemma {:induction false} ChosenFails(files: seq<File>, paths: seq<string>, n: nat)
    requires n <= |paths| && Chosen(files, paths[..n]).None?
    ensures Chosen(files, paths).None?
    decreases |paths|
  {
    if n == |paths| {
      assert paths[..n] == paths;
    } else {
      assert paths[..|paths| - 1][..n] == paths[..n];
      ChosenFails(files, paths[..|paths| - 1], n);
    }
  }

  /** Adds up sizes the way a uint64 accumulator does. */
  method SumSizes(files: seq<File>) returns (total: Uint64)
    ensures total == Wrap(TotalSize(files))
  {
    total := 0;
    for i := 0 to |files|
      invariant total == Wrap(TotalSize(files[..i]))
    {
      assert files[..i + 1][..i] == files[..i];
      WrapInside(TotalSize(files[..i]), files[i].size);
      total := Wrap(total + files[i].size);
    }
    assert files[..|files|] == files;
  }

  // ----- the space check -----

  /** Whether the Accept rpc accepts a file: any of the requested path prefixes, or no request at all. */
  predicate IsAccepted(f: File, paths: seq<string>) {
    paths == [] || exists p | p in paths :: p <= f.path
  }

  function AcceptedFiles(files: seq<File>, paths: seq<string>): seq<File> {
    Sorting.Filter(files, (f: File) => IsAccepted(f, paths))
  }

  /** What acceptTransfer adds up before comparing, without wrap-around: overlaps count repeatedly. */
  function CheckedSize(files: seq<File>, paths: seq<string>): nat {
    var chosen := if paths == [] then Some(files) else Chosen(files, paths);
    if chosen.None? then 0 else TotalSize(chosen.value)
  }

  lemma {:induction false} TotalSizeConcat(a: seq<File>, b: seq<File>)
    ensures TotalSize(a + b) == TotalSize(a) + TotalSize(b)
  {
    if b == [] {
      assert a + b == a;
    } else {
      assert (a + b)[..|a + b| - 1] == a + b[..|b| - 1];
      TotalSizeConcat(a, b[..|b| - 1]);
    }
  }

  lemma TotalSizeCons(f: File, rest: seq<File>)
    ensures TotalSize([f] + rest) == f.size + TotalSize(rest)
  {
    TotalSizeConcat([f], rest);
    assert [f][..0] == [];
  }

  /** Selecting by "p or q" costs at most selecting by p and by q. */
  lemma {:induction false} UnionSize(files: seq<File>, p: File -> bool, q: File -> bool, either: File -> bool)
    requires forall f :: either(f) ==> p(f) || q(f)
    ensures TotalSize(Sorting.Filter(files, either)) <=
            TotalSize(Sorting.Filter(files, p)) + TotalSize(Sorting.Filter(files, q))
  {
    if files != [] {
      UnionSize(files[1..], p, q, either);
      TotalSizeCons(files[0], Sorting.Filter(files[1..], either));
      TotalSizeCons(files[0], Sorting.Filter(files[1..], p));
      TotalSizeCons(files[0], Sorting.Filter(files[1..], q));
    }
  }

  /** And exactly that much if no file is selected by both. */
  lemma {:induction false} DisjointUnionSize(files: seq<File>, p: File -> bool, q: File -> bool, either: File -> bool)
    requires forall f :: f in files ==> (either(f) <==> p(f) || q(f)) && !(p(f) && q(f))
    ensures TotalSize(Sorting.Filter(files, either)) ==
            TotalSize(Sorting.Filter(files, p)) + TotalSize(Sorting.Filter(files, q))
  {
    if files != [] {
      DisjointUnionSize(files[1..], p, q, either);
      TotalSizeCons(files[0], Sorting.Filter(files[1..], either));
      TotalSizeCons(files[0], Sorting.Filter(files[1..], p));
      TotalSizeCons(files[0], Sorting.Filter(files[1..], q));
      assert files[0] in files;
    }
  }

  /** No file lies under two of the paths. */
  ghost predicate NoOverlap(files: seq<File>, paths: seq<string>) {
    forall f, i, j :: f in files && 0 <= i < j < |paths| ==> !(paths[i] <= f.path && paths[j] <= f.path)
  }

  lemma {:induction false} FilterNone(files: seq<File>, keep: File -> bool)
    requires forall f :: f in files ==> !keep(f)
    ensures Sorting.Filter(files, keep) == []
  {
    if files != [] {
      FilterNone(files[1..], keep);
    }
  }

  function Matches(paths: seq<string>): File -> bool {
    (f: File) => exists p | p in paths :: p <= f.path
  }

  lemma {:induction false} ChosenCovers(files: seq<File>, paths: seq<string>)
    requires Chosen(files, paths).Some?
    ensures TotalSize(Sorting.Filter(files, Matches(paths))) <= TotalSize(Chosen(files, paths).value)
  {
    if paths == [] {
      FilterNone(files, Matches(paths));
    } else {
      var front, last := paths[..|paths| - 1], paths[|paths| - 1];
      assert paths == front + [last];
      ChosenCovers(files, front);
      TotalSizeConcat(Chosen(files, front).value, FilesByPrefix(files, last));
      UnionSize(files, Matches(front), Under(last), Matches(paths));
    }
  }

  lemma {:induction false} ChosenExactly(files: seq<File>, paths: seq<string>)
    requires Chosen(files, paths).Some? && NoOverlap(files, paths)
    ensures TotalSize(Sorting.Filter(files, Matches(paths))) == TotalSize(Chosen(files, paths).value)
  {
    if paths == [] {
      FilterNone(files, Matches(paths));
    } else {
      var front, last := paths[..|paths| - 1], paths[|paths| - 1];
      assert paths == front + [last];
      NoOverlapFront(files, front, last);
      ChosenExactly(files, front);
      TotalSizeConcat(Chosen(files, front).value, FilesByPrefix(files, last));
      DisjointUnionSize(files, Matches(front), Under(last), Matches(paths));
    }
  }

  lemma MatchesLast(front: seq<string>, last: string, f: File)
    ensures Matches(front + [last])(f) <==> Matches(front)(f) || Under(last)(f)
  {
    if p :| p in front && p <= f.path {
      assert p in front + [last];
    }
    if last <= f.path {
      assert last in front + [last];
    }
  }

  lemma NoOverlapFront(files: seq<File>, front: seq<string>, last: string)
    requires NoOverlap(files, front + [last])
    ensures NoOverlap(files, front)
    ensures forall f :: f in files ==>
              && (Matches(front + [last])(f) <==> Matches(front)(f) || Under(last)(f))
              && !(Matches(front)(f) && Under(last)(f))
  {
    var paths := front + [last];
    assert forall i :: 0 <= i < |front| ==> front[i] == paths[i];
    forall f | f in files
      ensures (Matches(paths)(f) <==> Matches(front)(f) || Under(last)(f)) && !(Matches(front)(f) && Under(last)(f))
    {
      MatchesLast(front, last, f);
      if Matches(front)(f) {
        var i :| 0 <= i < |front| && front[i] <= f.path;
        assert paths[i] <= f.path && paths[|front|] == last;
      }
    }
  }

  lemma CheckedExactly(files: seq<File>, paths: seq<string>)
    requires (paths == [] || Chosen(files, paths).Some?) && NoOverlap(files, paths)
    ensures TotalSize(AcceptedFiles(files, paths)) == CheckedSize(files, paths)
  {
    if paths == [] {
      CheckedCovers(files, paths);
    } else {
      ChosenExactly(files, paths);
      SameFilter(files, (f: File) => IsAccepted(f, paths), Matches(paths));
    }
  }

  lemma CheckedCovers(files: seq<File>, paths: seq<string>)
    requires paths == [] || Chosen(files, paths).Some?
    ensures TotalSize(AcceptedFiles(files, paths)) <= CheckedSize(files, paths)
    ensures paths == [] ==> TotalSize(AcceptedFiles(files, paths)) == CheckedSize(files, paths)
  {
    if paths == [] {
      Sorting.FilterAll(files, (f: File) => IsAccepted(f, paths));
    } else {
      ChosenCovers(files, paths);
      SameFilter(files, (f: File) => IsAccepted(f, paths), Matches(paths));
    }
  }

  lemma {:induction false} SameFilter(files: seq<File>, p: File -> bool, q: File -> bool)
    requires forall f :: p(f) == q(f)
    ensures Sorting.Filter(files, p) == Sorting.Filter(files, q)
  {
    if files != [] {
      SameFilter(files[1..], p, q);
    }
  }

  /** Once a transfer is accepted, the files that the rpc then accepts fit into the free space that was
      checked, even when path prefixes overlap, provided the sizes added up stay below 2^64. */
  lemma AcceptedFits(live: map<string, TransferState>, id: string, paths: seq<string>, directory: Directory,
                     storage: Option<Storage>, free: Option<Uint64>)
    requires var r := AcceptTransfer(live, id, paths, directory, storage, free);
             r.Accepted? && CheckedSize(r.transfer.files, paths) < TWO_64
    ensures free.Some?
    ensures var files := AcceptTransfer(live, id, paths, directory, storage, free).transfer.files;
            TotalSize(AcceptedFiles(files, paths)) <= free.value
  {
    CheckedCovers(AcceptTransfer(live, id, paths, directory, storage, free).transfer.files, paths);
  }

  /** The proviso is exact for every request in which no file lies under two paths, such as one without paths. */
  lemma AcceptedFitsIff(live: map<string, TransferState>, id: string, paths: seq<string>, directory: Directory,
                        storage: Option<Storage>, free: Option<Uint64>)
    requires var r := AcceptTransfer(live, id, paths, directory, storage, free);
             r.Accepted? && NoOverlap(r.transfer.files, paths)
    ensures free.Some?
    ensures var files := AcceptTransfer(live, id, paths, directory, storage, free).transfer.files;
            TotalSize(AcceptedFiles(files, paths)) <= free.value <==> CheckedSize(files, paths) < TWO_64
  {
    CheckedExactly(AcceptTransfer(live, id, paths, directory, storage, free).transfer.files, paths);
  }

  /** Two files of 2^63 bytes are accepted into no space at all: their sum wraps to zero. */
  lemma SizeCheckWraps()
    ensures var half := File("f", "f", "f", 0x8000_0000_0000_0000, 0, REQUESTED);
            var t := Transfer("t", Incoming, REQUESTED, 0, 0, [half, half.(id := "g")]);
            AcceptTransfer(map[], "t", [], Writable, Some(map["t" := t]), Some(0)) == Accepted(t)
  {
    var half := File("f", "f", "f", 0x8000_0000_0000_0000, 0, REQUESTED);
    var files := [half, half.(id := "g")];
    assert files[..1] == [half] && [half][..0] == [];
    assert TotalSize([half]) == half.size;
    assert TotalSize(files) == TWO_64;
  }

  // ----- the Accept rpc -----

  /** The library's answer to the calls of one request. */
  type Outcome = Call -> bool

  /** The loop of the Accept rpc: one call per file of the transfer, in order; the request has started
      once any Accept succeeded. */
  method AcceptFiles(t: Transfer, dir: string, paths: seq<string>, succeeds: Outcome)
    returns (calls: seq<Call>, started: bool)
    ensures |calls| == |t.files|
    ensures forall i :: 0 <= i < |calls| ==>
              var f := t.files[i];
              calls[i] == if paths == [] || exists p :: p in paths && p <= f.path then Accept(t.id, dir, f.id)
                          else CancelFile(t.id, f.id)
    ensures started <==> exists i :: 0 <= i < |calls| && calls[i].Accept? && succeeds(calls[i])
  {
    calls, started := [], false;
    for i := 0 to |t.files|
      invariant |calls| == i && forall j :: 0 <= j < i ==>
          var f := t.files[j];
          calls[j] == if paths == [] || exists p :: p in paths && p <= f.path then Accept(t.id, dir, f.id)
                      else CancelFile(t.id, f.id)
      invariant started <==> exists j :: 0 <= j < i && calls[j].Accept? && succeeds(calls[j])
    {
      var f := t.files[i];
      var call := if IsAccepted(f, paths) then Accept(t.id, dir, f.id) else CancelFile(t.id, f.id);
      if call.Accept? && succeeds(call) {
        started := true;
      }
      calls := calls + [call];
    }
  }
}
