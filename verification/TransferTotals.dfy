/** The running totals of live transfers against the sums over their files. */
module TransferTotals {
  import opened Totals
  import opened Transfers
  import opened TransferInvariants

  ghost function Sizes(files: map<string, FileState>): map<string, nat> {
    map k | k in files :: files[k].size
  }

  ghost function Transferreds(files: map<string, FileState>): map<string, nat> {
    map k | k in files :: files[k].transferred
  }

  /** The running totals are the sums over the tracked files, modulo 2^64. */
  ghost predicate GoodTotals(t: TransferState) {
    t.totalSize == Wrap(Sum(Sizes(t.files))) && t.totalTransferred == Wrap(Sum(Transferreds(t.files)))
  }

  datatype Gap = Gap(size: Uint64, transferred: Uint64)

  /** How far the totals are off, modulo 2^64. */
  ghost function GapOf(t: TransferState): Gap {
    Gap(Wrap(t.totalSize - Sum(Sizes(t.files))), Wrap(t.totalTransferred - Sum(Transferreds(t.files))))
  }

  const NO_GAP := Gap(0, 0)

  lemma NoGapIff(t: TransferState)
    ensures GapOf(t) == NO_GAP <==> GoodTotals(t)
  {
    WrapZero(t.totalSize, Sum(Sizes(t.files)));
    WrapZero(t.totalTransferred, Sum(Transferreds(t.files)));
  }

  // ----- what events do to the gap: nothing -----

  /** Totals and sums that shrink by the same amounts are as far apart as before. */
  lemma SameGap(t: TransferState, t': TransferState, size: int, transferred: int)
    requires t'.totalSize == Wrap(t.totalSize - size) && t'.totalTransferred == Wrap(t.totalTransferred - transferred)
    requires Sum(Sizes(t'.files)) == Sum(Sizes(t.files)) - size
    requires Sum(Transferreds(t'.files)) == Sum(Transferreds(t.files)) - transferred
    ensures GapOf(t') == GapOf(t)
  {
    GapShrinks(t.totalSize, Sum(Sizes(t.files)), size);
    GapShrinks(t.totalTransferred, Sum(Transferreds(t.files)), transferred);
  }

  lemma ProgressedSums(t: TransferState, fileId: string, transferred: Uint64)
    requires fileId in t.files
    ensures var files := Progressed(t, fileId, transferred).files;
            && Sum(Sizes(files)) == Sum(Sizes(t.files))
            && Sum(Transferreds(files)) == Sum(Transferreds(t.files)) - t.files[fileId].transferred + transferred
  {
    var files := Progressed(t, fileId, transferred).files;
    assert Sizes(files) == Sizes(t.files);
    assert Transferreds(files) == Transferreds(t.files)[fileId := transferred];
    SumUpdate(Transferreds(t.files), fileId, transferred);
  }

  lemma ProgressedGap(t: TransferState, fileId: string, transferred: Uint64)
    requires fileId in t.files
    ensures GapOf(Progressed(t, fileId, transferred)) == GapOf(t)
  {
    var part := t.files[fileId].transferred - transferred;
    ProgressedSums(t, fileId, transferred);
    WrapInside(t.totalTransferred, -part);
    SameGap(t, Progressed(t, fileId, transferred), 0, part);
  }

  lemma FinishedGap(t: TransferState, fileId: string)
    requires fileId in t.files
    ensures GapOf(Finished(t, fileId)) == GapOf(t)
  {
    var files := Finished(t, fileId).files;
    assert Sizes(files) == Sizes(t.files) && Transferreds(files) == Transferreds(t.files);
  }

  lemma RemovedSums(t: TransferState, fileId: string)
    requires FilesKeyed(t) && fileId in t.files
    ensures var files := Removed(t, fileId).files;
            && Sum(Sizes(files)) == Sum(Sizes(t.files)) - t.files[fileId].size
            && Sum(Transferreds(files)) == Sum(Transferreds(t.files)) - t.files[fileId].transferred
  {
    var files := Removed(t, fileId).files;
    assert Sizes(files) == Sizes(t.files) - {fileId};
    assert Transferreds(files) == Transferreds(t.files) - {fileId};
    SumRemove(Sizes(t.files), fileId);
    SumRemove(Transferreds(t.files), fileId);
  }

  lemma RemovedGap(t: TransferState, fileId: string)
    requires FilesKeyed(t) && fileId in t.files
    ensures GapOf(Removed(t, fileId)) == GapOf(t)
  {
    RemovedSums(t, fileId);
    SameGap(t, Removed(t, fileId), t.files[fileId].size, t.files[fileId].transferred);
  }

  lemma EndedGap(t: TransferState, fileId: string, remove: bool)
    requires FilesKeyed(t) && fileId in t.files
    ensures GapOf(Ended(t, fileId, remove)) == GapOf(t)
  {
    FinishedGap(t, fileId);
    if remove {
      RemovedGap(Finished(t, fileId), fileId);
    }
  }

  // ----- records -----

  lemma SumTrack(m: map<string, FileState>, f: File)
    requires f.id !in m
    ensures Sum(Sizes(m[f.id := Track(f)])) == Sum(Sizes(m)) + f.size
    ensures Sum(Transferreds(m[f.id := Track(f)])) == Sum(Transferreds(m)) + f.transferred
  {
    assert Sizes(m[f.id := Track(f)]) == Sizes(m)[f.id := f.size];
    assert Transferreds(m[f.id := Track(f)]) == Transferreds(m)[f.id := f.transferred];
    SumUpdate(Sizes(m), f.id, f.size);
    SumUpdate(Transferreds(m), f.id, f.transferred);
  }

  lemma LastIsNew(files: seq<File>)
    requires files != [] && DistinctIds(files)
    ensures DistinctIds(files[..|files| - 1]) && files[|files| - 1].id !in TrackAll(files[..|files| - 1])
  {
    var front, f := files[..|files| - 1], files[|files| - 1];
    assert forall i :: 0 <= i < |front| ==> front[i] == files[i] && files[i].id != f.id;
  }

  lemma {:induction false} TrackAllSums(files: seq<File>)
    requires DistinctIds(files)
    ensures Sum(Sizes(TrackAll(files))) == CountedSize(files)
    ensures Sum(Transferreds(TrackAll(files))) == CountedTransferred(files)
  {
    if files != [] {
      var front, f := files[..|files| - 1], files[|files| - 1];
      LastIsNew(files);
      TrackAllSums(front);
      if IsFileTransferred(f.status) {
        SumTrack(TrackAll(front), f);
      }
    }
  }

  /** A transfer starts with good totals iff its record obeys the rule for totals. */
  lemma RecordTotalsIff(id: string, t: Transfer)
    requires t.id == id && DistinctIds(t.files)
    ensures GoodTotals(FromRecord(t)) <==> GoodRecord(id, t)
  {
    TrackAllSums(t.files);
  }
}
