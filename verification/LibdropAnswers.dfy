/** What the records say about transfers, read off libdrop's own reports. */
module LibdropAnswers {
  import opened Options
  import opened Totals
  import opened Transfers
  import opened LibdropStorage

  // ----- files -----

  /** The last report decides the status of a file. */
  lemma FileStatusIs(front: seq<PathState>, last: PathState)
    ensures StatusOf([]) == 100
    ensures var status := StatusOf(front + [last]);
            && (last.Waiting? ==> status == 107)
            && (last.Started? ==> status == 101)
            && (last.Interrupted? ==> status == last.status)
            && (last.Completed? ==> status == 0)
            && (last.Rejected? ==> status == 1)
            && (last.Halted? ==> status == 106)
            && (last.Unfamiliar? ==> status == 5)
  {
  }

  /** The report tells how much was transferred. */
  predicate Tells(st: PathState) {
    !st.Waiting? && !st.Unfamiliar?
  }

  /** The amount is that of the last report that tells one, all of it if the file was completed. */
  lemma {:induction false} AmountIs(states: seq<PathState>, size: Uint64, i: nat)
    requires i < |states| && Tells(states[i]) && forall j :: i < j < |states| ==> !Tells(states[j])
    ensures LastBytes(states, size) == if states[i].Completed? then size else states[i].bytes
  {
    var n := |states| - 1;
    if i < n {
      assert !Tells(states[n]);
      AmountIs(states[..n], size, i);
    }
  }

  lemma {:induction false} NoAmount(states: seq<PathState>, size: Uint64)
    requires forall j :: 0 <= j < |states| ==> !Tells(states[j])
    ensures LastBytes(states, size) == 0
  {
    if states != [] {
      assert !Tells(states[|states| - 1]);
      NoAmount(states[..|states| - 1], size);
    }
  }

  /** A file of the record has the ids, paths and size that were reported; a transfer of unknown direction has none. */
  lemma FileReported(info: TransferInfo, i: nat)
    requires i < |info.paths|
    ensures info.direction == UnknownDirection ==> Converted(info).files == []
    ensures info.direction != UnknownDirection ==>
              var p, files := info.paths[i], Converted(info).files;
              && |files| == |info.paths|
              && files[i].id == p.fileId && files[i].path == p.relativePath && files[i].fullPath == p.fullPath
              && files[i].size == p.bytes && files[i].transferred == LastBytes(p.states, p.bytes)
  {
  }

  // ----- transfers -----

  /** Requested, ongoing and pending files are not finished. */
  predicate Unfinished(status: Status) {
    status == 100 || status == 101 || status == 107
  }

  /** What the files say about their transfer: 1 if all were canceled, 102 or 0 if all are finished, with or without
      errors, 101 if some are not and something was done, 100 if all wait to be accepted. */
  lemma StatusByFilesIff(files: seq<File>)
    ensures var status := StatusByFiles(files);
            && (status == 1 <==> forall f :: f in files ==> f.status == 1)
            && (status == 0 <==>
                (exists f :: f in files && f.status == 0) && forall f :: f in files ==> f.status == 0 || f.status == 1)
            && (status == 102 <==>
                && (forall f :: f in files ==> !Unfinished(f.status))
                && exists f :: f in files && f.status != 0 && f.status != 1)
            && (status == 101 <==>
                && (exists f :: f in files && Unfinished(f.status))
                && exists f :: f in files && f.status != 100)
            && (status == 100 <==> files != [] && forall f :: f in files ==> f.status == 100)
  {
    assert forall f: File :: IsFileCompleted(f.status) <==> !Unfinished(f.status);
    if files != [] {
      assert files[0] in files;
    }
  }

  /** A cancellation counts as one iff some file is unfinished or all files were canceled. */
  lemma CutShortIff(info: TransferInfo, files: seq<File>)
    ensures CutShort(info, files) <==>
            && info.states != [] && info.states[|info.states| - 1].Cancel?
            && ((exists f :: f in files && Unfinished(f.status)) || forall f :: f in files ==> f.status == 1)
  {
    StatusByFilesIff(files);
    assert forall f: File :: IsFileCompleted(f.status) <==> !Unfinished(f.status);
  }

  /** The status of the record: that of a failure; canceled, by the peer or here, if the cancellation counts, and then
      its unfinished files are canceled too; success for any other end; else what the files say. */
  lemma RecordStatusIs(info: TransferInfo)
    ensures var t, files := Converted(info), FilesOf(info);
            var last := if info.states == [] then None else Some(info.states[|info.states| - 1]);
            var cut := last.Some? && last.value.Cancel? &&
                       ((exists f :: f in files && Unfinished(f.status)) || forall f :: f in files ==> f.status == 1);
            && t.status == (if last.None? || (last.value.Cancel? && !cut) then StatusByFiles(files)
                            else if last.value.Failure? then last.value.status
                            else if last.value.Other? then 0
                            else if last.value.byPeer then 104 else 1)
            && |t.files| == |files|
            && forall i :: 0 <= i < |files| ==>
                 t.files[i] == if cut && Unfinished(files[i].status) then files[i].(status := 1) else files[i]
  {
    var files := FilesOf(info);
    CutShortIff(info, files);
    assert forall f: File :: IsFileCompleted(f.status) <==> !Unfinished(f.status);
  }
}
