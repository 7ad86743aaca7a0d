/** What subscribers are told and the library is asked for, event by event, in terms of the events alone. */
module TransferAnswers {
  import opened Options
  import opened Totals
  import opened Transfers
  import opened TransferInvariants
  import opened TransferRuns
  import Acceptance
  import Sorting

  /** The transfer that an event is about: the live one, or the one that is loaded from its record. */
  ghost predicate Found(s: State, id: string, storage: Option<Storage>, t: TransferState) {
    if id in s.live then t == s.live[id]
    else storage.Some? && id in storage.value && storage.value[id].id == id && t == FromRecord(storage.value[id])
  }

  /** Channel i is the one that the subscriber of the transfer reads. */
  ghost predicate Watched(s: State, id: string, i: nat) {
    Inv(s) && i < |s.channels| && Current(s, i) && s.channels[i].subject == id
  }

  lemma FoundIs(s: State, id: string, storage: Option<Storage>, t: TransferState)
    requires Keyed(s) && Found(s, id, storage, t)
    ensures t.id == id && FilesKeyed(t) && Lookup(s, id, storage) == Some((s.(live := s.live[id := t]), t))
  {
    if id in s.live {
      assert s.live == s.live[id := t];
    }
  }

  // ----- a transfer that is loaded -----

  /** Canceled, failed and paused files are not tracked. */
  predicate Counts(status: Status) {
    status == 0 || status == 100 || status == 101 || status == 107
  }

  /** Of a record with distinct files exactly the ones that are done or still to do are tracked, with their sizes and
      amounts, and those with status 0 are finished. */
  lemma {:induction false} TrackedAt(files: seq<File>, i: nat)
    requires DistinctIds(files) && i < |files|
    ensures files[i].id in TrackAll(files) <==> Counts(files[i].status)
    ensures Counts(files[i].status) ==>
              var f := files[i];
              TrackAll(files)[f.id] == FileState(f.id, f.fullPath, f.size, f.transferred, f.status == 0)
  {
    var n := |files| - 1;
    if i < n {
      assert files[i].id != files[n].id && files[..n][i] == files[i];
      TrackedAt(files[..n], i);
    } else {
      NotTracked(files[..n], files[n].id);
    }
  }

  lemma NotTracked(files: seq<File>, k: string)
    requires forall i :: 0 <= i < |files| ==> files[i].id != k
    ensures k !in TrackAll(files)
  {
  }

  /** The live transfer starts with the record's own totals and direction. */
  lemma LoadedIs(record: Transfer)
    ensures var t := FromRecord(record);
            && t.id == record.id && t.direction == record.direction
            && t.totalSize == record.totalSize && t.totalTransferred == record.totalTransferred
            && t.files == TrackAll(record.files)
  {
  }

  // ----- the end of a transfer -----

  ghost predicate SomeUnfinished(t: TransferState) {
    exists k :: k in t.files && !t.files[k].finished
  }

  /** In a record these are the files that were requested, are pending or ongoing. */
  lemma {:induction false} RecordUnfinishedIff(files: seq<File>)
    requires DistinctIds(files)
    ensures (exists k :: k in TrackAll(files) && !TrackAll(files)[k].finished) <==>
            exists f :: f in files && (f.status == REQUESTED || f.status == ONGOING || f.status == PENDING)
  {
    if files != [] {
      var front, f := files[..|files| - 1], files[|files| - 1];
      assert DistinctIds(front);
      RecordUnfinishedIff(front);
      assert forall g :: g in files <==> g in front || g == f;
      var m := TrackAll(front);
      assert f.id !in m by {
        assert forall i :: 0 <= i < |front| ==> front[i] == files[i] && files[i].id != f.id;
      }
      if k :| k in m && !m[k].finished {
        assert k in TrackAll(files) && TrackAll(files)[k] == m[k];
      }
      if !IsFileCompleted(f.status) {
        assert f.id in TrackAll(files) && !TrackAll(files)[f.id].finished;
      }
    }
  }

  /** The step sends the status as the last message on channel i, closes it and forgets the transfer. */
  ghost predicate EndsWith(s: State, s1: State, id: string, i: nat, status: Status)
    requires i < |s.channels|
  {
    && s1.channels == s.channels[i := Channel(id, s.channels[i].ops + [Send(ProgressInfo(id, 0, status)), Close])]
    && s1.subscriptions == s.subscriptions - {id} && s1.live == s.live - {id} && s1.calls == s.calls
  }

  /** A transfer that is finalized with files unfinished was canceled, by the peer or not; with all files finished it
      ended as the reloaded record says, and if there is none nobody is told. */
  lemma FinalizedAnswer(s: State, id: string, byPeer: bool, storage: Option<Storage>, reload: Option<Storage>, i: nat,
                        t: TransferState)
    requires Watched(s, id, i) && Found(s, id, storage, t)
    ensures var s1 := Next(s, Handle(TransferFinalized(id, byPeer), storage, reload));
            if SomeUnfinished(t) then EndsWith(s, s1, id, i, if byPeer then CANCELED_BY_PEER else CANCELED)
            else if reload.Some? && id in reload.value then EndsWith(s, s1, id, i, reload.value[id].status)
            else s1 == s.(live := s.live[id := t])
  {
    FoundIs(s, id, storage, t);
    assert AllFinished(t) <==> !SomeUnfinished(t);
    assert s.live[id := t] - {id} == s.live - {id};
  }

  /** A transfer that failed ended with the code of the failure. */
  lemma FailedAnswer(s: State, id: string, code: Status, storage: Option<Storage>, reload: Option<Storage>, i: nat,
                     t: TransferState)
    requires Watched(s, id, i) && Found(s, id, storage, t)
    ensures EndsWith(s, Next(s, Handle(TransferFailed(id, code), storage, reload)), id, i, code)
  {
    FoundIs(s, id, storage, t);
    assert s.live[id := t] - {id} == s.live - {id};
  }

  // ----- progress -----

  /** The number is the whole part of the percentage. */
  predicate IsPercentage(p: int, part: int, whole: int) {
    if whole > 0 then p * whole <= 100 * part < (p + 1) * whole else p == 0
  }

  lemma PercentIs(t: TransferState)
    ensures IsPercentage(Percent(t), t.totalTransferred, t.totalSize)
  {
    if t.totalSize > 0 {
      var q := 100 * t.totalTransferred / t.totalSize;
      Quotient(100 * t.totalTransferred, t.totalSize, q);
      assert (q + 1) * t.totalSize == t.totalSize * q + t.totalSize;
    }
  }

  /** The amount of a tracked file is recorded and the total moved by the difference, modulo 2^64. */
  ghost predicate Moved(t: TransferState, t1: TransferState, fileId: string, transferred: Uint64)
    requires fileId in t.files
  {
    && t1.files == t.files[fileId := t.files[fileId].(transferred := transferred)]
    && t1.totalSize == t.totalSize
    && (t1.totalTransferred - t.totalTransferred - (transferred - t.files[fileId].transferred)) % TWO_64 == 0
  }

  lemma ProgressMoves(t: TransferState, fileId: string, transferred: Uint64)
    requires fileId in t.files
    ensures Moved(t, Progressed(t, fileId, transferred), fileId, transferred)
  {
    DeltaIs(t.totalTransferred, transferred - t.files[fileId].transferred);
  }

  /** The step adds one operation to channel i. */
  ghost predicate Appends(s: State, s1: State, i: nat, op: ChannelOp)
    requires i < |s.channels|
  {
    s1.channels == s.channels[i := Channel(s.channels[i].subject, s.channels[i].ops + [op])]
  }

  /** Progress of a tracked file is recorded, and the subscriber gets one message with the percentage of the new
      totals. */
  lemma ProgressAnswer(s: State, id: string, fileId: string, transferred: Uint64, storage: Option<Storage>,
                       reload: Option<Storage>, i: nat, t: TransferState)
    requires Watched(s, id, i) && Found(s, id, storage, t) && fileId in t.files
    ensures var s1 := Next(s, Handle(FileProgress(id, fileId, transferred), storage, reload));
            && s1 == s.(live := s.live[id := s1.live[id]], channels := s1.channels)
            && Moved(t, s1.live[id], fileId, transferred)
            && exists p :: IsPercentage(p, s1.live[id].totalTransferred, s1.live[id].totalSize) &&
                 Appends(s, s1, i, Send(ProgressInfo(id, p, ONGOING)))
  {
    var t1 := Progressed(t, fileId, transferred);
    PercentIs(t1);
    ProgressMoves(t, fileId, transferred);
    ProgressPosts(s, id, fileId, transferred, storage, t);
    var s1 := OnProgress(s, id, fileId, transferred, storage);
    assert s1.live[id] == t1;
    assert Appends(s, s1, i, Send(ProgressInfo(id, Percent(t1), ONGOING)));
  }

  lemma ProgressPosts(s: State, id: string, fileId: string, transferred: Uint64, storage: Option<Storage>,
                      t: TransferState)
    requires Keyed(s) && Found(s, id, storage, t) && fileId in t.files
    ensures var t1 := Progressed(t, fileId, transferred);
            OnProgress(s, id, fileId, transferred, storage) ==
              Post(s.(live := s.live[id := t1]), id, [Send(ProgressInfo(id, Percent(t1), ONGOING))])
  {
    FoundIs(s, id, storage, t);
    var t1 := Progressed(t, fileId, transferred);
    assert s.live[id := t][id := t1] == s.live[id := t1];
  }

  lemma DeltaIs(total: int, delta: int)
    ensures (Wrap(total + Wrap(delta)) - total - delta) % TWO_64 == 0
  {
    WrapInside(total, delta);
    var q := (total + delta) / TWO_64;
    assert Wrap(total + delta) == total + delta - q * TWO_64;
  }

  // ----- the end of a file -----

  /** The file goes, and its bytes go from the totals, modulo 2^64. */
  ghost predicate Gone(t: TransferState, t1: TransferState, fileId: string)
    requires fileId in t.files
  {
    && t1.files == t.files - {fileId}
    && (t1.totalSize - (t.totalSize - t.files[fileId].size)) % TWO_64 == 0
    && (t1.totalTransferred - (t.totalTransferred - t.files[fileId].transferred)) % TWO_64 == 0
  }

  lemma RemovalGone(t: TransferState, fileId: string)
    requires fileId in t.files && FilesKeyed(t)
    ensures Gone(t, Ended(t, fileId, true), fileId)
  {
    var f := t.files[fileId];
    RestIs(t.totalSize - f.size);
    RestIs(t.totalTransferred - f.transferred);
  }

  lemma FileEndStores(s: State, id: string, fileId: string, remove: bool, storage: Option<Storage>, t: TransferState)
    requires Keyed(s) && Found(s, id, storage, t) && fileId in t.files
    ensures var s1 := OnFileEnd(s, id, fileId, remove, storage);
            s1 == s.(live := s.live[id := Ended(t, fileId, remove)], calls := s1.calls)
  {
    FoundIs(s, id, storage, t);
    var t1 := Ended(t, fileId, remove);
    assert s.live[id := t][id := t1] == s.live[id := t1];
  }

  /** A file that was downloaded or uploaded stays and is finished; one that was rejected or failed goes. */
  lemma FileEndAnswer(s: State, step: Step, id: string, fileId: string, t: TransferState)
    requires Keyed(s) && EndOf(step, id) == {fileId} && Found(s, id, step.storage, t) && fileId in t.files
    ensures var s1 := Next(s, step);
            && s1 == s.(live := s.live[id := s1.live[id]], calls := s1.calls)
            && if step.ev.FileDownloaded? || step.ev.FileUploaded? then
                 s1.live[id] == t.(files := t.files[fileId := t.files[fileId].(finished := true)])
               else Gone(t, s1.live[id], fileId)
  {
    assert step.ev.fileId == fileId by {
      assert step.ev.fileId in EndOf(step, id);
    }
    FoundIs(s, id, step.storage, t);
    var remove := step.ev.FileRejected? || step.ev.FileFailed?;
    FileEndStores(s, id, fileId, remove, step.storage, t);
    RemovalGone(t, fileId);
    assert Next(s, step) == OnFileEnd(s, id, fileId, remove, step.storage);
  }

  lemma RestIs(n: int)
    ensures (Wrap(n) - n) % TWO_64 == 0
  {
    var q := n / TWO_64;
    assert Wrap(n) == n - q * TWO_64;
  }

  // ----- incoming requests -----

  /** The peer may send files and wants no question asked, there is a place to put them, and the record is an incoming
      request whose sizes, added up modulo 2^64, fit. */
  ghost predicate AutoAccepts(id: string, around: Surroundings, storage: Option<Storage>) {
    && around.peer.Some? && around.peer.value.doIAllowFileshare && around.peer.value.alwaysAcceptFiles
    && around.downloadDir != "" && around.directory == Writable
    && storage.Some? && id in storage.value
    && storage.value[id].direction == Incoming && storage.value[id].status == REQUESTED
    && around.free.Some? && Wrap(TotalSize(storage.value[id].files)) <= around.free.value
  }

  /** A request of a peer that may not send files is finalized; one that is accepted automatically gets one Accept for
      each file of the record, in order, into the download directory; any other makes no call. */
  lemma RequestAnswer(s: State, id: string, around: Surroundings, storage: Option<Storage>, reload: Option<Storage>)
    ensures var s1 := Next(s, Handle(RequestReceived(id, around), storage, reload));
            && s1 == s.(calls := s1.calls) && s.calls <= s1.calls
            && var made := s1.calls[|s.calls|..];
               if around.peer.Some? && !around.peer.value.doIAllowFileshare then made == [Finalize(id)]
               else if AutoAccepts(id, around, storage) then
                 && |made| == |storage.value[id].files|
                 && forall n :: 0 <= n < |made| ==>
                      made[n] == Accept(id, around.downloadDir, storage.value[id].files[n].id)
               else made == []
  {
    RequestOnlyCalls(s, id, around, storage);
    if storage.Some? && id in storage.value {
      LiveDataKeeps(storage.value[id], s.live);
    }
  }

  /** Live data replaces the total transferred and the amounts of tracked files, and nothing else. */
  lemma LiveDataKeeps(record: Transfer, live: map<string, TransferState>)
    ensures var u := WithLiveData(record, live);
            && u == record.(totalTransferred := u.totalTransferred, files := u.files)
            && u.totalTransferred ==
               (if record.id in live then live[record.id].totalTransferred else record.totalTransferred)
            && |u.files| == |record.files|
            && TotalSize(u.files) == TotalSize(record.files)
            && forall n :: 0 <= n < |u.files| ==>
                 var f := record.files[n];
                 u.files[n] == if record.id in live && f.id in live[record.id].files
                               then f.(transferred := live[record.id].files[f.id].transferred) else f
  {
    var u := WithLiveData(record, live);
    assert forall n :: 0 <= n < |u.files| ==> u.files[n].size == record.files[n].size;
    SameSizes(u.files, record.files);
  }

  lemma {:induction false} SameSizes(a: seq<File>, b: seq<File>)
    requires |a| == |b| && forall n :: 0 <= n < |a| ==> a[n].size == b[n].size
    ensures TotalSize(a) == TotalSize(b)
  {
    if a != [] {
      SameSizes(a[..|a| - 1], b[..|b| - 1]);
    }
  }

  /** A request to accept is granted iff the directory is fit, the record is an incoming request, every path has a file
      under it, and the sizes of the files under the paths, or of all, fit, added up modulo 2^64. */
  lemma AcceptedIff(live: map<string, TransferState>, id: string, paths: seq<string>, directory: Directory,
                    storage: Option<Storage>, free: Option<Uint64>)
    ensures AcceptTransfer(live, id, paths, directory, storage, free).Accepted? <==>
            && directory == Writable && storage.Some? && id in storage.value
            && storage.value[id].direction == Incoming && storage.value[id].status == REQUESTED
            && var files := WithLiveData(storage.value[id], live).files;
               && (forall p :: p in paths ==> Matched(files, p))
               && free.Some?
               && Wrap(if paths == [] then TotalSize(files) else SizesUnder(files, paths)) <= free.value
    ensures var r := AcceptTransfer(live, id, paths, directory, storage, free);
            r.Accepted? ==> r.transfer == WithLiveData(storage.value[id], live)
  {
    if storage.Some? && id in storage.value {
      ChosenIff(WithLiveData(storage.value[id], live).files, paths);
    }
  }

  /** The record that a request to accept is about, with its status. */
  ghost predicate IsFound(id: string, directory: Directory, storage: Option<Storage>) {
    directory == Writable && storage.Some? && id in storage.value
  }

  /** Why a request to accept is refused before its files are looked at. */
  lemma RefusedIff(live: map<string, TransferState>, id: string, paths: seq<string>, directory: Directory,
                   storage: Option<Storage>, free: Option<Uint64>)
    ensures var r := AcceptTransfer(live, id, paths, directory, storage, free);
            && (r == Refused(DirNotFound) <==> directory == Missing)
            && (r == Refused(DirIsASymlink) <==> directory == Symlink)
            && (r == Refused(DirIsNotADirectory) <==> directory == NotADirectory)
            && (r == Refused(NoPermissions) <==> directory == NotWritable)
            && (r == Refused(LoadFailed) <==> directory == Writable && storage.None?)
            && (r == Refused(TransferNotFound) <==> directory == Writable && storage.Some? && id !in storage.value)
  {
  }

  /** Why it is refused for the state of its transfer: it is not incoming, was canceled by the peer or here, or is no
      longer a request. */
  lemma RefusedByStatusIff(live: map<string, TransferState>, id: string, paths: seq<string>, directory: Directory,
                           storage: Option<Storage>, free: Option<Uint64>)
    requires IsFound(id, directory, storage)
    ensures var r, t := AcceptTransfer(live, id, paths, directory, storage, free), storage.value[id];
            && (r == Refused(AcceptOutgoing) <==> t.direction != Incoming)
            && (r == Refused(CanceledByPeer) <==> t.direction == Incoming && t.status == 104)
            && (r == Refused(CanceledByUs) <==> t.direction == Incoming && t.status == 1)
            && (r == Refused(AlreadyAccepted) <==> t.direction == Incoming && t.status !in {1, 100, 104})
  {
  }

  /** Why an incoming request is refused for its files: a path names none, or their sizes do not fit. */
  lemma RefusedByFilesIff(live: map<string, TransferState>, id: string, paths: seq<string>, directory: Directory,
                          storage: Option<Storage>, free: Option<Uint64>)
    requires IsFound(id, directory, storage) && storage.value[id].direction == Incoming
    requires storage.value[id].status == REQUESTED
    ensures var r, files := AcceptTransfer(live, id, paths, directory, storage, free),
                            WithLiveData(storage.value[id], live).files;
            && (r == Refused(FileNotFound) <==> exists p :: p in paths && !Matched(files, p))
            && (r.Accepted? || r == Refused(FileNotFound) || r == Refused(SizeLimitExceeded))
  {
    ChosenIff(WithLiveData(storage.value[id], live).files, paths);
  }

  /** The sizes of the files under each path, added up path by path. */
  function SizesUnder(files: seq<File>, paths: seq<string>): nat {
    if paths == [] then 0
    else SizesUnder(files, paths[..|paths| - 1]) + TotalSize(Sorting.Filter(files, Under(paths[|paths| - 1])))
  }

  ghost predicate Matched(files: seq<File>, prefix: string) {
    exists f :: f in files && prefix <= f.path
  }

  lemma {:induction false} ChosenIff(files: seq<File>, paths: seq<string>)
    ensures Chosen(files, paths).Some? <==> forall p :: p in paths ==> Matched(files, p)
    ensures Chosen(files, paths).Some? ==> TotalSize(Chosen(files, paths).value) == SizesUnder(files, paths)
  {
    if paths != [] {
      var front, last := paths[..|paths| - 1], paths[|paths| - 1];
      ChosenIff(files, front);
      assert last in paths && forall p :: p in paths <==> p in front || p == last;
      MatchedIff(files, last);
      if Chosen(files, paths).Some? {
        Acceptance.TotalSizeConcat(Chosen(files, front).value, FilesByPrefix(files, last));
      }
    }
  }

  lemma MatchedIff(files: seq<File>, prefix: string)
    ensures FilesByPrefix(files, prefix) != [] <==> Matched(files, prefix)
  {
    var found := FilesByPrefix(files, prefix);
    if found != [] {
      assert found[0] in found;
    }
    if f :| f in files && prefix <= f.path {
      assert f in found;
    }
  }
}
