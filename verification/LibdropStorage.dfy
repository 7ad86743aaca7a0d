/** fileshare/libdrop/libdrop.go: how the records that the event manager loads are made, and when their
    totals obey the rule that it relies on. */
module LibdropStorage {
  import opened Options
  import opened Totals
  import opened Transfers
  import TransferRuns
  import TransferTotals

  const BAD_STATUS: Status := 5
  const PAUSED: Status := 106

  /** What libdrop reports about a file; Unfamiliar stands for any other kind, such as a pending outgoing file. */
  datatype PathState =
    | Waiting
    | Started(bytes: Uint64)
    | Interrupted(status: Status, bytes: Uint64)
    | Completed
    | Rejected(bytes: Uint64)
    | Halted(bytes: Uint64)
    | Unfamiliar

  datatype Path = Path(fileId: string, relativePath: string, fullPath: string, bytes: Uint64, states: seq<PathState>)

  datatype Ending = Cancel(byPeer: bool) | Failure(status: Status) | Other

  datatype TransferInfo = TransferInfo(id: string, direction: Direction, paths: seq<Path>, states: seq<Ending>)

  // ----- files -----

  function StatusOf(states: seq<PathState>): Status {
    if states == [] then REQUESTED
    else
      match states[|states| - 1]
      case Waiting => PENDING
      case Started(_) => ONGOING
      case Interrupted(status, _) => status
      case Completed => SUCCESS
      case Rejected(_) => CANCELED
      case Halted(_) => PAUSED
      case Unfamiliar => BAD_STATUS
  }

  /** Some kinds of state do not say how much was transferred. */
  function BytesIn(st: PathState, size: Uint64): Option<Uint64> {
    match st
    case Started(bytes) => Some(bytes)
    case Interrupted(_, bytes) => Some(bytes)
    case Completed => Some(size)
    case Rejected(bytes) => Some(bytes)
    case Halted(bytes) => Some(bytes)
    case _ => None
  }

  /** The amount in the last state that tells it. */
  function LastBytes(states: seq<PathState>, size: Uint64): Uint64 {
    if states == [] then 0
    else
      var last := BytesIn(states[|states| - 1], size);
      if last.Some? then last.value else LastBytes(states[..|states| - 1], size)
  }

  method TransferredFromPath(p: Path) returns (transferred: Uint64)
    ensures transferred == LastBytes(p.states, p.bytes)
  {
    transferred := 0;
    for i := 0 to |p.states|
      invariant transferred == LastBytes(p.states[..i], p.bytes)
    {
      assert p.states[..i + 1][..i] == p.states[..i];
      match p.states[i] {
        case Started(bytes) => transferred := bytes;
        case Interrupted(_, bytes) => transferred := bytes;
        case Completed => transferred := p.bytes;
        case Rejected(bytes) => transferred := bytes;
        case Halted(bytes) => transferred := bytes;
        case _ =>
      }
    }
    assert p.states[..|p.states|] == p.states;
  }

  function FileOf(p: Path): File {
    File(p.fileId, p.relativePath, p.fullPath, p.bytes, LastBytes(p.states, p.bytes), StatusOf(p.states))
  }

  /** A transfer of unknown direction is read without its files. */
  function FilesOf(info: TransferInfo): (files: seq<File>)
    ensures info.direction == UnknownDirection ==> files == []
    ensures info.direction != UnknownDirection ==>
              |files| == |info.paths| && forall i :: 0 <= i < |files| ==> files[i] == FileOf(info.paths[i])
  {
    if info.direction == UnknownDirection then []
    else seq(|info.paths|, i requires 0 <= i < |info.paths| => FileOf(info.paths[i]))
  }

  // ----- totals -----

  method CalculateTotals(files: seq<File>) returns (size: Uint64, transferred: Uint64)
    ensures size == Wrap(CountedSize(files)) && transferred == Wrap(CountedTransferred(files))
  {
    size, transferred := 0, 0;
    for i := 0 to |files|
      invariant size == Wrap(CountedSize(files[..i])) && transferred == Wrap(CountedTransferred(files[..i]))
    {
      assert files[..i + 1][..i] == files[..i];
      if IsFileTransferred(files[i].status) {
        WrapInside(CountedSize(files[..i]), files[i].size);
        WrapInside(CountedTransferred(files[..i]), files[i].transferred);
        size, transferred := Wrap(size + files[i].size), Wrap(transferred + files[i].transferred);
      }
    }
    assert files[..|files|] == files;
  }

  // ----- the status of a transfer -----

  predicate HasErrors(status: Status) {
    IsFileCompleted(status) && status != SUCCESS && status != CANCELED
  }

  function StatusByFiles(files: seq<File>): Status {
    if forall f :: f in files ==> f.status == CANCELED then CANCELED
    else if forall f :: f in files ==> IsFileCompleted(f.status) then
      if exists f :: f in files && HasErrors(f.status) then FINISHED_WITH_ERRORS else SUCCESS
    else if exists f :: f in files && f.status != REQUESTED then ONGOING
    else REQUESTED
  }

  method GetTransferStatusByFiles(files: seq<File>) returns (status: Status)
    ensures status == StatusByFiles(files)
  {
    var allCanceled, allFinished, hasNoErrors, hasStarted := true, true, true, false;
    for i := 0 to |files|
      invariant allCanceled <==> forall f :: f in files[..i] ==> f.status == CANCELED
      invariant allFinished <==> forall f :: f in files[..i] ==> IsFileCompleted(f.status)
      invariant hasNoErrors <==> forall f :: f in files[..i] ==> !HasErrors(f.status)
      invariant hasStarted <==> exists f :: f in files[..i] && f.status != REQUESTED
    {
      assert files[..i + 1] == files[..i] + [files[i]];
      var s := files[i].status;
      if allCanceled && s != CANCELED {
        allCanceled := false;
      }
      if allFinished && !IsFileCompleted(s) {
        allFinished := false;
      }
      if hasNoErrors && s != SUCCESS && s != REQUESTED && s != CANCELED && s != ONGOING && s != PENDING {
        hasNoErrors := false;
      }
      if !hasStarted && s != REQUESTED {
        hasStarted := true;
      }
    }
    assert files[..|files|] == files;
    if allCanceled {
      return CANCELED;
    } else if allFinished && hasNoErrors {
      return SUCCESS;
    } else if allFinished && !hasNoErrors {
      return FINISHED_WITH_ERRORS;
    } else if hasStarted {
      return ONGOING;
    }
    return REQUESTED;
  }

  /** Canceled before its files were finished. */
  predicate CutShort(info: TransferInfo, files: seq<File>) {
    && info.states != [] && info.states[|info.states| - 1].Cancel?
    && StatusByFiles(files) != SUCCESS && StatusByFiles(files) != FINISHED_WITH_ERRORS
  }

  function CanceledFile(f: File): File {
    if IsFileCompleted(f.status) then f else f.(status := CANCELED)
  }

  function CanceledFiles(files: seq<File>): (r: seq<File>)
    ensures |r| == |files| && forall i :: 0 <= i < |files| ==> r[i] == CanceledFile(files[i])
  {
    seq(|files|, i requires 0 <= i < |files| => CanceledFile(files[i]))
  }

  function StatusFor(info: TransferInfo, files: seq<File>): Status {
    if info.states == [] then StatusByFiles(files)
    else
      match info.states[|info.states| - 1]
      case Cancel(byPeer) =>
        if !CutShort(info, files) then StatusByFiles(files)
        else if byPeer then CANCELED_BY_PEER
        else CANCELED
      case Failure(status) => status
      case Other => SUCCESS
  }

  /** Finds the status and marks the unfinished files of a transfer cut short, in place. */
  method DetermineTransferStatus(info: TransferInfo, files: array<File>) returns (status: Status)
    modifies files
    ensures status == StatusFor(info, old(files[..]))
    ensures files[..] == if CutShort(info, old(files[..])) then CanceledFiles(old(files[..])) else old(files[..])
  {
    if |info.states| == 0 {
      status := GetTransferStatusByFiles(files[..]);
      return;
    }
    match info.states[|info.states| - 1] {
      case Cancel(byPeer) =>
        status := GetTransferStatusByFiles(files[..]);
        if status != SUCCESS && status != FINISHED_WITH_ERRORS {
          status := if byPeer then CANCELED_BY_PEER else CANCELED;
          CancelUnfinished(files);
        }
      case Failure(code) => status := code;
      case Other => status := SUCCESS;
    }
  }

  method CancelUnfinished(files: array<File>)
    modifies files
    ensures files[..] == CanceledFiles(old(files[..]))
  {
    for i := 0 to files.Length
      invariant forall k :: 0 <= k < i ==> files[k] == CanceledFile(old(files[k]))
      invariant forall k :: i <= k < files.Length ==> files[k] == old(files[k])
    {
      if !IsFileCompleted(files[i].status) {
        files[i] := files[i].(status := CANCELED);
      }
    }
  }

  // ----- records -----

  function Converted(info: TransferInfo): Transfer {
    var files := FilesOf(info);
    Transfer(info.id, info.direction, StatusFor(info, files), Wrap(CountedSize(files)), Wrap(CountedTransferred(files)),
             if CutShort(info, files) then CanceledFiles(files) else files)
  }

  method ConvertTransfer(info: TransferInfo) returns (t: Transfer)
    ensures t == Converted(info)
  {
    var all := FilesOf(info);
    var size, transferred := CalculateTotals(all);
    var files := new File[|all|](i requires 0 <= i < |all| => all[i]);
    assert files[..] == all;
    var status := DetermineTransferStatus(info, files);
    t := Transfer(info.id, info.direction, status, size, transferred, files[..]);
  }

  function UnfinishedSize(files: seq<File>): nat {
    if files == [] then 0
    else
      var f := files[|files| - 1];
      UnfinishedSize(files[..|files| - 1]) + if IsFileCompleted(f.status) then 0 else f.size
  }

  function UnfinishedTransferred(files: seq<File>): nat {
    if files == [] then 0
    else
      var f := files[|files| - 1];
      UnfinishedTransferred(files[..|files| - 1]) + if IsFileCompleted(f.status) then 0 else f.transferred
  }

  lemma {:induction false} CanceledCount(files: seq<File>)
    ensures CountedSize(files) == CountedSize(CanceledFiles(files)) + UnfinishedSize(files)
    ensures CountedTransferred(files) == CountedTransferred(CanceledFiles(files)) + UnfinishedTransferred(files)
  {
    if files != [] {
      var n := |files| - 1;
      CanceledCount(files[..n]);
      assert CanceledFiles(files)[..n] == CanceledFiles(files[..n]);
    }
  }

  lemma WrapSame(a: nat, b: nat)
    ensures Wrap(a + b) == Wrap(a) <==> Wrap(b) == 0
  {
  }

  /** A transfer that was cut short while unfinished files still had bytes to count. */
  predicate Miscounted(info: TransferInfo) {
    && CutShort(info, FilesOf(info))
    && (Wrap(UnfinishedSize(FilesOf(info))) != 0 || Wrap(UnfinishedTransferred(FilesOf(info))) != 0)
  }

  /** The totals are taken before the files of a transfer cut short are marked, so a record obeys the rule
      for totals exactly when that marking takes no bytes out of the count. */
  lemma RecordGoodIff(info: TransferInfo)
    ensures GoodRecord(info.id, Converted(info)) <==> DistinctIds(FilesOf(info)) && !Miscounted(info)
  {
    CanceledTotals(FilesOf(info));
    SameIds(FilesOf(info));
  }

  lemma CanceledTotals(files: seq<File>)
    ensures Wrap(CountedSize(files)) == Wrap(CountedSize(CanceledFiles(files))) <==> Wrap(UnfinishedSize(files)) == 0
    ensures Wrap(CountedTransferred(files)) == Wrap(CountedTransferred(CanceledFiles(files))) <==>
            Wrap(UnfinishedTransferred(files)) == 0
  {
    CanceledCount(files);
    WrapSame(CountedSize(CanceledFiles(files)), UnfinishedSize(files));
    WrapSame(CountedTransferred(CanceledFiles(files)), UnfinishedTransferred(files));
  }

  lemma SameIds(files: seq<File>)
    ensures DistinctIds(CanceledFiles(files)) <==> DistinctIds(files)
  {
    var kept := CanceledFiles(files);
    assert forall i :: 0 <= i < |files| ==> kept[i].id == files[i].id;
    if DistinctIds(kept) {
      forall i, j | 0 <= i < j < |files|
        ensures files[i].id != files[j].id
      {
        assert kept[i].id != kept[j].id;
      }
    }
  }

  /** The kind of record that breaks it. */
  lemma CanceledWhileOngoing(id: string, file: string, size: Uint64)
    requires size > 0
    ensures var info := TransferInfo(id, Incoming, [Path(file, "", "", size, [Started(0)])], [Cancel(false)]);
            Converted(info).totalSize == size && CountedSize(Converted(info).files) == 0 && Miscounted(info)
  {
    var info := TransferInfo(id, Incoming, [Path(file, "", "", size, [Started(0)])], [Cancel(false)]);
    var files := FilesOf(info);
    assert files[0] == FileOf(info.paths[0]) && files[..0] == [];
    assert files[0] in files;
    var kept := CanceledFiles(files);
    assert kept[..0] == [] && kept[0].status == CANCELED;
    assert StatusByFiles(files) == ONGOING;
    assert UnfinishedSize(files) == UnfinishedSize([]) + size;
    assert CountedSize(kept) == CountedSize([]);
    assert CountedSize(files) == CountedSize([]) + size;
  }

  /** Without the cancellation it obeys the rule. */
  lemma OngoingIsGood(id: string, file: string, size: Uint64)
    ensures var info := TransferInfo(id, Incoming, [Path(file, "", "", size, [Started(0)])], []);
            GoodRecord(id, Converted(info)) && Converted(info).totalSize == size
  {
    var info := TransferInfo(id, Incoming, [Path(file, "", "", size, [Started(0)])], []);
    var files := FilesOf(info);
    assert files[0] == FileOf(info.paths[0]) && files[..0] == [];
    assert CountedSize(files) == CountedSize([]) + size;
    assert DistinctIds(files);
    RecordGoodIff(info);
  }

  // ----- the whole storage -----

  /** What a map holds after each element was filed under its key, in order. */
  function Filed<T, V>(xs: seq<T>, key: T -> string, value: T -> V): map<string, V> {
    if xs == [] then map[]
    else
      var last := xs[|xs| - 1];
      Filed(xs[..|xs| - 1], key, value)[key(last) := value(last)]
  }

  /** Of several elements with one key, the last. */
  ghost predicate IsLastWith<T>(xs: seq<T>, key: T -> string, k: string, i: nat) {
    i < |xs| && key(xs[i]) == k && forall j :: i < j < |xs| ==> key(xs[j]) != k
  }

  lemma {:induction false} FiledAt<T, V>(xs: seq<T>, key: T -> string, value: T -> V, k: string, i: nat)
    requires IsLastWith(xs, key, k, i)
    ensures k in Filed(xs, key, value) && Filed(xs, key, value)[k] == value(xs[i])
  {
    var n := |xs| - 1;
    if i < n {
      assert key(xs[n]) != k;
      FiledAt(xs[..n], key, value, k, i);
    }
  }

  lemma {:induction false} FiledOnly<T, V>(xs: seq<T>, key: T -> string, value: T -> V, k: string) returns (i: nat)
    requires k in Filed(xs, key, value)
    ensures IsLastWith(xs, key, k, i)
  {
    var n := |xs| - 1;
    if key(xs[n]) == k {
      i := n;
    } else {
      i := FiledOnly(xs[..n], key, value, k);
    }
  }

  function IdOf(info: TransferInfo): string {
    info.id
  }

  function Loading(infos: seq<TransferInfo>): Storage {
    Filed(infos, IdOf, Converted)
  }

  method Load(infos: seq<TransferInfo>) returns (storage: Storage)
    ensures storage == Loading(infos)
  {
    storage := map[];
    for i := 0 to |infos|
      invariant storage == Loading(infos[..i])
    {
      var t := ConvertTransfer(infos[i]);
      assert infos[..i + 1][..i] == infos[..i];
      storage := storage[infos[i].id := t];
    }
    assert infos[..|infos|] == infos;
  }

  /** Whatever libdrop reports, each record is filed under its own id. */
  lemma LoadStoresById(infos: seq<TransferInfo>)
    ensures StoredById(Some(Loading(infos)))
  {
    forall id | id in Loading(infos)
      ensures Loading(infos)[id].id == id
    {
      var i := FiledOnly(infos, IdOf, Converted, id);
      FiledAt(infos, IdOf, Converted, id, i);
    }
  }

  /** A loaded record obeys the rule for totals exactly when its transfer has distinct files and is not
      miscounted; other transfers do not matter. */
  lemma LoadGoodIff(infos: seq<TransferInfo>, id: string, i: nat)
    requires IsLastWith(infos, IdOf, id, i)
    ensures id in Loading(infos)
    ensures GoodRecord(id, Loading(infos)[id]) <==> DistinctIds(FilesOf(infos[i])) && !Miscounted(infos[i])
  {
    FiledAt(infos, IdOf, Converted, id, i);
    RecordGoodIff(infos[i]);
  }

  /** In any run, the totals of a live transfer that was loaded from what libdrop reported about it are the sums
      over its remaining files iff libdrop's transfer was not miscounted. */
  lemma LiveTotalsIff(steps: seq<TransferRuns.Step>, id: string, info: TransferInfo)
    requires TransferRuns.StoredSteps(steps) && id in TransferRuns.Run(INITIAL, steps).live
    requires TransferRuns.Origin(steps, id) == Some(Converted(info)) && DistinctIds(FilesOf(info))
    ensures TransferTotals.GoodTotals(TransferRuns.Run(INITIAL, steps).live[id]) <==> !Miscounted(info)
  {
    TransferRuns.GapStays(steps, id);
    TransferRuns.TotalsAreSumsIff(steps, id);
    SameIds(FilesOf(info));
    RecordGoodIff(info);
  }

  /** A run with wrong totals: the transfer was canceled while its only file was ongoing, and then the failure of the
      file is reported.  It is live without files, and its total is still the file's size. */
  lemma CanceledStaysWrong(id: string, file: string, size: Uint64)
    requires size > 0
    ensures var info := TransferInfo(id, Incoming, [Path(file, "", "", size, [Started(0)])], [Cancel(false)]);
            var step := TransferRuns.Handle(FileFailed(id, file, SUCCESS), Some(Loading([info])), None);
            var live := TransferRuns.Run(INITIAL, [step]).live;
            && id in live && live[id].files == map[] && live[id].totalSize == size
            && !TransferTotals.GoodTotals(live[id])
  {
    var info := TransferInfo(id, Incoming, [Path(file, "", "", size, [Started(0)])], [Cancel(false)]);
    var storage := Loading([info]);
    var step := TransferRuns.Handle(FileFailed(id, file, SUCCESS), Some(storage), None);
    CanceledRecord(info, file, size);
    LoadingOne(info);
    assert [step][..0] == [] && TransferRuns.Run(INITIAL, []) == INITIAL;
    assert TransferRuns.Run(INITIAL, [step]) == OnFileEnd(INITIAL, id, file, true, Some(storage));
    LoadedWithoutFiles(storage, id, file);
  }

  lemma LoadingOne(info: TransferInfo)
    ensures info.id in Loading([info]) && Loading([info])[info.id] == Converted(info)
  {
    assert [info][0] == info && IsLastWith([info], IdOf, info.id, 0);
    FiledAt([info], IdOf, Converted, info.id, 0);
  }

  lemma LoadedWithoutFiles(storage: Storage, id: string, file: string)
    requires id in storage && storage[id].id == id && storage[id].totalSize > 0
    requires |storage[id].files| == 1 && storage[id].files[0].status == CANCELED
    ensures var live := OnFileEnd(INITIAL, id, file, true, Some(storage)).live;
            && id in live && live[id].files == map[] && live[id].totalSize == storage[id].totalSize
            && !TransferTotals.GoodTotals(live[id])
  {
    var record := storage[id];
    assert TrackAll(record.files) == map[] by {
      assert record.files[..0] == [] && TrackAll([]) == map[];
    }
    var t := FromRecord(record);
    assert OnFileEnd(INITIAL, id, file, true, Some(storage)).live == map[id := t];
    assert TransferTotals.Sizes(t.files) == map[];
    assert Sum(map[]) == 0;
  }

  lemma CanceledRecord(info: TransferInfo, file: string, size: Uint64)
    requires info == TransferInfo(info.id, Incoming, [Path(file, "", "", size, [Started(0)])], [Cancel(false)])
    requires size > 0
    ensures var t := Converted(info);
            && t.id == info.id && t.totalSize == size && |t.files| == 1 && t.files[0].status == CANCELED
  {
    CanceledWhileOngoing(info.id, file, size);
    var files := FilesOf(info);
    assert files[0] == FileOf(info.paths[0]) && files[0] in files && files[0].status == ONGOING;
    assert CutShort(info, files);
  }

  /** A transfer that is finalized once its files are finished, by canceling it, still shows how it went. */
  lemma FinishedStatus(info: TransferInfo)
    requires info.states != [] && info.states[|info.states| - 1].Cancel?
    requires forall f :: f in FilesOf(info) ==> IsFileCompleted(f.status)
    requires exists f :: f in FilesOf(info) && f.status != CANCELED
    ensures Converted(info).files == FilesOf(info)
    ensures Converted(info).status ==
            if exists f :: f in FilesOf(info) && HasErrors(f.status) then FINISHED_WITH_ERRORS else SUCCESS
  {
    var files := FilesOf(info);
    var status := if exists f :: f in files && HasErrors(f.status) then FINISHED_WITH_ERRORS else SUCCESS;
    assert StatusByFiles(files) == status;
    assert !CutShort(info, files);
    assert StatusFor(info, files) == status;
  }
}
