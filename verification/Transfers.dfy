/** The fileshare data model and, on values, what the event manager does with each libdrop event
    (fileshare/event_manager.go). */
module Transfers {
  import opened Options
  import opened Totals
  import Sorting

  /** pb.Status is an open enumeration: event and storage codes are cast to it unchecked. */
  type Status = int
  const SUCCESS: Status := 0
  const CANCELED: Status := 1
  const REQUESTED: Status := 100
  const ONGOING: Status := 101
  const FINISHED_WITH_ERRORS: Status := 102
  const CANCELED_BY_PEER: Status := 104
  const PENDING: Status := 107

  datatype Direction = UnknownDirection | Incoming | Outgoing

  /** pb.File and pb.Transfer: what the storage knows. */
  datatype File = File(id: string, path: string, fullPath: string, size: Uint64, transferred: Uint64, status: Status)
  datatype Transfer = Transfer(id: string, direction: Direction, status: Status, totalSize: Uint64,
                               totalTransferred: Uint64, files: seq<File>)
  type Storage = map<string, Transfer>

  /** LiveFile and LiveTransfer: what the event manager tracks. */
  datatype FileState = FileState(id: string, fullPath: string, size: Uint64, transferred: Uint64, finished: bool)
  datatype TransferState = TransferState(id: string, direction: Direction, totalSize: Uint64, totalTransferred: Uint64,
                                         files: map<string, FileState>)

  datatype ProgressInfo = ProgressInfo(transferId: string, percent: int, status: Status)

  /** Everything ever done to one subscription channel, in order. */
  datatype ChannelOp = Send(info: ProgressInfo) | Close
  datatype Channel = Channel(subject: string, ops: seq<ChannelOp>)

  /** Calls into the fileshare library. */
  datatype Call =
    | Finalize(transferId: string)
    | Accept(transferId: string, dir: string, fileId: string)
    | CancelFile(transferId: string, fileId: string)

  /** `subscriptions` maps a transfer to the position of its channel in `channels`. */
  datatype State = State(
    live: map<string, TransferState>,
    subscriptions: map<string, nat>,
    channels: seq<Channel>,
    calls: seq<Call>)

  const INITIAL := State(map[], map[], [], [])

  /** What the file system says about the directory to accept into. */
  datatype Directory = Missing | Symlink | NotADirectory | NotWritable | Writable

  /** What the mesh says about the peer that sends a request. */
  datatype Peer = Peer(doIAllowFileshare: bool, alwaysAcceptFiles: bool)

  /** Answers of the outside world while a request is handled: the peer lookup, the default download
      directory and its state, and the bytes statfs reports as available (None is an error). */
  datatype Surroundings = Surroundings(peer: Option<Peer>, downloadDir: string, directory: Directory,
                                       free: Option<Uint64>)

  datatype Event =
    | Ignored
    | RequestReceived(transferId: string, around: Surroundings)
    | FileProgress(transferId: string, fileId: string, transferred: Uint64)
    | FileDownloaded(transferId: string, fileId: string)
    | FileUploaded(transferId: string, fileId: string)
    | FileRejected(transferId: string, fileId: string)
    | FileFailed(transferId: string, fileId: string, status: Status)
    | TransferFailed(transferId: string, status: Status)
    | TransferFinalized(transferId: string, byPeer: bool)

  // ----- storage -----

  predicate IsFileCompleted(status: Status) {
    status != REQUESTED && status != ONGOING && status != PENDING
  }

  /** Canceled and failed files do not count towards a transfer's totals. */
  predicate IsFileTransferred(status: Status) {
    !IsFileCompleted(status) || status == SUCCESS
  }

  function CountedSize(files: seq<File>): nat {
    if files == [] then 0
    else
      var f := files[|files| - 1];
      CountedSize(files[..|files| - 1]) + if IsFileTransferred(f.status) then f.size else 0
  }

  function CountedTransferred(files: seq<File>): nat {
    if files == [] then 0
    else
      var f := files[|files| - 1];
      CountedTransferred(files[..|files| - 1]) + if IsFileTransferred(f.status) then f.transferred else 0
  }

  predicate DistinctIds(files: seq<File>) {
    forall i, j :: 0 <= i < j < |files| ==> files[i].id != files[j].id
  }

  /** Stored under its own id, with distinct file ids and totals over the counted files. */
  ghost predicate GoodRecord(id: string, t: Transfer) {
    && t.id == id
    && DistinctIds(t.files)
    && t.totalSize == Wrap(CountedSize(t.files))
    && t.totalTransferred == Wrap(CountedTransferred(t.files))
  }

  /** Storage.Load files each transfer under its own id; None is an error. */
  ghost predicate StoredById(storage: Option<Storage>) {
    storage.Some? ==> forall id :: id in storage.value ==> storage.value[id].id == id
  }

  // ----- live transfers -----

  function Track(f: File): FileState {
    FileState(f.id, f.fullPath, f.size, f.transferred, IsFileCompleted(f.status))
  }

  function TrackAll(files: seq<File>): (m: map<string, FileState>)
    ensures forall k :: k in m ==> m[k].id == k && exists i :: 0 <= i < |files| && files[i].id == k
  {
    if files == [] then map[]
    else
      var f := files[|files| - 1];
      var m := TrackAll(files[..|files| - 1]);
      if IsFileTransferred(f.status) then m[f.id := Track(f)] else m
  }

  function FromRecord(t: Transfer): TransferState {
    TransferState(t.id, t.direction, t.totalSize, t.totalTransferred, TrackAll(t.files))
  }

  function Put(s: State, t: TransferState): State {
    s.(live := s.live[t.id := t])
  }

  /** getLiveTransfer: the tracked transfer, loading it on first sight; None if it cannot be found. */
  function Lookup(s: State, id: string, storage: Option<Storage>): Option<(State, TransferState)> {
    if id in s.live then Some((s, s.live[id]))
    else if storage.None? || id !in storage.value then None
    else
      var t := FromRecord(storage.value[id]);
      Some((Put(s, t), t))
  }

  predicate AllFinished(t: TransferState) {
    forall k | k in t.files :: t.files[k].finished
  }

  function Progressed(t: TransferState, fileId: string, transferred: Uint64): TransferState
    requires fileId in t.files
  {
    var f := t.files[fileId];
    t.(totalTransferred := Wrap(t.totalTransferred + Wrap(transferred - f.transferred)),
       files := t.files[fileId := f.(transferred := transferred)])
  }

  function Finished(t: TransferState, fileId: string): TransferState
    requires fileId in t.files
  {
    t.(files := t.files[fileId := t.files[fileId].(finished := true)])
  }

  function Removed(t: TransferState, fileId: string): TransferState
    requires fileId in t.files
  {
    var f := t.files[fileId];
    t.(totalSize := Wrap(t.totalSize - f.size),
       totalTransferred := Wrap(t.totalTransferred - f.transferred),
       files := t.files - {f.id})
  }

  /** A file's end: it is finished and, if it was rejected or failed, no longer tracked. */
  function Ended(t: TransferState, fileId: string, remove: bool): TransferState
    requires fileId in t.files
  {
    if remove then Removed(Finished(t, fileId), fileId) else Finished(t, fileId)
  }

  /** Whole percents, computed without floating-point rounding. */
  function Ratio(part: nat, whole: nat): nat
    requires whole > 0
  {
    100 * part / whole
  }

  function Percent(t: TransferState): nat {
    if t.totalSize > 0 then Ratio(t.totalTransferred, t.totalSize) else 0
  }

  // ----- channels -----

  /** Applies operations to the channel a transfer is subscribed with, if any. */
  function Post(s: State, id: string, ops: seq<ChannelOp>): State {
    if id in s.subscriptions && s.subscriptions[id] < |s.channels| then
      var i := s.subscriptions[id];
      s.(channels := s.channels[i := s.channels[i].(ops := s.channels[i].ops + ops)])
    else s
  }

  /** Subscribe: a fresh channel replaces any earlier one. */
  function Subscribed(s: State, id: string): State {
    s.(subscriptions := s.subscriptions[id := |s.channels|], channels := s.channels + [Channel(id, [])])
  }

  // ----- accepting -----

  datatype AcceptError =
    | DirNotFound | DirIsASymlink | DirIsNotADirectory | NoPermissions
    | LoadFailed | TransferNotFound | AcceptOutgoing | CanceledByPeer | CanceledByUs | AlreadyAccepted
    | FileNotFound | SizeLimitExceeded

  datatype Accepted = Accepted(transfer: Transfer) | Refused(error: AcceptError)

  /** updateTransferWithLiveData */
  function WithLiveData(t: Transfer, live: map<string, TransferState>): Transfer {
    if t.id !in live then t
    else
      var l := live[t.id];
      t.(totalTransferred := l.totalTransferred,
         files := seq(|t.files|, i requires 0 <= i < |t.files| =>
           var f := t.files[i]; if f.id in l.files then f.(transferred := l.files[f.id].transferred) else f))
  }

  /** GetTransferFilesByPathPrefix */
  function FilesByPrefix(files: seq<File>, prefix: string): seq<File> {
    Sorting.Filter(files, Under(prefix))
  }

  function Under(prefix: string): File -> bool {
    (f: File) => prefix <= f.path
  }

  /** The files chosen by path prefixes, repeated where prefixes overlap; None if a prefix matches none. */
  function Chosen(files: seq<File>, paths: seq<string>): Option<seq<File>> {
    if paths == [] then Some([])
    else
      var last, front := FilesByPrefix(files, paths[|paths| - 1]), Chosen(files, paths[..|paths| - 1]);
      if front.None? || last == [] then None else Some(front.value + last)
  }

  function TotalSize(files: seq<File>): nat {
    if files == [] then 0 else TotalSize(files[..|files| - 1]) + files[|files| - 1].size
  }

  function DirectoryError(d: Directory): Option<AcceptError> {
    match d
    case Missing => Some(DirNotFound)
    case Symlink => Some(DirIsASymlink)
    case NotADirectory => Some(DirIsNotADirectory)
    case NotWritable => Some(NoPermissions)
    case Writable => None
  }

  function StatusError(t: Transfer): Option<AcceptError> {
    if t.direction != Incoming then Some(AcceptOutgoing)
    else if t.status == CANCELED_BY_PEER then Some(CanceledByPeer)
    else if t.status == CANCELED then Some(CanceledByUs)
    else if t.status != REQUESTED then Some(AlreadyAccepted)
    else None
  }

  /** acceptTransfer; an empty list of paths chooses all files. */
  function AcceptTransfer(live: map<string, TransferState>, id: string, paths: seq<string>, directory: Directory,
                          storage: Option<Storage>, free: Option<Uint64>): Accepted
  {
    if DirectoryError(directory).Some? then Refused(DirectoryError(directory).value)
    else if storage.None? then Refused(LoadFailed)
    else if id !in storage.value then Refused(TransferNotFound)
    else
      var t := WithLiveData(storage.value[id], live);
      if StatusError(t).Some? then Refused(StatusError(t).value)
      else
        var chosen := if paths == [] then Some(t.files) else Chosen(t.files, paths);
        if chosen.None? then Refused(FileNotFound)
        else if free.None? || Wrap(TotalSize(chosen.value)) > free.value then Refused(SizeLimitExceeded)
        else Accepted(t)
  }

  // ----- the handlers -----

  function AcceptCalls(id: string, dir: string, files: seq<File>): seq<Call> {
    seq(|files|, i requires 0 <= i < |files| => Accept(id, dir, files[i].id))
  }

  function OnRequest(s: State, id: string, around: Surroundings, storage: Option<Storage>): State {
    if around.peer.None? then s
    else if !around.peer.value.doIAllowFileshare then s.(calls := s.calls + [Finalize(id)])
    else if !around.peer.value.alwaysAcceptFiles || around.downloadDir == "" then s
    else
      match AcceptTransfer(s.live, id, [], around.directory, storage, around.free)
      case Refused(_) => s
      case Accepted(t) =>
        s.(calls := s.calls + AcceptCalls(id, around.downloadDir, t.files))
  }

  /** finalizeFinishedTransfer */
  function FinalizeFinished(s: State, t: TransferState): State {
    if AllFinished(t) && t.direction == Incoming then s.(calls := s.calls + [Finalize(t.id)]) else s
  }

  /** finalizeTransfer: the last message, then the end of the subscription and of the live transfer. */
  function FinalizeTransfer(s: State, id: string, status: Status): State {
    Post(s, id, [Send(ProgressInfo(id, 0, status)), Close])
      .(subscriptions := s.subscriptions - {id}, live := s.live - {id})
  }

  function OnFileEnd(s: State, id: string, fileId: string, remove: bool, storage: Option<Storage>): State {
    match Lookup(s, id, storage)
    case None => s
    case Some((s1, t)) =>
      if fileId !in t.files then s1
      else
        var t1 := Ended(t, fileId, remove);
        FinalizeFinished(Put(s1, t1), t1)
  }

  function OnProgress(s: State, id: string, fileId: string, transferred: Uint64, storage: Option<Storage>): State {
    match Lookup(s, id, storage)
    case None => s
    case Some((s1, t)) =>
      if fileId !in t.files then s1
      else
        var t1 := Progressed(t, fileId, transferred);
        Post(Put(s1, t1), t.id, [Send(ProgressInfo(id, Percent(t1), ONGOING))])
  }

  /** How a transfer ended: TransferFailed or TransferFinalized. */
  datatype TransferEnd = Failed(status: Status) | Finalized(byPeer: bool)

  /** The status a transfer ends with; None if it has to be read from the storage and cannot be. */
  function FinalStatus(t: TransferState, id: string, end: TransferEnd, reload: Option<Storage>): Option<Status> {
    match end
    case Failed(status) => Some(status)
    case Finalized(byPeer) =>
      if AllFinished(t) then
        if reload.None? || id !in reload.value then None else Some(reload.value[id].status)
      else Some(if byPeer then CANCELED_BY_PEER else CANCELED)
  }

  function OnTransferEnd(s: State, id: string, end: TransferEnd, storage: Option<Storage>,
                         reload: Option<Storage>): State {
    match Lookup(s, id, storage)
    case None => s
    case Some((s1, t)) =>
      match FinalStatus(t, id, end, reload)
      case None => s1
      case Some(status) => FinalizeTransfer(s1, t.id, status)
  }

  /** One event; `storage` and `reload` are the outcomes of the first and second Storage.Load. */
  function OnEvent(s: State, ev: Event, storage: Option<Storage>, reload: Option<Storage>): State {
    match ev
    case Ignored => s
    case RequestReceived(id, around) => OnRequest(s, id, around, storage)
    case FileProgress(id, fileId, transferred) => OnProgress(s, id, fileId, transferred, storage)
    case FileDownloaded(id, fileId) => OnFileEnd(s, id, fileId, false, storage)
    case FileUploaded(id, fileId) => OnFileEnd(s, id, fileId, false, storage)
    case FileRejected(id, fileId) => OnFileEnd(s, id, fileId, true, storage)
    case FileFailed(id, fileId, _) => OnFileEnd(s, id, fileId, true, storage)
    case TransferFailed(id, status) => OnTransferEnd(s, id, Failed(status), storage, reload)
    case TransferFinalized(id, byPeer) => OnTransferEnd(s, id, Finalized(byPeer), storage, reload)
  }
}
