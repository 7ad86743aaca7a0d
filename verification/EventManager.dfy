/** fileshare/event_manager.go: the objects the event manager updates in place, proved against the
    value-level account in Transfers. */
module EventManagement {
  import opened Options
  import opened Totals
  import opened Transfers
  import opened TransferInvariants
  import Acceptance

  class LiveTransfer {
    const id: string
    const direction: Direction
    var totalSize: Uint64
    var totalTransferred: Uint64
    var files: map<string, FileState>

    ghost function View(): TransferState
      reads this
    {
      TransferState(id, direction, totalSize, totalTransferred, files)
    }

    /** The live counterpart of a stored transfer. */
    constructor (record: Transfer)
      ensures View() == FromRecord(record)
    {
      id, direction := record.id, record.direction;
      totalSize, totalTransferred, files := record.totalSize, record.totalTransferred, map[];
      new;
      for i := 0 to |record.files|
        invariant View() == FromRecord(record).(files := TrackAll(record.files[..i]))
      {
        var file := record.files[i];
        assert record.files[..i + 1][..i] == record.files[..i];
        if IsFileTransferred(file.status) {
          files := files[file.id := FileState(file.id, file.fullPath, file.size, file.transferred,
                                              IsFileCompleted(file.status))];
        }
      }
      assert record.files[..|record.files|] == record.files;
    }

    /** Adds only the difference to the running total, in uint64 arithmetic. */
    method Progress(fileId: string, transferred: Uint64)
      requires fileId in files
      modifies this
      ensures View() == Progressed(old(View()), fileId, transferred)
    {
      totalTransferred := Wrap(totalTransferred + Wrap(transferred - files[fileId].transferred));
      files := files[fileId := files[fileId].(transferred := transferred)];
    }

    method Finish(fileId: string)
      requires fileId in files
      modifies this
      ensures View() == Finished(old(View()), fileId)
    {
      files := files[fileId := files[fileId].(finished := true)];
    }

    /** removeFileFromLiveTransfer */
    method Remove(fileId: string)
      requires fileId in files
      modifies this
      ensures View() == Removed(old(View()), fileId)
    {
      var file := files[fileId];
      totalSize := Wrap(totalSize - file.size);
      totalTransferred := Wrap(totalTransferred - file.transferred);
      files := files - {file.id};
    }

    method End(fileId: string, remove: bool)
      requires fileId in files
      modifies this
      ensures View() == Ended(old(View()), fileId, remove)
    {
      Finish(fileId);
      if remove {
        Remove(fileId);
      }
    }

    /** isLiveTransferFinished, in whatever order the map is visited. */
    method IsFinished() returns (finished: bool)
      ensures finished == AllFinished(View())
    {
      var keys := files.Keys;
      while keys != {}
        invariant keys <= files.Keys
        invariant forall k :: k in files && k !in keys ==> files[k].finished
        decreases keys
      {
        var k :| k in keys;
        if !files[k].finished {
          return false;
        }
        keys := keys - {k};
      }
      return true;
    }
  }

  /** A Go channel by its history; sending on or closing a closed one would panic. */
  class ProgressChannel {
    ghost const serial: nat
    ghost const subject: string
    var ops: seq<ChannelOp>

    constructor (ghost serial: nat, ghost subject: string)
      ensures this.serial == serial && this.subject == subject && ops == []
    {
      this.serial, this.subject, ops := serial, subject, [];
    }

    ghost function View(): Channel
      reads this
    {
      Channel(subject, ops)
    }

    method Send(info: ProgressInfo)
      requires IsOpen(View())
      modifies this
      ensures ops == old(ops) + [ChannelOp.Send(info)]
    {
      ops := ops + [ChannelOp.Send(info)];
    }

    method Close()
      requires IsOpen(View())
      modifies this
      ensures ops == old(ops) + [ChannelOp.Close]
    {
      ops := ops + [ChannelOp.Close];
    }
  }

  class EventManager {
    var liveTransfers: map<string, LiveTransfer>
    var transferSubscriptions: map<string, ProgressChannel>
    /** The calls made to the fileshare library so far. */
    var calls: seq<Call>

    /** The value the objects hold, and the objects: tracked transfers and all channels ever made. */
    ghost var state: State
    ghost var transfers: set<LiveTransfer>
    ghost var channels: seq<ProgressChannel>

    ghost predicate HoldsLive(live: map<string, TransferState>)
      reads this`liveTransfers, this`transfers, transfers
    {
      && liveTransfers.Keys == live.Keys
      && forall k :: k in liveTransfers ==>
           liveTransfers[k] in transfers && liveTransfers[k].id == k && liveTransfers[k].View() == live[k]
    }

    ghost predicate HoldsChannels(subscriptions: map<string, nat>, views: seq<Channel>)
      reads this`channels, this`transferSubscriptions, channels
    {
      && |channels| == |views|
      && (forall i :: 0 <= i < |channels| ==> channels[i].serial == i && channels[i].View() == views[i])
      && transferSubscriptions.Keys == subscriptions.Keys
      && (forall k :: k in transferSubscriptions ==>
            && transferSubscriptions[k].serial == subscriptions[k] < |channels|
            && channels[subscriptions[k]] == transferSubscriptions[k]
            && transferSubscriptions[k].subject == k
            && IsOpen(transferSubscriptions[k].View()))
    }

    /** The objects hold `state`, and no current subscription is closed: no send or close can panic. */
    ghost predicate Valid()
      reads this, transfers, channels
    {
      && HoldsLive(state.live)
      && HoldsChannels(state.subscriptions, state.channels)
      && calls == state.calls
    }

    constructor ()
      ensures Valid() && state == INITIAL && transfers == {} && channels == []
    {
      liveTransfers, transferSubscriptions, calls := map[], map[], [];
      state, transfers, channels := INITIAL, {}, [];
    }

    /** Returns an existing live transfer or creates a new one; null stands for an error. */
    method GetLiveTransfer(id: string, storage: Option<Storage>) returns (transfer: LiveTransfer?)
      requires Valid() && StoredById(storage)
      modifies this`liveTransfers, this`state, this`transfers
      ensures Valid() && fresh(transfers - old(transfers))
      ensures Lookup(old(state), id, storage).None? <==> transfer == null
      ensures transfer == null ==> state == old(state)
      ensures transfer != null ==>
        && id in liveTransfers && liveTransfers[id] == transfer && state.live[id].id == id
        && Lookup(old(state), id, storage) == Some((state, state.live[id]))
    {
      if id in liveTransfers {
        return liveTransfers[id];
      }
      if storage.None? || id !in storage.value {
        return null;
      }
      transfer := TrackTransfer(storage.value[id]);
    }

    /** Makes a stored transfer live. */
    method TrackTransfer(record: Transfer) returns (transfer: LiveTransfer)
      requires Valid() && record.id !in liveTransfers
      modifies this`liveTransfers, this`state, this`transfers
      ensures Valid() && fresh(transfers - old(transfers)) && state == Put(old(state), FromRecord(record))
      ensures record.id in liveTransfers && liveTransfers[record.id] == transfer
    {
      transfer := new LiveTransfer(record);
      liveTransfers := liveTransfers[transfer.id := transfer];
      state, transfers := Put(state, transfer.View()), transfers + {transfer};
    }

    method ProgressFile(id: string, fileId: string, transferred: Uint64)
      requires Valid() && id in liveTransfers && fileId in liveTransfers[id].files
      modifies liveTransfers[id], this`state
      ensures Valid() && state == Put(old(state), Progressed(old(state).live[id], fileId, transferred))
    {
      liveTransfers[id].Progress(fileId, transferred);
      state := Put(state, liveTransfers[id].View());
    }

    /** Sends one message on the channel of a subscribed transfer. */
    method SendTo(id: string, info: ProgressInfo)
      requires Valid() && id in transferSubscriptions
      modifies transferSubscriptions[id], this`state
      ensures Valid() && state == Post(old(state), id, [ChannelOp.Send(info)])
    {
      var channel := transferSubscriptions[id];
      channel.Send(info);
      state := Post(state, id, [ChannelOp.Send(info)]);
    }

    /** Tells a subscriber the overall progress of a live transfer. */
    method ReportProgress(id: string)
      requires Valid() && id in liveTransfers
      modifies this`state, channels
      ensures Valid()
      ensures state == Post(old(state), id, [ChannelOp.Send(ProgressInfo(id, Percent(old(state).live[id]), ONGOING))])
    {
      if id in transferSubscriptions {
        var transfer := liveTransfers[id];
        var percent := 0;
        if transfer.totalSize > 0 {
          percent := Ratio(transfer.totalTransferred, transfer.totalSize);
        }
        SendTo(id, ProgressInfo(id, percent, ONGOING));
      }
    }

    method HandleFileProgress(id: string, fileId: string, transferred: Uint64, storage: Option<Storage>)
      requires Valid() && StoredById(storage)
      modifies this`liveTransfers, this`state, this`transfers, transfers, channels
      ensures Valid() && fresh(transfers - old(transfers))
      ensures state == OnProgress(old(state), id, fileId, transferred, storage)
    {
      var transfer := GetLiveTransfer(id, storage);
      if transfer == null {
        ProgressIsNothing(old(state), id, fileId, transferred, storage);
        return;
      }
      ghost var s1 := state;
      ProgressIfTracked(id, fileId, transferred);
      ProgressIs(old(state), id, fileId, transferred, storage, s1);
    }

    method ProgressIfTracked(id: string, fileId: string, transferred: Uint64)
      requires Valid() && id in liveTransfers
      modifies liveTransfers[id], this`state, channels
      ensures Valid()
      ensures state ==
        if fileId !in old(state).live[id].files then old(state)
        else
          var t := Progressed(old(state).live[id], fileId, transferred);
          Post(Put(old(state), t), id, [ChannelOp.Send(ProgressInfo(id, Percent(t), ONGOING))])
    {
      if fileId in liveTransfers[id].files {
        ProgressAndReport(id, fileId, transferred);
      }
    }

    method ProgressAndReport(id: string, fileId: string, transferred: Uint64)
      requires Valid() && id in liveTransfers && fileId in liveTransfers[id].files
      modifies liveTransfers[id], this`state, channels
      ensures Valid()
      ensures var t := Progressed(old(state).live[id], fileId, transferred);
              state == Post(Put(old(state), t), id, [ChannelOp.Send(ProgressInfo(id, Percent(t), ONGOING))])
    {
      ghost var t := Progressed(state.live[id], fileId, transferred);
      ProgressFile(id, fileId, transferred);
      assert state.live[id] == t;
      ReportProgress(id);
    }

    /** finalizeFinishedTransfer */
    method FinalizeFinishedTransfer(id: string)
      requires Valid() && id in liveTransfers
      modifies this`calls, this`state
      ensures Valid() && state == FinalizeFinished(old(state), old(state).live[id])
    {
      var finished := liveTransfers[id].IsFinished();
      if finished && liveTransfers[id].direction == Incoming {
        calls := calls + [Finalize(liveTransfers[id].id)];
      }
      state := FinalizeFinished(state, liveTransfers[id].View());
    }

    method EndFile(id: string, fileId: string, remove: bool)
      requires Valid() && id in liveTransfers && fileId in liveTransfers[id].files
      modifies liveTransfers[id], this`state
      ensures Valid() && state == Put(old(state), Ended(old(state).live[id], fileId, remove))
    {
      liveTransfers[id].End(fileId, remove);
      state := Put(state, liveTransfers[id].View());
    }

    /** FileDownloaded and FileUploaded keep the file; FileRejected and FileFailed remove it. */
    method HandleFileEnd(id: string, fileId: string, remove: bool, storage: Option<Storage>)
      requires Valid() && StoredById(storage)
      modifies this`liveTransfers, this`state, this`transfers, this`calls, transfers
      ensures Valid() && fresh(transfers - old(transfers))
      ensures state == OnFileEnd(old(state), id, fileId, remove, storage)
    {
      var transfer := GetLiveTransfer(id, storage);
      if transfer != null {
        FileEndIs(old(state), id, fileId, remove, storage, state);
        if fileId in transfer.files {
          EndFileAndFinalize(id, fileId, remove);
        }
      }
    }

    method EndFileAndFinalize(id: string, fileId: string, remove: bool)
      requires Valid() && id in liveTransfers && fileId in liveTransfers[id].files
      modifies liveTransfers[id], this`state, this`calls
      ensures Valid()
      ensures var t := Ended(old(state).live[id], fileId, remove); state == FinalizeFinished(Put(old(state), t), t)
    {
      ghost var t := Ended(state.live[id], fileId, remove);
      EndFile(id, fileId, remove);
      assert state.live[id] == t;
      FinalizeFinishedTransfer(id);
    }

    /** Closes the channel of a transfer and forgets it. */
    method CloseSubscription(id: string)
      requires Valid() && id in transferSubscriptions
      modifies transferSubscriptions[id], this`state, this`transferSubscriptions
      ensures Valid()
      ensures state == Post(old(state), id, [ChannelOp.Close]).(subscriptions := old(state).subscriptions - {id})
    {
      var channel := transferSubscriptions[id];
      channel.Close();
      state := Post(state, id, [ChannelOp.Close]).(subscriptions := state.subscriptions - {id});
      transferSubscriptions := transferSubscriptions - {id};
    }

    method RemoveLiveTransfer(id: string)
      requires Valid()
      modifies this`liveTransfers, this`state
      ensures Valid() && state == old(state).(live := old(state).live - {id})
    {
      liveTransfers := liveTransfers - {id};
      state := state.(live := state.live - {id});
    }

    /** finalizeTransfer */
    method DropTransfer(id: string, status: Status)
      requires Valid()
      modifies this`state, this`transferSubscriptions, this`liveTransfers, channels
      ensures Valid() && state == FinalizeTransfer(old(state), id, status)
    {
      if id in transferSubscriptions {
        SendTo(id, ProgressInfo(id, 0, status));
        CloseSubscription(id);
        PostTwice(old(state), id, ChannelOp.Send(ProgressInfo(id, 0, status)), ChannelOp.Close);
      } else {
        assert state.subscriptions == state.subscriptions - {id};
      }
      RemoveLiveTransfer(id);
    }

    /** The status to end a live transfer with; None if the storage fails. */
    method EndStatus(transfer: LiveTransfer, id: string, end: TransferEnd, reload: Option<Storage>)
      returns (status: Option<Status>)
      ensures status == FinalStatus(transfer.View(), id, end, reload)
    {
      match end
      case Failed(code) => status := Some(code);
      case Finalized(byPeer) =>
        var finished := transfer.IsFinished();
        if !finished {
          status := Some(if byPeer then CANCELED_BY_PEER else CANCELED);
        } else if reload.Some? && id in reload.value {
          status := Some(reload.value[id].status);
        } else {
          status := None;
        }
    }

    method HandleTransferEnd(id: string, end: TransferEnd, storage: Option<Storage>, reload: Option<Storage>)
      requires Valid() && StoredById(storage)
      modifies this`liveTransfers, this`state, this`transfers, this`transferSubscriptions, channels
      ensures Valid() && fresh(transfers - old(transfers))
      ensures state == OnTransferEnd(old(state), id, end, storage, reload)
    {
      var transfer := GetLiveTransfer(id, storage);
      if transfer == null {
        TransferEndIsNothing(old(state), id, end, storage, reload);
        return;
      }
      ghost var s1 := state;
      EndTransfer(id, end, reload);
      TransferEndIs(old(state), id, end, storage, reload, s1);
    }

    method EndTransfer(id: string, end: TransferEnd, reload: Option<Storage>)
      requires Valid() && id in liveTransfers
      modifies this`liveTransfers, this`state, this`transferSubscriptions, channels
      ensures Valid()
      ensures var status := FinalStatus(old(state).live[id], id, end, reload);
              state == if status.Some? then FinalizeTransfer(old(state), id, status.value) else old(state)
    {
      var status := EndStatus(liveTransfers[id], id, end, reload);
      if status.Some? {
        DropTransfer(id, status.value);
      }
    }

    /** updateTransferWithLiveData */
    method UpdateTransferWithLiveData(t: Transfer) returns (u: Transfer)
      requires Valid()
      ensures u == WithLiveData(t, state.live)
    {
      if t.id !in liveTransfers {
        return t;
      }
      var l := liveTransfers[t.id];
      var files: seq<File> := [];
      for i := 0 to |t.files|
        invariant |files| == i
        invariant forall j :: 0 <= j < i ==> files[j] == WithLiveData(t, state.live).files[j]
      {
        var f := t.files[i];
        files := files + [if f.id in l.files then f.(transferred := l.files[f.id].transferred) else f];
      }
      u := t.(totalTransferred := l.totalTransferred, files := files);
    }

    /** acceptTransfer */
    method AcceptTransfer(id: string, paths: seq<string>, directory: Directory, storage: Option<Storage>,
                          free: Option<Uint64>)
      returns (r: Accepted)
      requires Valid()
      ensures r == Transfers.AcceptTransfer(state.live, id, paths, directory, storage, free)
    {
      match directory {
        case Missing => return Refused(DirNotFound);
        case Symlink => return Refused(DirIsASymlink);
        case NotADirectory => return Refused(DirIsNotADirectory);
        case NotWritable => return Refused(NoPermissions);
        case Writable =>
      }
      if storage.None? {
        return Refused(LoadFailed);
      }
      if id !in storage.value {
        return Refused(TransferNotFound);
      }
      var t := UpdateTransferWithLiveData(storage.value[id]);
      if t.direction != Incoming {
        return Refused(AcceptOutgoing);
      }
      if t.status == CANCELED_BY_PEER {
        return Refused(CanceledByPeer);
      }
      if t.status == CANCELED {
        return Refused(CanceledByUs);
      }
      if t.status != REQUESTED {
        return Refused(AlreadyAccepted);
      }
      var chosen := Acceptance.ChooseFiles(t.files, paths);
      if chosen.None? {
        return Refused(FileNotFound);
      }
      var total := Acceptance.SumSizes(chosen.value);
      if free.None? || total > free.value {
        return Refused(SizeLimitExceeded);
      }
      return Accepted(t);
    }

    method HandleRequestReceived(id: string, around: Surroundings, storage: Option<Storage>)
      requires Valid()
      modifies this`calls, this`state
      ensures Valid() && state == OnRequest(old(state), id, around, storage)
    {
      if around.peer.None? {
        return;
      }
      if !around.peer.value.doIAllowFileshare {
        calls := calls + [Finalize(id)];
        state := state.(calls := calls);
        return;
      }
      if !around.peer.value.alwaysAcceptFiles || around.downloadDir == "" {
        return;
      }
      var r := AcceptTransfer(id, [], around.directory, storage, around.free);
      if r.Refused? {
        return;
      }
      AcceptAll(id, around.downloadDir, r.transfer.files);
    }

    method AcceptAll(id: string, dir: string, files: seq<File>)
      requires Valid()
      modifies this`calls, this`state
      ensures Valid() && state == old(state).(calls := old(state).calls + AcceptCalls(id, dir, files))
    {
      for i := 0 to |files|
        invariant calls == old(calls) + AcceptCalls(id, dir, files[..i]) && state == old(state)
      {
        calls := calls + [Accept(id, dir, files[i].id)];
        assert AcceptCalls(id, dir, files[..i + 1]) ==
               AcceptCalls(id, dir, files[..i]) + [Accept(id, dir, files[i].id)];
      }
      assert files[..|files|] == files;
      state := state.(calls := calls);
    }

    /** OnEvent: one event, handled in place, does to the objects what Transfers.OnEvent does to values. */
    method OnEvent(ev: Event, storage: Option<Storage>, reload: Option<Storage>)
      requires Valid() && StoredById(storage)
      modifies this, transfers, channels
      ensures Valid() && fresh(transfers - old(transfers)) && channels == old(channels)
      ensures state == Transfers.OnEvent(old(state), ev, storage, reload)
    {
      match ev
      case Ignored =>
      case RequestReceived(id, around) => HandleRequestReceived(id, around, storage);
      case FileProgress(id, fileId, transferred) => HandleFileProgress(id, fileId, transferred, storage);
      case FileDownloaded(id, fileId) => HandleFileEnd(id, fileId, false, storage);
      case FileUploaded(id, fileId) => HandleFileEnd(id, fileId, false, storage);
      case FileRejected(id, fileId) => HandleFileEnd(id, fileId, true, storage);
      case FileFailed(id, fileId, _) => HandleFileEnd(id, fileId, true, storage);
      case TransferFailed(id, status) => HandleTransferEnd(id, Failed(status), storage, reload);
      case TransferFinalized(id, byPeer) => HandleTransferEnd(id, Finalized(byPeer), storage, reload);
    }

    method Subscribe(id: string) returns (channel: ProgressChannel)
      requires Valid()
      modifies this`state, this`transferSubscriptions, this`channels
      ensures Valid() && fresh(channel) && channels == old(channels) + [channel]
      ensures state == Subscribed(old(state), id) && transferSubscriptions == old(transferSubscriptions)[id := channel]
    {
      channel := new ProgressChannel(|channels|, id);
      transferSubscriptions := transferSubscriptions[id := channel];
      state, channels := Subscribed(state, id), channels + [channel];
    }
  }

  lemma PostTwice(s: State, id: string, first: ChannelOp, second: ChannelOp)
    ensures Post(Post(s, id, [first]), id, [second]) == Post(s, id, [first, second])
  {
    if id in s.subscriptions && s.subscriptions[id] < |s.channels| {
      var c := s.channels[s.subscriptions[id]];
      assert c.ops + [first] + [second] == c.ops + [first, second];
    }
  }

  lemma ProgressIsNothing(s: State, id: string, fileId: string, transferred: Uint64, storage: Option<Storage>)
    requires Lookup(s, id, storage).None?
    ensures OnProgress(s, id, fileId, transferred, storage) == s
  {
  }

  lemma ProgressIs(s: State, id: string, fileId: string, transferred: Uint64, storage: Option<Storage>, s1: State)
    requires id in s1.live && s1.live[id].id == id && Lookup(s, id, storage) == Some((s1, s1.live[id]))
    ensures OnProgress(s, id, fileId, transferred, storage) ==
            if fileId !in s1.live[id].files then s1
            else
              var t := Progressed(s1.live[id], fileId, transferred);
              Post(Put(s1, t), id, [ChannelOp.Send(ProgressInfo(id, Percent(t), ONGOING))])
  {
  }

  lemma TransferEndIsNothing(s: State, id: string, end: TransferEnd, storage: Option<Storage>, reload: Option<Storage>)
    requires Lookup(s, id, storage).None?
    ensures OnTransferEnd(s, id, end, storage, reload) == s
  {
  }

  lemma TransferEndIs(s: State, id: string, end: TransferEnd, storage: Option<Storage>, reload: Option<Storage>,
                      s1: State)
    requires id in s1.live && s1.live[id].id == id && Lookup(s, id, storage) == Some((s1, s1.live[id]))
    ensures OnTransferEnd(s, id, end, storage, reload) ==
            var status := FinalStatus(s1.live[id], id, end, reload);
            if status.Some? then FinalizeTransfer(s1, id, status.value) else s1
  {
  }

  lemma FileEndIs(s: State, id: string, fileId: string, remove: bool, storage: Option<Storage>, s1: State)
    requires id in s1.live && Lookup(s, id, storage) == Some((s1, s1.live[id]))
    ensures OnFileEnd(s, id, fileId, remove, storage) ==
            if fileId !in s1.live[id].files then s1
            else var t := Ended(s1.live[id], fileId, remove); FinalizeFinished(Put(s1, t), t)
  {
  }
}
