/** What every run of the event manager keeps, whatever the storage holds. */
module TransferInvariants {
  import opened Options
  import opened Totals
  import opened Transfers

  ghost predicate IsProgress(op: ChannelOp, subject: string) {
    op.Send? && op.info.status == ONGOING && op.info.transferId == subject
  }

  ghost predicate AllProgress(ops: seq<ChannelOp>, subject: string) {
    forall i :: 0 <= i < |ops| ==> IsProgress(ops[i], subject)
  }

  predicate IsOpen(c: Channel) {
    Close !in c.ops
  }

  /** ONGOING messages and, exactly when the channel is closed, one final message before the close. */
  ghost predicate GoodChannel(c: Channel) {
    if IsOpen(c) then AllProgress(c.ops, c.subject)
    else
      && |c.ops| >= 2
      && c.ops[|c.ops| - 1] == Close
      && c.ops[|c.ops| - 2].Send? && c.ops[|c.ops| - 2].info.transferId == c.subject
      && AllProgress(c.ops[..|c.ops| - 2], c.subject)
  }

  ghost predicate FilesKeyed(t: TransferState) {
    forall k :: k in t.files ==> t.files[k].id == k
  }

  /** Transfers and files are tracked under their ids. */
  ghost predicate Keyed(s: State) {
    forall id :: id in s.live ==> s.live[id].id == id && FilesKeyed(s.live[id])
  }

  ghost predicate Inv(s: State) {
    && Keyed(s)
    && (forall i :: 0 <= i < |s.channels| ==> GoodChannel(s.channels[i]))
    && (forall id :: id in s.subscriptions ==>
          && s.subscriptions[id] < |s.channels|
          && IsOpen(s.channels[s.subscriptions[id]])
          && s.channels[s.subscriptions[id]].subject == id)
  }

  // ----- parts of the handlers -----

  lemma LookupKeyed(s: State, id: string, storage: Option<Storage>)
    requires Keyed(s) && StoredById(storage)
    ensures var r := Lookup(s, id, storage);
            r.Some? ==>
              && r.value.1.id == id
              && r.value.0 == s.(live := s.live[id := r.value.1])
              && r.value.1 == (if id in s.live then s.live[id] else FromRecord(storage.value[id]))
              && FilesKeyed(r.value.1)
  {
    if id in s.live {
      assert s.live == s.live[id := s.live[id]];
    }
  }

  lemma LookupKeepsInv(s: State, id: string, storage: Option<Storage>)
    requires Inv(s) && StoredById(storage)
    ensures var r := Lookup(s, id, storage); r.Some? ==> Inv(r.value.0)
  {
    LookupKeyed(s, id, storage);
  }

  lemma PutKeepsInv(s: State, t: TransferState)
    requires Inv(s) && FilesKeyed(t)
    ensures Inv(Put(s, t))
  {
  }

  lemma CallsKeepInv(s: State, calls: seq<Call>)
    requires Inv(s)
    ensures Inv(s.(calls := calls))
  {
  }

  lemma EndedKeyed(t: TransferState, fileId: string, remove: bool)
    requires FilesKeyed(t) && fileId in t.files
    ensures FilesKeyed(Ended(t, fileId, remove)) && Ended(t, fileId, remove).id == t.id
  {
  }

  lemma PostProgressKeepsInv(s: State, id: string, op: ChannelOp)
    requires Inv(s) && IsProgress(op, id)
    ensures Inv(Post(s, id, [op]))
  {
    if id in s.subscriptions {
      var c := s.channels[s.subscriptions[id]];
      assert IsOpen(c.(ops := c.ops + [op]));
    }
  }

  lemma FinalizeKeepsInv(s: State, id: string, status: Status)
    requires Inv(s)
    ensures Inv(FinalizeTransfer(s, id, status))
  {
    if id in s.subscriptions {
      var c := s.channels[s.subscriptions[id]];
      var c' := c.(ops := c.ops + [Send(ProgressInfo(id, 0, status)), Close]);
      assert c'.ops[|c'.ops| - 1] == Close && c'.ops[..|c'.ops| - 2] == c.ops;
      assert GoodChannel(c');
    }
  }

  // ----- the handlers -----

  lemma ProgressKeepsInv(s: State, id: string, fileId: string, transferred: Uint64, storage: Option<Storage>)
    requires Inv(s) && StoredById(storage)
    ensures Inv(OnProgress(s, id, fileId, transferred, storage))
  {
    LookupKeyed(s, id, storage);
    LookupKeepsInv(s, id, storage);
    var r := Lookup(s, id, storage);
    if r.Some? && fileId in r.value.1.files {
      var (s1, t) := r.value;
      var t1 := Progressed(t, fileId, transferred);
      PutKeepsInv(s1, t1);
      PostProgressKeepsInv(Put(s1, t1), id, Send(ProgressInfo(id, Percent(t1), ONGOING)));
    }
  }

  lemma FileEndKeepsInv(s: State, id: string, fileId: string, remove: bool, storage: Option<Storage>)
    requires Inv(s) && StoredById(storage)
    ensures Inv(OnFileEnd(s, id, fileId, remove, storage))
  {
    LookupKeyed(s, id, storage);
    LookupKeepsInv(s, id, storage);
    var r := Lookup(s, id, storage);
    if r.Some? && fileId in r.value.1.files {
      var (s1, t) := r.value;
      var t1 := Ended(t, fileId, remove);
      EndedKeyed(t, fileId, remove);
      PutKeepsInv(s1, t1);
      CallsKeepInv(Put(s1, t1), FinalizeFinished(Put(s1, t1), t1).calls);
    }
  }

  lemma TransferEndKeepsInv(s: State, id: string, end: TransferEnd, storage: Option<Storage>, reload: Option<Storage>)
    requires Inv(s) && StoredById(storage)
    ensures Inv(OnTransferEnd(s, id, end, storage, reload))
  {
    LookupKeyed(s, id, storage);
    LookupKeepsInv(s, id, storage);
    var r := Lookup(s, id, storage);
    if r.Some? && FinalStatus(r.value.1, id, end, reload).Some? {
      FinalizeKeepsInv(r.value.0, id, FinalStatus(r.value.1, id, end, reload).value);
    }
  }

  lemma RequestOnlyCalls(s: State, id: string, around: Surroundings, storage: Option<Storage>)
    ensures OnRequest(s, id, around, storage) == s.(calls := OnRequest(s, id, around, storage).calls)
    ensures s.calls <= OnRequest(s, id, around, storage).calls
  {
  }

  lemma RequestKeepsInv(s: State, id: string, around: Surroundings, storage: Option<Storage>)
    requires Inv(s)
    ensures Inv(OnRequest(s, id, around, storage))
  {
    RequestOnlyCalls(s, id, around, storage);
    CallsKeepInv(s, OnRequest(s, id, around, storage).calls);
  }

  /** Every event keeps the invariant, whatever the storage and the library answer. */
  lemma EventKeepsInv(s: State, ev: Event, storage: Option<Storage>, reload: Option<Storage>)
    requires Inv(s) && StoredById(storage)
    ensures Inv(OnEvent(s, ev, storage, reload))
  {
    var t := OnEvent(s, ev, storage, reload);
    match ev
    case Ignored =>
      assert t == s;
    case RequestReceived(id, around) =>
      assert t == OnRequest(s, id, around, storage);
      RequestKeepsInv(s, id, around, storage);
    case FileProgress(id, fileId, transferred) =>
      assert t == OnProgress(s, id, fileId, transferred, storage);
      ProgressKeepsInv(s, id, fileId, transferred, storage);
    case FileDownloaded(id, fileId) =>
      assert t == OnFileEnd(s, id, fileId, false, storage);
      FileEndKeepsInv(s, id, fileId, false, storage);
    case FileUploaded(id, fileId) =>
      assert t == OnFileEnd(s, id, fileId, false, storage);
      FileEndKeepsInv(s, id, fileId, false, storage);
    case FileRejected(id, fileId) =>
      assert t == OnFileEnd(s, id, fileId, true, storage);
      FileEndKeepsInv(s, id, fileId, true, storage);
    case FileFailed(id, fileId, _) =>
      assert t == OnFileEnd(s, id, fileId, true, storage);
      FileEndKeepsInv(s, id, fileId, true, storage);
    case TransferFailed(id, status) =>
      assert t == OnTransferEnd(s, id, Failed(status), storage, reload);
      TransferEndKeepsInv(s, id, Failed(status), storage, reload);
    case TransferFinalized(id, byPeer) =>
      assert t == OnTransferEnd(s, id, Finalized(byPeer), storage, reload);
      TransferEndKeepsInv(s, id, Finalized(byPeer), storage, reload);
  }
}
