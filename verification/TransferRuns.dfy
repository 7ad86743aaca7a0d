/** Properties of all runs of the event manager: any events, any subscriptions, any answers.  Of the storage only
    that it files each transfer under its own id is taken for granted. */
module TransferRuns {
  import opened Options
  import opened Totals
  import opened Transfers
  import opened TransferInvariants
  import opened TransferTotals

  datatype Step =
    | Handle(ev: Event, storage: Option<Storage>, reload: Option<Storage>)
    | Subscribe(id: string)

  function Next(s: State, step: Step): State {
    match step
    case Handle(ev, storage, reload) => OnEvent(s, ev, storage, reload)
    case Subscribe(id) => Subscribed(s, id)
  }

  function Run(s: State, steps: seq<Step>): State {
    if steps == [] then s else Next(Run(s, steps[..|steps| - 1]), steps[|steps| - 1])
  }

  lemma RunTwo(s: State, first: Step, second: Step)
    ensures Run(s, [first, second]) == Next(Next(s, first), second)
  {
    var steps := [first, second];
    assert steps[..1] == [first] && [first][..0] == [];
    assert Run(s, [first]) == Next(Run(s, []), first);
  }

  ghost predicate StoredStep(step: Step) {
    step.Handle? ==> StoredById(step.storage)
  }

  ghost predicate StoredSteps(steps: seq<Step>) {
    forall i :: 0 <= i < |steps| ==> StoredStep(steps[i])
  }

  lemma StepKeepsInv(s: State, step: Step)
    requires Inv(s) && StoredStep(step)
    ensures Inv(Next(s, step))
  {
    match step
    case Handle(ev, storage, reload) => EventKeepsInv(s, ev, storage, reload);
    case Subscribe(id) => assert GoodChannel(Channel(id, []));
  }

  lemma {:induction false} RunKeepsInv(s: State, steps: seq<Step>)
    requires Inv(s) && StoredSteps(steps)
    ensures Inv(Run(s, steps))
  {
    if steps != [] {
      RunKeepsInv(s, steps[..|steps| - 1]);
      StepKeepsInv(Run(s, steps[..|steps| - 1]), steps[|steps| - 1]);
    }
  }

  /** Every channel ever handed out carries ONGOING messages of its own transfer and, exactly when it
      is closed, one final message directly before its only close; current subscriptions are open. */
  lemma ChannelProtocol(steps: seq<Step>)
    requires StoredSteps(steps)
    ensures var s := Run(INITIAL, steps);
            && (forall i :: 0 <= i < |s.channels| ==> GoodChannel(s.channels[i]))
            && (forall id :: id in s.subscriptions ==>
                  s.subscriptions[id] < |s.channels| && IsOpen(s.channels[s.subscriptions[id]]))
  {
    RunKeepsInv(INITIAL, steps);
  }

  // ----- totals -----

  /** A transfer that is live after a step was so before, with the same gap, or has just been loaded. */
  ghost predicate GapFrom(s: State, s1: State, storage: Option<Storage>, id: string) {
    id in s1.live ==>
      if id in s.live then GapOf(s1.live[id]) == GapOf(s.live[id])
      else storage.Some? && id in storage.value && GapOf(s1.live[id]) == GapOf(FromRecord(storage.value[id]))
  }

  lemma ReplacedGap(s: State, id: string, storage: Option<Storage>, t1: TransferState, s1: State, other: string)
    requires Keyed(s) && StoredById(storage) && Lookup(s, id, storage).Some?
    requires GapOf(t1) == GapOf(Lookup(s, id, storage).value.1) && s1.live == s.live[id := t1]
    ensures GapFrom(s, s1, storage, other)
  {
    LookupKeyed(s, id, storage);
  }

  lemma FileEndLive(s: State, id: string, fileId: string, remove: bool, storage: Option<Storage>)
    requires Keyed(s) && StoredById(storage)
    ensures var r := Lookup(s, id, storage);
            r.Some? && fileId in r.value.1.files ==>
              OnFileEnd(s, id, fileId, remove, storage).live == s.live[id := Ended(r.value.1, fileId, remove)]
  {
    LookupKeyed(s, id, storage);
  }

  lemma ProgressLive(s: State, id: string, fileId: string, transferred: Uint64, storage: Option<Storage>)
    requires Keyed(s) && StoredById(storage)
    ensures var r := Lookup(s, id, storage);
            r.Some? && fileId in r.value.1.files ==>
              OnProgress(s, id, fileId, transferred, storage).live ==
                  s.live[id := Progressed(r.value.1, fileId, transferred)]
  {
    LookupKeyed(s, id, storage);
  }

  lemma ProgressGap(s: State, id: string, fileId: string, transferred: Uint64, storage: Option<Storage>, other: string)
    requires Keyed(s) && StoredById(storage)
    ensures GapFrom(s, OnProgress(s, id, fileId, transferred, storage), storage, other)
  {
    LookupKeyed(s, id, storage);
    var r := Lookup(s, id, storage);
    if r.Some? && fileId in r.value.1.files {
      var t1 := Progressed(r.value.1, fileId, transferred);
      ProgressedGap(r.value.1, fileId, transferred);
      ProgressLive(s, id, fileId, transferred, storage);
      ReplacedGap(s, id, storage, t1, OnProgress(s, id, fileId, transferred, storage), other);
    }
  }

  lemma FileEndGap(s: State, id: string, fileId: string, remove: bool, storage: Option<Storage>, other: string)
    requires Keyed(s) && StoredById(storage)
    ensures GapFrom(s, OnFileEnd(s, id, fileId, remove, storage), storage, other)
  {
    LookupKeyed(s, id, storage);
    var r := Lookup(s, id, storage);
    if r.Some? && fileId in r.value.1.files {
      var t1 := Ended(r.value.1, fileId, remove);
      EndedGap(r.value.1, fileId, remove);
      FileEndLive(s, id, fileId, remove, storage);
      ReplacedGap(s, id, storage, t1, OnFileEnd(s, id, fileId, remove, storage), other);
    }
  }

  lemma TransferEndGap(s: State, id: string, end: TransferEnd, storage: Option<Storage>, reload: Option<Storage>,
                       other: string)
    requires Keyed(s) && StoredById(storage)
    ensures GapFrom(s, OnTransferEnd(s, id, end, storage, reload), storage, other)
  {
    LookupKeyed(s, id, storage);
    var r := Lookup(s, id, storage);
    if r.Some? && FinalStatus(r.value.1, id, end, reload).Some? {
      assert OnTransferEnd(s, id, end, storage, reload).live == r.value.0.live - {id};
    }
  }

  lemma EventGap(s: State, ev: Event, storage: Option<Storage>, reload: Option<Storage>, id: string)
    requires Keyed(s) && StoredById(storage)
    ensures GapFrom(s, OnEvent(s, ev, storage, reload), storage, id)
  {
    var s1 := OnEvent(s, ev, storage, reload);
    match ev
    case Ignored =>
      assert s1 == s;
    case RequestReceived(id', around) =>
      RequestOnlyCalls(s, id', around, storage);
    case FileProgress(id', fileId, transferred) =>
      assert s1 == OnProgress(s, id', fileId, transferred, storage);
      ProgressGap(s, id', fileId, transferred, storage, id);
    case FileDownloaded(id', fileId) =>
      assert s1 == OnFileEnd(s, id', fileId, false, storage);
      FileEndGap(s, id', fileId, false, storage, id);
    case FileUploaded(id', fileId) =>
      assert s1 == OnFileEnd(s, id', fileId, false, storage);
      FileEndGap(s, id', fileId, false, storage, id);
    case FileRejected(id', fileId) =>
      assert s1 == OnFileEnd(s, id', fileId, true, storage);
      FileEndGap(s, id', fileId, true, storage, id);
    case FileFailed(id', fileId, _) =>
      assert s1 == OnFileEnd(s, id', fileId, true, storage);
      FileEndGap(s, id', fileId, true, storage, id);
    case TransferFailed(id', status) =>
      assert s1 == OnTransferEnd(s, id', Failed(status), storage, reload);
      TransferEndGap(s, id', Failed(status), storage, reload, id);
    case TransferFinalized(id', byPeer) =>
      assert s1 == OnTransferEnd(s, id', Finalized(byPeer), storage, reload);
      TransferEndGap(s, id', Finalized(byPeer), storage, reload, id);
  }

  /** The record from which the transfer that is live after a run was loaded. */
  ghost function Origin(steps: seq<Step>, id: string): Option<Transfer> {
    if steps == [] || id !in Run(INITIAL, steps).live then None
    else
      var front, step := steps[..|steps| - 1], steps[|steps| - 1];
      if id in Run(INITIAL, front).live then Origin(front, id)
      else if step.Handle? && step.storage.Some? && id in step.storage.value then Some(step.storage.value[id])
      else None
  }

  /** Whatever happens, the totals of a live transfer stay exactly as far from the sums over its remaining
      files, modulo 2^64, as those of the record from which it was loaded were from its own. */
  lemma {:induction false} GapStays(steps: seq<Step>, id: string)
    requires StoredSteps(steps) && id in Run(INITIAL, steps).live
    ensures Origin(steps, id).Some? && Origin(steps, id).value.id == id
    ensures GapOf(Run(INITIAL, steps).live[id]) == GapOf(FromRecord(Origin(steps, id).value))
  {
    if steps != [] {
      var front, step := steps[..|steps| - 1], steps[|steps| - 1];
      var s := Run(INITIAL, front);
      RunKeepsInv(INITIAL, front);
      if step.Handle? {
        EventGap(s, step.ev, step.storage, step.reload, id);
      }
      if id in s.live {
        GapStays(front, id);
      }
    }
  }

  /** The totals of a live transfer are the sums over its remaining files, modulo 2^64 and hence exactly whenever
      the sums fit, if and only if the record from which it was loaded obeys the rule for totals. */
  lemma TotalsAreSumsIff(steps: seq<Step>, id: string)
    requires StoredSteps(steps) && id in Run(INITIAL, steps).live
    ensures Origin(steps, id).Some?
    ensures var record, t := Origin(steps, id).value, Run(INITIAL, steps).live[id];
            DistinctIds(record.files) ==>
              && (GoodTotals(t) <==> GoodRecord(id, record))
              && (GoodRecord(id, record) && Sum(Sizes(t.files)) < TWO_64 ==> t.totalSize == Sum(Sizes(t.files)))
              && (GoodRecord(id, record) && Sum(Transferreds(t.files)) < TWO_64 ==>
                    t.totalTransferred == Sum(Transferreds(t.files)))
  {
    GapStays(steps, id);
    var record, t := Origin(steps, id).value, Run(INITIAL, steps).live[id];
    NoGapIff(t);
    NoGapIff(FromRecord(record));
    if DistinctIds(record.files) {
      RecordTotalsIff(id, record);
    }
  }

  // ----- channels -----

  /** What may happen to a channel in one step. */
  ghost predicate Extends(before: seq<Channel>, after: seq<Channel>, i: nat)
    requires i < |before|
  {
    && i < |after|
    && before[i].ops <= after[i].ops
    && (!IsOpen(before[i]) ==> after[i] == before[i])
  }

  lemma PostExtends(s: State, id: string, ops: seq<ChannelOp>, i: nat)
    requires Inv(s) && i < |s.channels|
    ensures Extends(s.channels, Post(s, id, ops).channels, i)
  {
  }

  lemma PutPosts(s: State, t: TransferState, id: string, ops: seq<ChannelOp>)
    ensures Post(Put(s, t), id, ops).channels == Post(s, id, ops).channels
  {
  }

  lemma ProgressExtends(s: State, id: string, fileId: string, transferred: Uint64, storage: Option<Storage>, i: nat)
    requires Inv(s) && StoredById(storage) && i < |s.channels|
    ensures Extends(s.channels, OnProgress(s, id, fileId, transferred, storage).channels, i)
  {
    LookupKeyed(s, id, storage);
    var r := Lookup(s, id, storage);
    if r.Some? && fileId in r.value.1.files {
      var t1 := Progressed(r.value.1, fileId, transferred);
      var ops := [Send(ProgressInfo(id, Percent(t1), ONGOING))];
      PutPosts(r.value.0, t1, id, ops);
      LookupKeepsInv(s, id, storage);
      PostExtends(r.value.0, id, ops, i);
    }
  }

  lemma TransferEndExtends(s: State, id: string, end: TransferEnd, storage: Option<Storage>, reload: Option<Storage>,
                           i: nat)
    requires Inv(s) && StoredById(storage) && i < |s.channels|
    ensures Extends(s.channels, OnTransferEnd(s, id, end, storage, reload).channels, i)
  {
    LookupKeyed(s, id, storage);
    var r := Lookup(s, id, storage);
    if r.Some? && FinalStatus(r.value.1, id, end, reload).Some? {
      var status := FinalStatus(r.value.1, id, end, reload).value;
      LookupKeepsInv(s, id, storage);
      PostExtends(r.value.0, id, [Send(ProgressInfo(id, 0, status)), Close], i);
    }
  }

  lemma FileEndKeepsChannels(s: State, id: string, fileId: string, remove: bool, storage: Option<Storage>)
    ensures var s1 := OnFileEnd(s, id, fileId, remove, storage);
            s1.channels == s.channels && s1.subscriptions == s.subscriptions
  {
  }

  lemma OthersKeepChannels(s: State, ev: Event, storage: Option<Storage>, reload: Option<Storage>)
    requires !ev.FileProgress? && !ev.TransferFailed? && !ev.TransferFinalized?
    ensures var s1 := OnEvent(s, ev, storage, reload); s1.channels == s.channels && s1.subscriptions == s.subscriptions
  {
    match ev
    case FileDownloaded(id, fileId) => FileEndKeepsChannels(s, id, fileId, false, storage);
    case FileUploaded(id, fileId) => FileEndKeepsChannels(s, id, fileId, false, storage);
    case FileRejected(id, fileId) => FileEndKeepsChannels(s, id, fileId, true, storage);
    case FileFailed(id, fileId, _) => FileEndKeepsChannels(s, id, fileId, true, storage);
    case _ =>
  }

  /** Nothing is ever done to a channel again once it is closed, and what was sent is never taken back. */
  lemma ClosedIsFinal(s: State, step: Step, i: nat)
    requires Inv(s) && StoredStep(step) && i < |s.channels|
    ensures Extends(s.channels, Next(s, step).channels, i)
  {
    match step
    case Subscribe(_) =>
    case Handle(ev, storage, reload) =>
      match ev
      case FileProgress(id, fileId, transferred) => ProgressExtends(s, id, fileId, transferred, storage, i);
      case TransferFailed(id, status) => TransferEndExtends(s, id, Failed(status), storage, reload, i);
      case TransferFinalized(id, byPeer) => TransferEndExtends(s, id, Finalized(byPeer), storage, reload, i);
      case _ => OthersKeepChannels(s, ev, storage, reload);
  }

  /** The channel is the one that its transfer is subscribed with. */
  ghost predicate Current(s: State, i: nat)
    requires i < |s.channels|
  {
    var id := s.channels[i].subject;
    id in s.subscriptions && s.subscriptions[id] == i
  }

  /** A channel that is not current stays as it is, and does not become current again. */
  ghost predicate Abandoned(s: State, s1: State, i: nat)
    requires i < |s.channels|
  {
    i < |s1.channels| && s1.channels[i] == s.channels[i] && !Current(s1, i)
  }

  lemma PostAbandons(s: State, id: string, ops: seq<ChannelOp>, i: nat)
    requires Inv(s) && i < |s.channels| && !Current(s, i)
    ensures Abandoned(s, Post(s, id, ops), i)
  {
  }

  lemma ProgressAbandons(s: State, id: string, fileId: string, transferred: Uint64, storage: Option<Storage>, i: nat)
    requires Inv(s) && StoredById(storage) && i < |s.channels| && !Current(s, i)
    ensures Abandoned(s, OnProgress(s, id, fileId, transferred, storage), i)
  {
    LookupKeyed(s, id, storage);
    LookupKeepsInv(s, id, storage);
    var r := Lookup(s, id, storage);
    if r.Some? && fileId in r.value.1.files {
      var t1 := Progressed(r.value.1, fileId, transferred);
      PutKeepsInv(r.value.0, t1);
      PostAbandons(Put(r.value.0, t1), id, [Send(ProgressInfo(id, Percent(t1), ONGOING))], i);
    }
  }

  lemma TransferEndAbandons(s: State, id: string, end: TransferEnd, storage: Option<Storage>, reload: Option<Storage>,
                            i: nat)
    requires Inv(s) && StoredById(storage) && i < |s.channels| && !Current(s, i)
    ensures Abandoned(s, OnTransferEnd(s, id, end, storage, reload), i)
  {
    LookupKeyed(s, id, storage);
    LookupKeepsInv(s, id, storage);
    var r := Lookup(s, id, storage);
    if r.Some? && FinalStatus(r.value.1, id, end, reload).Some? {
      var status := FinalStatus(r.value.1, id, end, reload).value;
      PostAbandons(r.value.0, id, [Send(ProgressInfo(id, 0, status)), Close], i);
    }
  }

  lemma StepAbandons(s: State, step: Step, i: nat)
    requires Inv(s) && StoredStep(step) && i < |s.channels| && !Current(s, i)
    ensures Abandoned(s, Next(s, step), i)
  {
    match step
    case Subscribe(_) =>
    case Handle(ev, storage, reload) =>
      match ev
      case FileProgress(id, fileId, transferred) => ProgressAbandons(s, id, fileId, transferred, storage, i);
      case TransferFailed(id, status) => TransferEndAbandons(s, id, Failed(status), storage, reload, i);
      case TransferFinalized(id, byPeer) => TransferEndAbandons(s, id, Finalized(byPeer), storage, reload, i);
      case _ => OthersKeepChannels(s, ev, storage, reload);
  }

  /** A channel that is not current never changes again. */
  lemma {:induction false} RunAbandons(s: State, steps: seq<Step>, i: nat)
    requires Inv(s) && StoredSteps(steps) && i < |s.channels| && !Current(s, i)
    ensures Abandoned(s, Run(s, steps), i)
  {
    if steps != [] {
      var front := steps[..|steps| - 1];
      RunAbandons(s, front, i);
      RunKeepsInv(s, front);
      StepAbandons(Run(s, front), steps[|steps| - 1], i);
    }
  }

  /** So a channel that is replaced by a second subscription gets no further message and is never closed: the stream
      that reads from it does not end. */
  lemma ReplacedNeverCloses(s: State, steps: seq<Step>, i: nat)
    requires Inv(s) && StoredSteps(steps) && i < |s.channels| && Current(s, i)
    ensures var s1 := Run(Next(s, Subscribe(s.channels[i].subject)), steps);
            i < |s1.channels| && s1.channels[i] == s.channels[i] && IsOpen(s1.channels[i])
  {
    var step := Subscribe(s.channels[i].subject);
    StepKeepsInv(s, step);
    RunAbandons(Next(s, step), steps, i);
  }

  ghost predicate ClosesIt(s: State, steps: seq<Step>, i: nat) {
    StoredSteps(steps) && i < |Run(s, steps).channels| && !IsOpen(Run(s, steps).channels[i])
  }

  /** An open channel stays open whatever happens iff it is not current. */
  lemma CanCloseIff(s: State, i: nat)
    requires Inv(s) && i < |s.channels| && IsOpen(s.channels[i])
    ensures Current(s, i) <==> exists steps :: ClosesIt(s, steps, i)
  {
    if Current(s, i) {
      var steps := FailsIt(s, i);
    } else {
      forall steps | StoredSteps(steps)
        ensures !ClosesIt(s, steps, i)
      {
        RunAbandons(s, steps, i);
      }
    }
  }

  /** The failure of the transfer closes it. */
  lemma FailsIt(s: State, i: nat) returns (steps: seq<Step>)
    requires Inv(s) && i < |s.channels| && IsOpen(s.channels[i]) && Current(s, i)
    ensures ClosesIt(s, steps, i)
  {
    var id := s.channels[i].subject;
    var storage := Some(map[id := Transfer(id, Incoming, ONGOING, 0, 0, [])]);
    steps := [Handle(TransferFailed(id, SUCCESS), storage, None)];
    assert steps[..0] == [] && Run(s, []) == s;
    assert Run(s, steps) == OnTransferEnd(s, id, Failed(SUCCESS), storage, None);
    LookupKeyed(s, id, storage);
    var ops := [Send(ProgressInfo(id, 0, SUCCESS)), Close];
    assert Run(s, steps).channels[i].ops == s.channels[i].ops + ops;
    assert ops[1] == Close && Close in s.channels[i].ops + ops;
  }

  // ----- progress reports -----

  ghost predicate HonestFiles(t: TransferState) {
    && (forall k :: k in t.files ==> t.files[k].transferred <= t.files[k].size)
    && Sum(Sizes(t.files)) < TWO_64
  }

  ghost predicate AtMost100(ops: seq<ChannelOp>) {
    forall i :: 0 <= i < |ops| && ops[i].Send? ==> 0 <= ops[i].info.percent <= 100
  }

  /** Transfer `id` is honest where it is live, and no report about it exceeds 100. */
  ghost predicate Honest(s: State, id: string) {
    && (id in s.live ==> GoodTotals(s.live[id]) && HonestFiles(s.live[id]))
    && HonestReports(s, id)
  }

  ghost predicate HonestReports(s: State, id: string) {
    forall i :: 0 <= i < |s.channels| && s.channels[i].subject == id ==> AtMost100(s.channels[i].ops)
  }

  /** No file that counts has more bytes transferred than it has. */
  ghost predicate HonestCounted(files: seq<File>) {
    forall i :: 0 <= i < |files| && IsFileTransferred(files[i].status) ==> files[i].transferred <= files[i].size
  }

  ghost predicate HonestRecord(id: string, t: Transfer) {
    && GoodRecord(id, t)
    && HonestCounted(t.files)
    && CountedSize(t.files) < TWO_64
  }

  /** The event looks for a transfer that is not live and finds its record. */
  ghost predicate Loads(s: State, ev: Event, storage: Option<Storage>, id: string) {
    && !ev.Ignored? && !ev.RequestReceived? && ev.transferId == id
    && id !in s.live && storage.Some? && id in storage.value
  }

  /** If the event loads transfer `id`, its record is honest; if it reports progress of one of its files, the
      amount is at most the file's size.  Nothing is asked of other transfers. */
  ghost predicate HonestEvent(s: State, ev: Event, storage: Option<Storage>, id: string) {
    && (Loads(s, ev, storage, id) ==> HonestRecord(id, storage.value[id]))
    && (ev.FileProgress? && ev.transferId == id ==>
          var r := Lookup(s, id, storage);
          r.Some? && ev.fileId in r.value.1.files ==> ev.transferred <= r.value.1.files[ev.fileId].size)
  }

  /** The quotient that a percentage is. */
  lemma Quotient(n: nat, d: nat, q: int)
    requires d > 0 && q == n / d
    ensures d * q <= n < d * q + d
  {
  }

  lemma Scaled(d: nat, q: int, k: int)
    requires d > 0
    ensures q <= k ==> d * q <= d * k
    ensures q > k ==> d * q >= d * k + d
  {
    if q <= k {
      assert d * (k - q) >= 0;
    } else {
      assert d * (q - k - 1) >= 0;
    }
  }

  lemma PercentBound(part: nat, whole: nat)
    requires part <= whole && whole > 0
    ensures 0 <= 100 * part / whole <= 100
  {
    var q := 100 * part / whole;
    Quotient(100 * part, whole, q);
    Scaled(whole, q, 100);
    Scaled(whole, q, -1);
  }

  lemma HonestPercent(t: TransferState)
    requires GoodTotals(t) && HonestFiles(t)
    ensures 0 <= Percent(t) <= 100
  {
    SumMonotone(Transferreds(t.files), Sizes(t.files));
    if t.totalSize > 0 {
      PercentBound(t.totalTransferred, t.totalSize);
    }
  }

  lemma DivExceeds(part: nat, whole: nat)
    requires whole > 0
    ensures 100 * part / whole > 100 <==> 100 * part >= 101 * whole
  {
    var q := 100 * part / whole;
    Quotient(100 * part, whole, q);
    Scaled(whole, q, 100);
  }

  /** Exactly when the transferred bytes pass the sizes by a full percent does a report pass 100. */
  lemma PercentExceeds(t: TransferState)
    requires GoodTotals(t) && 0 < Sum(Sizes(t.files)) < TWO_64 && Sum(Transferreds(t.files)) < TWO_64
    ensures Percent(t) > 100 <==> 100 * Sum(Transferreds(t.files)) >= 101 * Sum(Sizes(t.files))
  {
    DivExceeds(t.totalTransferred, t.totalSize);
  }

  /** An honest transfer with good totals. */
  ghost predicate HonestTransfer(t: TransferState) {
    FilesKeyed(t) && GoodTotals(t) && HonestFiles(t)
  }

  lemma EndedHonest(t: TransferState, fileId: string, remove: bool)
    requires HonestTransfer(t) && fileId in t.files
    ensures HonestTransfer(Ended(t, fileId, remove))
  {
    EndedGap(t, fileId, remove);
    NoGapIff(t);
    NoGapIff(Ended(t, fileId, remove));
    var t1 := Finished(t, fileId);
    assert Sizes(t1.files) == Sizes(t.files);
    if remove {
      RemovedSums(t1, fileId);
    }
  }

  lemma ProgressedHonest(t: TransferState, fileId: string, transferred: Uint64)
    requires HonestTransfer(t) && fileId in t.files && transferred <= t.files[fileId].size
    ensures HonestTransfer(Progressed(t, fileId, transferred))
    ensures 0 <= Percent(Progressed(t, fileId, transferred)) <= 100
  {
    var t1 := Progressed(t, fileId, transferred);
    ProgressedSums(t, fileId, transferred);
    ProgressedGap(t, fileId, transferred);
    NoGapIff(t);
    NoGapIff(t1);
    HonestPercent(t1);
  }

  lemma {:induction false} TrackAllHonest(files: seq<File>)
    requires HonestCounted(files)
    ensures forall k :: k in TrackAll(files) ==> TrackAll(files)[k].transferred <= TrackAll(files)[k].size
  {
    if files != [] {
      TrackAllHonest(files[..|files| - 1]);
    }
  }

  lemma RecordHonest(id: string, record: Transfer)
    requires HonestRecord(id, record)
    ensures HonestTransfer(FromRecord(record))
  {
    TrackAllHonest(record.files);
    TrackAllSums(record.files);
    RecordTotalsIff(id, record);
  }

  /** What an event finds: the transfer it is about, honest if that is `id`, and nothing else changed. */
  lemma LookupHonest(s: State, ev: Event, storage: Option<Storage>, id: string)
    requires Inv(s) && StoredById(storage) && Honest(s, id) && HonestEvent(s, ev, storage, id)
    requires !ev.Ignored? && !ev.RequestReceived?
    ensures var r := Lookup(s, ev.transferId, storage);
            r.Some? ==>
              && Inv(r.value.0) && Honest(r.value.0, id) && r.value.1.id == ev.transferId
              && (ev.transferId == id ==> HonestTransfer(r.value.1))
  {
    LookupKeyed(s, ev.transferId, storage);
    LookupKeepsInv(s, ev.transferId, storage);
    if Loads(s, ev, storage, id) {
      RecordHonest(id, storage.value[id]);
    }
  }

  lemma PutHonest(s: State, t: TransferState, id: string)
    requires Honest(s, id) && (t.id == id ==> HonestTransfer(t))
    ensures Honest(Put(s, t), id)
  {
  }

  lemma PostHonest(s: State, subject: string, ops: seq<ChannelOp>, id: string)
    requires Inv(s) && HonestReports(s, id) && (subject == id ==> AtMost100(ops))
    ensures HonestReports(Post(s, subject, ops), id)
  {
  }

  lemma ProgressKeepsHonest(s: State, ev: Event, storage: Option<Storage>, id: string)
    requires Inv(s) && StoredById(storage) && Honest(s, id) && HonestEvent(s, ev, storage, id) && ev.FileProgress?
    ensures Honest(OnProgress(s, ev.transferId, ev.fileId, ev.transferred, storage), id)
  {
    LookupHonest(s, ev, storage, id);
    var r := Lookup(s, ev.transferId, storage);
    if r.Some? && ev.fileId in r.value.1.files {
      var (s1, t) := r.value;
      var t1 := Progressed(t, ev.fileId, ev.transferred);
      if ev.transferId == id {
        ProgressedHonest(t, ev.fileId, ev.transferred);
      }
      PutHonest(s1, t1, id);
      PostHonest(s1, t.id, [Send(ProgressInfo(ev.transferId, Percent(t1), ONGOING))], id);
    }
  }

  lemma FileEndKeepsHonest(s: State, ev: Event, fileId: string, remove: bool, storage: Option<Storage>, id: string)
    requires Inv(s) && StoredById(storage) && Honest(s, id) && HonestEvent(s, ev, storage, id)
    requires !ev.Ignored? && !ev.RequestReceived?
    ensures Honest(OnFileEnd(s, ev.transferId, fileId, remove, storage), id)
  {
    LookupHonest(s, ev, storage, id);
    var r := Lookup(s, ev.transferId, storage);
    if r.Some? && fileId in r.value.1.files {
      var (s1, t) := r.value;
      if ev.transferId == id {
        EndedHonest(t, fileId, remove);
      }
      EndedKeyed(t, fileId, remove);
      PutHonest(s1, Ended(t, fileId, remove), id);
      FinalizeFinishedHonest(Put(s1, Ended(t, fileId, remove)), Ended(t, fileId, remove), id);
    }
  }

  lemma FinalizeFinishedHonest(s: State, t: TransferState, id: string)
    requires Honest(s, id)
    ensures Honest(FinalizeFinished(s, t), id)
  {
  }

  lemma TransferEndKeepsHonest(s: State, ev: Event, end: TransferEnd, storage: Option<Storage>, reload: Option<Storage>,
                               id: string)
    requires Inv(s) && StoredById(storage) && Honest(s, id) && HonestEvent(s, ev, storage, id)
    requires !ev.Ignored? && !ev.RequestReceived?
    ensures Honest(OnTransferEnd(s, ev.transferId, end, storage, reload), id)
  {
    LookupHonest(s, ev, storage, id);
    var r := Lookup(s, ev.transferId, storage);
    if r.Some? && FinalStatus(r.value.1, ev.transferId, end, reload).Some? {
      var status := FinalStatus(r.value.1, ev.transferId, end, reload).value;
      PostHonest(r.value.0, r.value.1.id, [Send(ProgressInfo(r.value.1.id, 0, status)), Close], id);
    }
  }

  lemma EventKeepsHonest(s: State, ev: Event, storage: Option<Storage>, reload: Option<Storage>, id: string)
    requires Inv(s) && StoredById(storage) && Honest(s, id) && HonestEvent(s, ev, storage, id)
    ensures Honest(OnEvent(s, ev, storage, reload), id)
  {
    var s1 := OnEvent(s, ev, storage, reload);
    match ev
    case Ignored =>
      assert s1 == s;
    case RequestReceived(id', around) =>
      RequestOnlyCalls(s, id', around, storage);
    case FileProgress(id', fileId, transferred) =>
      assert s1 == OnProgress(s, id', fileId, transferred, storage);
      ProgressKeepsHonest(s, ev, storage, id);
    case FileDownloaded(id', fileId) =>
      assert s1 == OnFileEnd(s, id', fileId, false, storage);
      FileEndKeepsHonest(s, ev, fileId, false, storage, id);
    case FileUploaded(id', fileId) =>
      assert s1 == OnFileEnd(s, id', fileId, false, storage);
      FileEndKeepsHonest(s, ev, fileId, false, storage, id);
    case FileRejected(id', fileId) =>
      assert s1 == OnFileEnd(s, id', fileId, true, storage);
      FileEndKeepsHonest(s, ev, fileId, true, storage, id);
    case FileFailed(id', fileId, _) =>
      assert s1 == OnFileEnd(s, id', fileId, true, storage);
      FileEndKeepsHonest(s, ev, fileId, true, storage, id);
    case TransferFailed(id', status) =>
      assert s1 == OnTransferEnd(s, id', Failed(status), storage, reload);
      TransferEndKeepsHonest(s, ev, Failed(status), storage, reload, id);
    case TransferFinalized(id', byPeer) =>
      assert s1 == OnTransferEnd(s, id', Finalized(byPeer), storage, reload);
      TransferEndKeepsHonest(s, ev, Finalized(byPeer), storage, reload, id);
  }

  ghost predicate HonestStep(s: State, step: Step, id: string) {
    step.Handle? ==> HonestEvent(s, step.ev, step.storage, id)
  }

  ghost predicate HonestRun(steps: seq<Step>, id: string) {
    steps != [] ==>
      var front := steps[..|steps| - 1];
      HonestRun(front, id) && HonestStep(Run(INITIAL, front), steps[|steps| - 1], id)
  }

  lemma {:induction false} RunKeepsHonest(steps: seq<Step>, id: string)
    requires StoredSteps(steps) && HonestRun(steps, id)
    ensures Honest(Run(INITIAL, steps), id)
  {
    if steps != [] {
      var front, step := steps[..|steps| - 1], steps[|steps| - 1];
      RunKeepsHonest(front, id);
      RunKeepsInv(INITIAL, front);
      if step.Handle? {
        EventKeepsHonest(Run(INITIAL, front), step.ev, step.storage, step.reload, id);
      }
    }
  }

  /** No report about a transfer ever exceeds 100 if its records and its progress events never exceed the sizes of
      its files, whatever happens to other transfers. */
  lemma ProgressNeverExceeds100(steps: seq<Step>, id: string, i: nat)
    requires StoredSteps(steps) && HonestRun(steps, id)
    requires i < |Run(INITIAL, steps).channels| && Run(INITIAL, steps).channels[i].subject == id
    ensures AtMost100(Run(INITIAL, steps).channels[i].ops)
  {
    RunKeepsHonest(steps, id);
  }

  // ----- finalization -----

  ghost function Unfinished(t: TransferState): set<string> {
    set k | k in t.files && !t.files[k].finished
  }

  /** The file whose end a step reports for transfer `id`, if it does. */
  ghost function EndOf(step: Step, id: string): set<string> {
    if step.Handle? && (step.ev.FileDownloaded? || step.ev.FileUploaded? || step.ev.FileRejected? ||
                        step.ev.FileFailed?)
       && step.ev.transferId == id then {step.ev.fileId}
    else {}
  }

  ghost predicate EndsTransfer(step: Step, id: string) {
    step.Handle? && (step.ev.TransferFailed? || step.ev.TransferFinalized?) && step.ev.transferId == id
  }

  lemma EndedUnfinished(t: TransferState, fileId: string, remove: bool)
    requires fileId in t.files && FilesKeyed(t)
    ensures Unfinished(Ended(t, fileId, remove)) == Unfinished(t) - {fileId}
    ensures AllFinished(Ended(t, fileId, remove)) <==> Unfinished(t) <= {fileId}
  {
    var t1 := Ended(t, fileId, remove);
    assert Unfinished(t1) == Unfinished(t) - {fileId};
    if AllFinished(t1) {
      assert Unfinished(t1) == {};
    } else {
      var k :| k in t1.files && !t1.files[k].finished;
      assert k in Unfinished(t1);
    }
  }

  /** `other` is still live in `s1`, and its unfinished files are those of `s` except `gone`. */
  ghost predicate Still(s: State, s1: State, other: string, gone: set<string>) {
    && other in s.live && other in s1.live
    && s1.live[other].direction == s.live[other].direction
    && Unfinished(s1.live[other]) == Unfinished(s.live[other]) - gone
  }

  lemma FileEndUnfinished(s: State, id: string, fileId: string, remove: bool, storage: Option<Storage>, other: string)
    requires Keyed(s) && StoredById(storage) && other in s.live
    ensures Still(s, OnFileEnd(s, id, fileId, remove, storage), other, if id == other then {fileId} else {})
  {
    LookupKeyed(s, id, storage);
    var r := Lookup(s, id, storage);
    if r.Some? && fileId in r.value.1.files {
      EndedUnfinished(r.value.1, fileId, remove);
      FileEndLive(s, id, fileId, remove, storage);
    }
  }

  lemma ProgressUnfinished(s: State, id: string, fileId: string, transferred: Uint64, storage: Option<Storage>,
                           other: string)
    requires Keyed(s) && StoredById(storage) && other in s.live
    ensures Still(s, OnProgress(s, id, fileId, transferred, storage), other, {})
  {
    LookupKeyed(s, id, storage);
    var r := Lookup(s, id, storage);
    if r.Some? && fileId in r.value.1.files {
      var t1 := Progressed(r.value.1, fileId, transferred);
      assert Unfinished(t1) == Unfinished(r.value.1);
      ProgressLive(s, id, fileId, transferred, storage);
    }
  }

  lemma TransferEndUnfinished(s: State, id: string, end: TransferEnd, storage: Option<Storage>,
                              reload: Option<Storage>, other: string)
    requires Keyed(s) && StoredById(storage) && other in s.live && id != other
    ensures Still(s, OnTransferEnd(s, id, end, storage, reload), other, {})
  {
    LookupKeyed(s, id, storage);
    var r := Lookup(s, id, storage);
    if r.Some? && FinalStatus(r.value.1, id, end, reload).Some? {
      assert OnTransferEnd(s, id, end, storage, reload).live == r.value.0.live - {id};
    }
  }

  /** A live transfer loses an unfinished file exactly when that file's end is reported, and gains none. */
  lemma UnfinishedShrinks(s: State, step: Step, id: string)
    requires Keyed(s) && StoredStep(step) && id in s.live && !EndsTransfer(step, id)
    ensures Still(s, Next(s, step), id, EndOf(step, id))
  {
    match step
    case Subscribe(_) =>
    case Handle(ev, storage, reload) =>
      match ev
      case Ignored =>
      case RequestReceived(_, _) =>
      case FileProgress(id', fileId, transferred) => ProgressUnfinished(s, id', fileId, transferred, storage, id);
      case FileDownloaded(id', fileId) => FileEndUnfinished(s, id', fileId, false, storage, id);
      case FileUploaded(id', fileId) => FileEndUnfinished(s, id', fileId, false, storage, id);
      case FileRejected(id', fileId) => FileEndUnfinished(s, id', fileId, true, storage, id);
      case FileFailed(id', fileId, _) => FileEndUnfinished(s, id', fileId, true, storage, id);
      case TransferFailed(id', status) => TransferEndUnfinished(s, id', Failed(status), storage, reload, id);
      case TransferFinalized(id', byPeer) => TransferEndUnfinished(s, id', Finalized(byPeer), storage, reload, id);
  }

  lemma FileEndCalls(s: State, id: string, fileId: string, remove: bool, storage: Option<Storage>)
    requires Keyed(s) && StoredById(storage)
    ensures var r := Lookup(s, id, storage);
            OnFileEnd(s, id, fileId, remove, storage).calls == s.calls +
              if r.Some? && fileId in r.value.1.files && r.value.1.direction == Incoming &&
                  Unfinished(r.value.1) <= {fileId}
              then [Finalize(id)] else []
  {
    LookupKeyed(s, id, storage);
    var r := Lookup(s, id, storage);
    if r.Some? && fileId in r.value.1.files {
      EndedUnfinished(r.value.1, fileId, remove);
    }
  }

  /** On a file's end, Finalize is called exactly when the transfer is incoming, the file was tracked and
      every file still tracked is finished. */
  lemma FinalizeExactly(s: State, step: Step, id: string)
    requires Keyed(s) && StoredStep(step) && EndOf(step, id) != {}
    ensures var r := Lookup(s, id, step.storage);
            Next(s, step).calls == s.calls +
              if r.Some? && step.ev.fileId in r.value.1.files && r.value.1.direction == Incoming &&
                  Unfinished(r.value.1) <= {step.ev.fileId}
              then [Finalize(id)] else []
  {
    FileEndCalls(s, id, step.ev.fileId, step.ev.FileRejected? || step.ev.FileFailed?, step.storage);
  }

  ghost function EndsIn(steps: seq<Step>, id: string): set<string> {
    if steps == [] then {} else EndsIn(steps[..|steps| - 1], id) + EndOf(steps[|steps| - 1], id)
  }

  lemma CallsGrow(s: State, step: Step)
    ensures s.calls <= Next(s, step).calls
  {
    if step.Handle? {
      EventCallsGrow(s, step.ev, step.storage, step.reload);
    }
  }

  lemma EventCallsGrow(s: State, ev: Event, storage: Option<Storage>, reload: Option<Storage>)
    ensures s.calls <= OnEvent(s, ev, storage, reload).calls
  {
    match ev
    case RequestReceived(id, around) => RequestOnlyCalls(s, id, around, storage);
    case FileDownloaded(id, fileId) => FileEndCallsGrow(s, id, fileId, false, storage);
    case FileUploaded(id, fileId) => FileEndCallsGrow(s, id, fileId, false, storage);
    case FileRejected(id, fileId) => FileEndCallsGrow(s, id, fileId, true, storage);
    case FileFailed(id, fileId, _) => FileEndCallsGrow(s, id, fileId, true, storage);
    case _ =>
  }

  lemma FileEndCallsGrow(s: State, id: string, fileId: string, remove: bool, storage: Option<Storage>)
    ensures s.calls <= OnFileEnd(s, id, fileId, remove, storage).calls
  {
    var r := Lookup(s, id, storage);
    assert r.Some? ==> r.value.0.calls == s.calls;
  }

  /** The step that ends the last unfinished file calls Finalize. */
  lemma FinalizesLast(s: State, step: Step, id: string)
    requires Keyed(s) && StoredStep(step) && id in s.live && s.live[id].direction == Incoming
    requires Unfinished(s.live[id]) != {} && Unfinished(s.live[id]) <= EndOf(step, id)
    ensures Next(s, step).calls == s.calls + [Finalize(id)]
  {
    FinalizeExactly(s, step, id);
    var k :| k in Unfinished(s.live[id]);
  }

  /** Finalize was called for the transfer after the first n calls. */
  ghost predicate FinalizedSince(s: State, n: nat, id: string) {
    n <= |s.calls| && Finalize(id) in s.calls[n..]
  }

  /** Once the end of every unfinished file of an incoming transfer has been reported, the transfer has
      meanwhile been finalized with the library, whatever else happened. */
  lemma {:induction false} AllEndedFinalizes(s: State, steps: seq<Step>, id: string)
    requires Inv(s) && StoredSteps(steps) && id in s.live
    requires s.live[id].direction == Incoming && Unfinished(s.live[id]) != {}
    requires forall i :: 0 <= i < |steps| ==> !EndsTransfer(steps[i], id)
    ensures s.calls <= Run(s, steps).calls && Still(s, Run(s, steps), id, EndsIn(steps, id))
    ensures Unfinished(s.live[id]) <= EndsIn(steps, id) ==> FinalizedSince(Run(s, steps), |s.calls|, id)
  {
    if steps != [] {
      var front, step := steps[..|steps| - 1], steps[|steps| - 1];
      AllEndedFinalizes(s, front, id);
      RunKeepsInv(s, front);
      CallsGrow(Run(s, front), step);
      EndedStep(s, Run(s, front), EndsIn(front, id), step, id);
    }
  }

  lemma EndedStep(s: State, s1: State, ends: set<string>, step: Step, id: string)
    requires Keyed(s1) && StoredStep(step) && !EndsTransfer(step, id)
    requires s.calls <= s1.calls && Still(s, s1, id, ends) && s.live[id].direction == Incoming
    requires Unfinished(s.live[id]) <= ends ==> FinalizedSince(s1, |s.calls|, id)
    ensures Still(s, Next(s1, step), id, ends + EndOf(step, id))
    ensures Unfinished(s.live[id]) <= ends + EndOf(step, id) ==> FinalizedSince(Next(s1, step), |s.calls|, id)
  {
    UnfinishedShrinks(s1, step, id);
    var n, calls := |s.calls|, Next(s1, step).calls;
    CallsGrow(s1, step);
    assert calls[n..] == s1.calls[n..] + calls[|s1.calls|..];
    if Unfinished(s.live[id]) <= ends + EndOf(step, id) && !(Unfinished(s.live[id]) <= ends) {
      FinalizesLast(s1, step, id);
    }
  }

  // ----- which transfers are live -----

  /** The step is about transfer `id` and finds its record. */
  ghost predicate Finds(step: Step, id: string) {
    && step.Handle? && !step.ev.Ignored? && !step.ev.RequestReceived? && step.ev.transferId == id
    && step.storage.Some? && id in step.storage.value
  }

  function EndBy(ev: Event): TransferEnd
    requires ev.TransferFailed? || ev.TransferFinalized?
  {
    if ev.TransferFailed? then Failed(ev.status) else Finalized(ev.byPeer)
  }

  /** The step ends transfer `id`, which is live or has a record, with a status that is known. */
  ghost predicate Drops(s: State, step: Step, id: string) {
    && EndsTransfer(step, id)
    && var r := Lookup(s, id, step.storage);
       r.Some? && FinalStatus(r.value.1, id, EndBy(step.ev), step.reload).Some?
  }

  lemma ProgressKeys(s: State, id: string, fileId: string, transferred: Uint64, storage: Option<Storage>)
    requires Keyed(s) && StoredById(storage)
    ensures OnProgress(s, id, fileId, transferred, storage).live.Keys ==
            s.live.Keys + if Lookup(s, id, storage).Some? then {id} else {}
  {
    LookupKeyed(s, id, storage);
    ProgressLive(s, id, fileId, transferred, storage);
  }

  lemma FileEndKeys(s: State, id: string, fileId: string, remove: bool, storage: Option<Storage>)
    requires Keyed(s) && StoredById(storage)
    ensures OnFileEnd(s, id, fileId, remove, storage).live.Keys ==
            s.live.Keys + if Lookup(s, id, storage).Some? then {id} else {}
  {
    LookupKeyed(s, id, storage);
    FileEndLive(s, id, fileId, remove, storage);
  }

  lemma TransferEndKeys(s: State, id: string, end: TransferEnd, storage: Option<Storage>, reload: Option<Storage>)
    requires Keyed(s) && StoredById(storage)
    ensures var r := Lookup(s, id, storage);
            OnTransferEnd(s, id, end, storage, reload).live.Keys ==
            if r.None? then s.live.Keys
            else if FinalStatus(r.value.1, id, end, reload).Some? then s.live.Keys - {id}
            else s.live.Keys + {id}
  {
    LookupKeyed(s, id, storage);
  }

  /** A step leaves a transfer live iff it was live or is found, and the step does not drop it. */
  lemma LiveStepIff(s: State, step: Step, id: string)
    requires Keyed(s) && StoredStep(step)
    ensures id in Next(s, step).live <==> (id in s.live || Finds(step, id)) && !Drops(s, step, id)
  {
    match step
    case Subscribe(_) =>
    case Handle(ev, storage, reload) =>
      var s1 := OnEvent(s, ev, storage, reload);
      match ev
      case Ignored =>
      case RequestReceived(id', around) => RequestOnlyCalls(s, id', around, storage);
      case FileProgress(id', fileId, transferred) => ProgressKeys(s, id', fileId, transferred, storage);
      case FileDownloaded(id', fileId) => FileEndKeys(s, id', fileId, false, storage);
      case FileUploaded(id', fileId) => FileEndKeys(s, id', fileId, false, storage);
      case FileRejected(id', fileId) => FileEndKeys(s, id', fileId, true, storage);
      case FileFailed(id', fileId, _) => FileEndKeys(s, id', fileId, true, storage);
      case TransferFailed(id', status) => TransferEndKeys(s, id', Failed(status), storage, reload);
      case TransferFinalized(id', byPeer) => TransferEndKeys(s, id', Finalized(byPeer), storage, reload);
  }

  ghost predicate DropsAt(steps: seq<Step>, id: string, j: nat)
    requires j < |steps|
  {
    Drops(Run(INITIAL, steps[..j]), steps[j], id)
  }

  /** Step i finds the transfer, and no step from then on drops it. */
  ghost predicate StaysFrom(steps: seq<Step>, id: string, i: nat) {
    i < |steps| && Finds(steps[i], id) && forall j :: i <= j < |steps| ==> !DropsAt(steps, id, j)
  }

  lemma DropsAtFront(steps: seq<Step>, id: string, n: nat, j: nat)
    requires j < n <= |steps|
    ensures DropsAt(steps[..n], id, j) <==> DropsAt(steps, id, j)
  {
    assert steps[..n][..j] == steps[..j];
  }

  lemma StaysFromLast(steps: seq<Step>, id: string, i: nat)
    requires i < |steps|
    ensures var n := |steps| - 1;
            StaysFrom(steps, id, i) <==>
              (if i == n then Finds(steps[n], id) else StaysFrom(steps[..n], id, i)) && !DropsAt(steps, id, n)
  {
    var n := |steps| - 1;
    forall j | i <= j < n
      ensures DropsAt(steps[..n], id, j) <==> DropsAt(steps, id, j)
    {
      DropsAtFront(steps, id, n, j);
    }
  }

  /** After a run exactly those transfers are live that some event found, live or on record, and that no event has
      dropped since. */
  lemma {:induction false} LiveIff(steps: seq<Step>, id: string)
    requires StoredSteps(steps)
    ensures id in Run(INITIAL, steps).live <==> exists i :: StaysFrom(steps, id, i)
  {
    if steps != [] {
      var n := |steps| - 1;
      var front, last := steps[..n], steps[n];
      LiveIff(front, id);
      RunKeepsInv(INITIAL, front);
      LiveStepIff(Run(INITIAL, front), last, id);
      forall i | 0 <= i <= n
        ensures StaysFrom(steps, id, i) <==>
                (if i == n then Finds(last, id) else StaysFrom(front, id, i)) && !DropsAt(steps, id, n)
      {
        StaysFromLast(steps, id, i);
      }
      if id in Run(INITIAL, steps).live {
        if i :| 0 <= i < n && StaysFrom(front, id, i) {
          assert StaysFrom(steps, id, i);
        } else {
          assert StaysFrom(steps, id, n);
        }
      }
    }
  }

  /** A file event that comes after its transfer has ended makes the transfer live again, for good unless another end
      is reported. */
  lemma LateEventRevives(record: Transfer, code: Status, fileId: string)
    ensures var storage := Some(map[record.id := record]);
            var end := Handle(TransferFailed(record.id, code), storage, None);
            var late := Handle(FileRejected(record.id, fileId), storage, None);
            record.id !in Next(INITIAL, end).live && record.id in Run(INITIAL, [end, late]).live
  {
    var storage := Some(map[record.id := record]);
    var end := Handle(TransferFailed(record.id, code), storage, None);
    var late := Handle(FileRejected(record.id, fileId), storage, None);
    RunTwo(INITIAL, end, late);
    LiveStepIff(INITIAL, end, record.id);
    StepKeepsInv(INITIAL, end);
    LiveStepIff(Next(INITIAL, end), late, record.id);
  }
}
