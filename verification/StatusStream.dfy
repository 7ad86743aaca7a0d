/** fileshare/server.go: relaying a subscription channel to an rpc client. */
module StatusStream {
  import opened Options
  import opened Transfers
  import opened TransferInvariants
  import opened TransferRuns

  datatype StatusResponse = StatusResponse(transferId: string, progress: int, status: Status)

  predicate EndsStream(status: Status) {
    status == SUCCESS || status == FINISHED_WITH_ERRORS || status == CANCELED_BY_PEER || status == CANCELED
  }

  /** The messages a channel delivers before it is closed. */
  function Messages(ops: seq<ChannelOp>): seq<ProgressInfo> {
    if ops == [] || ops[|ops| - 1].Close? then if ops == [] then [] else Messages(ops[..|ops| - 1])
    else Messages(ops[..|ops| - 1]) + [ops[|ops| - 1].info]
  }

  /** Everything a message makes the client see; statuses other than ONGOING and the four final ones
      are dropped silently. */
  function Shown(m: ProgressInfo): seq<StatusResponse> {
    if m.status == ONGOING then [StatusResponse(m.transferId, m.percent, ONGOING)]
    else if EndsStream(m.status) then [StatusResponse(m.transferId, 0, m.status)]
    else []
  }

  function AllShown(ms: seq<ProgressInfo>): seq<StatusResponse> {
    if ms == [] then [] else AllShown(ms[..|ms| - 1]) + Shown(ms[|ms| - 1])
  }

  lemma {:induction false} ProgressMessages(ops: seq<ChannelOp>, subject: string)
    requires AllProgress(ops, subject)
    ensures forall i :: 0 <= i < |Messages(ops)| ==> Messages(ops)[i].status == ONGOING
    ensures |Messages(ops)| == |ops|
  {
    if ops != [] {
      assert IsProgress(ops[|ops| - 1], subject);
      ProgressMessages(ops[..|ops| - 1], subject);
    }
  }

  lemma MessagesOfClosed(c: Channel)
    requires GoodChannel(c) && !IsOpen(c)
    ensures var ms := Messages(c.ops);
            && |ms| >= 1 && ms[|ms| - 1] == c.ops[|c.ops| - 2].info
            && forall i :: 0 <= i < |ms| - 1 ==> ms[i].status == ONGOING
  {
    var front := c.ops[..|c.ops| - 2];
    ProgressMessages(front, c.subject);
    assert c.ops[..|c.ops| - 1][..|c.ops| - 2] == front;
  }

  /** startTransferStatusStream on a channel that the event manager has closed: every message is
      received, so no send to the channel blocks, and the client sees all progress and then the final
      status exactly when it is one of the four. */
  method StartTransferStatusStream(c: Channel) returns (sent: seq<StatusResponse>, received: nat)
    requires GoodChannel(c) && !IsOpen(c)
    ensures received == |Messages(c.ops)|
    ensures sent == AllShown(Messages(c.ops))
  {
    var ms := Messages(c.ops);
    MessagesOfClosed(c);
    sent, received := [], 0;
    while received < |ms|
      invariant received <= |ms| && sent == AllShown(ms[..received])
    {
      var m := ms[received];
      received := received + 1;
      assert ms[..received][..received - 1] == ms[..received - 1];
      if m.status == ONGOING {
        sent := sent + [StatusResponse(m.transferId, m.percent, ONGOING)];
      } else if EndsStream(m.status) {
        sent := sent + [StatusResponse(m.transferId, 0, m.status)];
        assert ms[..received] == ms;
        return;
      }
    }
    assert ms[..received] == ms;
  }

  /** The client learns how its transfer ended exactly for the four statuses the stream knows. */
  lemma FinalStatusShown(c: Channel)
    requires GoodChannel(c) && !IsOpen(c)
    ensures var shown := AllShown(Messages(c.ops)); var final := c.ops[|c.ops| - 2].info.status;
            (exists i :: 0 <= i < |shown| && shown[i].status != ONGOING) <==> EndsStream(final)
    ensures var shown := AllShown(Messages(c.ops)); var final := c.ops[|c.ops| - 2].info.status;
            EndsStream(final) ==> shown != [] && shown[|shown| - 1] == StatusResponse(c.subject, 0, final)
  {
    var ms := Messages(c.ops);
    MessagesOfClosed(c);
    ShownProgress(ms[..|ms| - 1]);
    ClosedSubject(c);
    var last := ms[|ms| - 1];
    var before := AllShown(ms[..|ms| - 1]);
    assert AllShown(ms) == before + Shown(last);
    if EndsStream(last.status) {
      assert (before + Shown(last))[|before|] == StatusResponse(c.subject, 0, last.status);
    } else {
      assert forall m :: m in Shown(last) ==> m.status == ONGOING;
    }
  }

  /** A client subscribes and its transfer fails: the channel is closed, and the client sees nothing at all
      when the code is not one that the stream knows. */
  lemma FailureShown(record: Transfer, code: Status, reload: Option<Storage>)
    ensures var storage := Some(map[record.id := record]);
            var steps := [Subscribe(record.id), Handle(TransferFailed(record.id, code), storage, reload)];
            var channels := Run(INITIAL, steps).channels;
            && |channels| == 1 && !IsOpen(channels[0])
            && (AllShown(Messages(channels[0].ops)) == [] <==> code != ONGOING && !EndsStream(code))
  {
    var storage := Some(map[record.id := record]);
    var last := ProgressInfo(record.id, 0, code);
    RunTwo(INITIAL, Subscribe(record.id), Handle(TransferFailed(record.id, code), storage, reload));
    FailedChannels(Subscribed(INITIAL, record.id), record, code, reload);
    LastShown(last);
  }

  lemma LastShown(last: ProgressInfo)
    ensures AllShown(Messages([Send(last), Close])) == Shown(last)
  {
    var ops := [Send(last), Close];
    assert ops[..1] == [Send(last)] && [Send(last)][..0] == [] && [last][..0] == [];
    assert Messages(ops) == Messages([Send(last)]) == Messages([]) + [last] == [last];
    assert AllShown([last]) == AllShown([]) + Shown(last);
  }

  lemma FailedChannels(s: State, record: Transfer, code: Status, reload: Option<Storage>)
    requires s == Subscribed(INITIAL, record.id)
    ensures OnTransferEnd(s, record.id, Failed(code), Some(map[record.id := record]), reload).channels ==
            [Channel(record.id, [Send(ProgressInfo(record.id, 0, code)), Close])]
  {
    assert [] + [Send(ProgressInfo(record.id, 0, code)), Close] == [Send(ProgressInfo(record.id, 0, code)), Close];
  }

  /** Code 5 is such a code. */
  lemma SilentEnd(record: Transfer, reload: Option<Storage>)
    ensures var storage := Some(map[record.id := record]);
            var steps := [Subscribe(record.id), Handle(TransferFailed(record.id, 5), storage, reload)];
            var channels := Run(INITIAL, steps).channels;
            |channels| == 1 && !IsOpen(channels[0]) && AllShown(Messages(channels[0].ops)) == []
  {
    FailureShown(record, 5, reload);
  }

  lemma ClosedSubject(c: Channel)
    requires GoodChannel(c) && !IsOpen(c)
    ensures c.ops[|c.ops| - 2].info.transferId == c.subject
  {
  }

  lemma {:induction false} ShownProgress(ms: seq<ProgressInfo>)
    requires forall i :: 0 <= i < |ms| ==> ms[i].status == ONGOING
    ensures forall i :: 0 <= i < |AllShown(ms)| ==> AllShown(ms)[i].status == ONGOING
  {
    if ms != [] {
      ShownProgress(ms[..|ms| - 1]);
    }
  }

  lemma {:induction false} ShownAt(ops: seq<ChannelOp>, subject: string, i: nat)
    requires AllProgress(ops, subject) && i < |ops|
    ensures |AllShown(Messages(ops))| == |ops|
    ensures AllShown(Messages(ops))[i] == StatusResponse(subject, ops[i].info.percent, ONGOING)
  {
    var n := |ops| - 1;
    assert IsProgress(ops[n], subject);
    var ms := Messages(ops);
    assert ms == Messages(ops[..n]) + [ops[n].info] && ms[..|ms| - 1] == Messages(ops[..n]);
    if n > 0 {
      ShownAt(ops[..n], subject, if i < n then i else 0);
    } else {
      assert ops[..n] == [];
    }
  }

  lemma ClosedMessages(c: Channel)
    requires GoodChannel(c) && !IsOpen(c)
    ensures var ms, front := Messages(c.ops), c.ops[..|c.ops| - 2];
            ms != [] && ms[..|ms| - 1] == Messages(front) && AllProgress(front, c.subject)
  {
    var front := c.ops[..|c.ops| - 2];
    assert c.ops[..|c.ops| - 1][..|c.ops| - 2] == front;
    assert Messages(c.ops[..|c.ops| - 1]) == Messages(front) + [c.ops[|c.ops| - 2].info];
  }

  /** The client sees every report of progress with its percentage, in order, and after them at most the end. */
  lemma ProgressShown(c: Channel, i: nat)
    requires GoodChannel(c) && !IsOpen(c) && i < |c.ops| - 2
    ensures var shown := AllShown(Messages(c.ops));
            && |c.ops| - 2 <= |shown| <= |c.ops| - 1
            && c.ops[i].Send? && shown[i] == StatusResponse(c.subject, c.ops[i].info.percent, 101)
  {
    var front, ms := c.ops[..|c.ops| - 2], Messages(c.ops);
    ClosedMessages(c);
    ShownAt(front, c.subject, i);
    assert front[i] == c.ops[i] && IsProgress(front[i], c.subject);
    assert AllShown(ms) == AllShown(Messages(front)) + Shown(ms[|ms| - 1]);
  }

  /** The four codes that end a stream. */
  lemma EndsStreamIff(status: Status)
    ensures EndsStream(status) <==> status in {0, 1, 102, 104}
  {
  }
}
