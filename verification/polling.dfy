/** What the status and reply steps of a monitor iteration do, row by row, when
    no two rows of the table read share a Message_ID, nor two rows of the table
    the reply step writes to. */
module Polling {
  import opened Records
  import ApiClient
  import opened DeliveryTable

  /** No two rows share a Message_ID. */
  predicate UniqueIds(rows: seq<Row>) {
    forall a, b :: 0 <= a < b < |rows| && rows[a].messageId.Some? ==> rows[a].messageId != rows[b].messageId
  }

  /** t holds the same Message_IDs as the snapshot s, row by row (true of the
      status step, which starts from the snapshot itself). */
  predicate SameIds(t: seq<Row>, s: seq<Row>) {
    |t| == |s| && forall j :: 0 <= j < |t| ==> t[j].messageId == s[j].messageId
  }

  /** The status step writes a polled status for this snapshot row. */
  predicate StatusChanges(snap: Row, answer: ApiClient.StatusResponse) {
    StatusPollable(snap) && ApiClient.GetMessageStatus(answer) != Queued
  }

  /** With unique ids, the row holding an id is the last row with it. */
  lemma LastMatchIsOwnRow(t: seq<Row>, i: nat, id: string)
    requires UniqueIds(t) && i < |t| && t[i].messageId == Some(id)
    ensures forall j :: 0 <= j < |t| ==> (IsLastMatch(t, j, id) <==> j == i)
  {
    forall j | 0 <= j < |t| && j != i
      ensures !IsLastMatch(t, j, id)
    {
      if j < i {
        assert t[i].messageId == Some(id);
      } else {
        assert t[i].messageId != t[j].messageId;
      }
    }
  }

  /** One row of step 1: only the table row matching snapshot row i may change. */
  lemma StatusPolledOne(t: seq<Row>, snapshot: seq<Row>, answer: ApiClient.StatusResponse, now: int, i: nat)
    requires SameIds(t, snapshot) && UniqueIds(snapshot) && i < |snapshot|
    ensures var t' := StatusPolled(t, snapshot[i], answer, now);
      && SameIds(t', snapshot)
      && (forall j :: 0 <= j < |t| && j != i ==> t'[j] == t[j])
      && t'[i] == if StatusChanges(snapshot[i], answer)
                  then t[i].(status := ApiClient.GetMessageStatus(answer), lastUpdated := now)
                  else t[i]
  {
    if StatusChanges(snapshot[i], answer) {
      assert UniqueIds(t) by {
        forall a, b | 0 <= a < b < |t| && t[a].messageId.Some?
          ensures t[a].messageId != t[b].messageId
        {
          assert t[a].messageId == snapshot[a].messageId && t[b].messageId == snapshot[b].messageId;
        }
      }
      LastMatchIsOwnRow(t, i, snapshot[i].messageId.value);
    }
  }

  /** With unique ids, step 1 sets the polled status on exactly the queued rows
      with a Message_ID whose polled status is not "queued", and on no other row. */
  lemma {:induction false} PolledStatusesExactly(
    t: seq<Row>, snapshot: seq<Row>, answers: nat -> ApiClient.StatusResponse, now: int, i: nat)
    requires SameIds(t, snapshot) && UniqueIds(snapshot)
    ensures var u := PolledStatuses(t, snapshot, answers, now, i);
      forall j :: 0 <= j < |t| ==>
        u[j] == if i <= j && StatusChanges(snapshot[j], answers(j))
                then t[j].(status := ApiClient.GetMessageStatus(answers(j)), lastUpdated := now)
                else t[j]
    decreases |snapshot| - i
  {
    if i < |snapshot| {
      var t' := StatusPolled(t, snapshot[i], answers(i), now);
      StatusPolledOne(t, snapshot, answers(i), now, i);
      PolledStatusesExactly(t', snapshot, answers, now, i + 1);
    }
  }

  /** Polling twice with the provider reporting the same statuses writes nothing
      the second time. */
  lemma StatusPollIdempotent(rows: seq<Row>, answers: nat -> ApiClient.StatusResponse, now: int)
    requires UniqueIds(rows)
    ensures var once := PolledStatuses(rows, rows, answers, now, 0);
      PolledStatuses(once, once, answers, now, 0) == once
  {
    var once := PolledStatuses(rows, rows, answers, now, 0);
    PolledStatusesExactly(rows, rows, answers, now, 0);
    forall k | 0 <= k < |once|
      ensures StatusPollable(once[k]) ==> ApiClient.GetMessageStatus(answers(k)) == Queued
    {
      if StatusChanges(rows[k], answers(k)) {
        assert !StatusPollable(once[k]);
      }
    }
  }

  /** A status poll that fails is written as "unknown", a status no step of the
      monitor polls, retries or follows up again. */
  lemma FailedPollWritesUnknown(rows: seq<Row>, answers: nat -> ApiClient.StatusResponse, now: int, j: nat)
    requires UniqueIds(rows) && j < |rows| && StatusPollable(rows[j]) && answers(j).StatusError?
    ensures var r := PolledStatuses(rows, rows, answers, now, 0)[j];
      && r.status == Unknown && !StatusPollable(r)
      && forall later :: !RetryDue(r, later) && !FollowupDue(r, later) && !ReplyPollable(r, later)
  {
    PolledStatusesExactly(rows, rows, answers, now, 0);
  }

  /** The reply step records a reply for this snapshot row at time now. */
  predicate ReplyArrives(snap: Row, answer: ApiClient.ReplyResponse, now: int) {
    var data := ApiClient.GetReply(answer);
    ReplyPollable(snap, now) && snap.messageId.Some? && data.reply.Some? && data.reply.value != ""
  }

  /** The reply the provider sent for a row the reply step records. */
  function ArrivedReply(answer: ApiClient.ReplyResponse): Reply
    requires ApiClient.GetReply(answer).reply.Some?
  {
    Reply(ApiClient.GetReply(answer).reply.value, ApiClient.GetReply(answer).timestamp)
  }

  /** Every row the reply step may poll still holds the snapshot's Message_ID
      in the table it writes to; other rows may have been given new ids by a
      resend. */
  predicate ReplyIdsKept(t: seq<Row>, snapshot: seq<Row>, now: int) {
    && |t| == |snapshot|
    && forall j :: 0 <= j < |t| && ReplyPollable(snapshot[j], now) ==> t[j].messageId == snapshot[j].messageId
  }

  /** One row of step 3: only the table row matching snapshot row i may change. */
  lemma ReplyPolledOne(t: seq<Row>, snapshot: seq<Row>, answer: ApiClient.ReplyResponse, now: int, i: nat)
    requires UniqueIds(t) && ReplyIdsKept(t, snapshot, now) && i < |snapshot|
    ensures var t' := ReplyPolled(t, snapshot[i], answer, now);
      && UniqueIds(t') && ReplyIdsKept(t', snapshot, now)
      && (forall j :: 0 <= j < |t| && j != i ==> t'[j] == t[j])
      && t'[i] == if ReplyArrives(snapshot[i], answer, now) then WithReply(t[i], ArrivedReply(answer), now) else t[i]
  {
    var t' := ReplyPolled(t, snapshot[i], answer, now);
    if ReplyArrives(snapshot[i], answer, now) {
      LastMatchIsOwnRow(t, i, snapshot[i].messageId.value);
    }
    assert forall j :: 0 <= j < |t| ==> t'[j].messageId == t[j].messageId;
  }

  /** With unique ids in the table it writes to, and the polled rows' ids kept,
      step 3 records exactly one reply on each sent, reply-less, recent snapshot
      row whose poll brought a non-empty reply, and changes no other row. */
  lemma {:induction false} PolledRepliesExactly(
    t: seq<Row>, snapshot: seq<Row>, answers: nat -> ApiClient.ReplyResponse, now: int, i: nat)
    requires UniqueIds(t) && ReplyIdsKept(t, snapshot, now)
    ensures var u := PolledReplies(t, snapshot, answers, now, i);
      forall j :: 0 <= j < |t| ==>
        u[j] == if i <= j && ReplyArrives(snapshot[j], answers(j), now)
                then WithReply(t[j], ArrivedReply(answers(j)), now)
                else t[j]
    decreases |snapshot| - i
  {
    if i < |snapshot| {
      var t' := ReplyPolled(t, snapshot[i], answers(i), now);
      ReplyPolledOne(t, snapshot, answers(i), now, i);
      PolledRepliesExactly(t', snapshot, answers, now, i + 1);
    }
  }

  /** Steps 1 and 2 keep the Message_ID of every row step 3 may poll: such a row
      is sent, so step 1 leaves it alone and step 2 does not resend it. */
  lemma RetriesKeepReplyIds(rows: seq<Row>, answers: Answers, now: int)
    requires UniqueIds(rows)
    ensures ReplyIdsKept(AfterRetries(rows, answers, now), rows, now)
  {
    PolledStatusesExactly(rows, rows, answers.statuses, now, 0);
  }

  /** Step 3 of a whole pass: with unique ids in the table read and in the table
      after the retries, exactly the eligible snapshot rows whose poll brought a
      reply get it, each once, even when step 2 gave other rows new ids. */
  lemma ReplyStepExactly(rows: seq<Row>, answers: Answers, now: int)
    requires UniqueIds(rows) && UniqueIds(AfterRetries(rows, answers, now))
    ensures var t := AfterRetries(rows, answers, now);
      var u := AfterReplies(rows, answers, now);
      forall j :: 0 <= j < |rows| ==>
        u[j] == if ReplyArrives(rows[j], answers.replies(j), now)
                then WithReply(t[j], ArrivedReply(answers.replies(j)), now)
                else t[j]
  {
    RetriesKeepReplyIds(rows, answers, now);
    PolledRepliesExactly(AfterRetries(rows, answers, now), rows, answers.replies, now, 0);
  }

  /** The reply step's own test (empty cell or exactly "[]") admits fewer rows
      than no_replies: a row whose history cell cannot be parsed still gets a
      follow-up but is never polled for a reply. */
  lemma ReplyCheckStricterThanNoReplies(r: Row, now: int)
    ensures ReplyPollable(r, now) ==> NoReplies(r.history)
    ensures r.history.Unreadable? ==> NoReplies(r.history) && !ReplyPollable(r, now)
  {
  }

  /** A row that got its reply in step 3 of an iteration gets no follow-up in step 4. */
  lemma RepliedRowSkipsFollowup(rows: seq<Row>, answers: Answers, now: int, j: nat)
    requires j < |rows|
    requires AfterReplies(rows, answers, now)[j] != AfterRetries(rows, answers, now)[j]
    ensures HasReply(AfterReplies(rows, answers, now)[j])
    ensures MonitorPass(rows, answers, now)[j] == AfterReplies(rows, answers, now)[j]
  {
  }
}
