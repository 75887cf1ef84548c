/** The delivery log as a value: what each whole-table operation of the logger
    turns the table into. The logger class applies these to its rows. */
module DeliveryTable {
  import opened Records
  import ApiClient

  const MaxRetries: nat := 5
  /** Fixed backoff between two retries of one row, in seconds. */
  const RetryBackoff: int := 60
  /** Quiet period before a follow-up, in seconds. */
  const FollowupDelay: int := 600
  /** Replies are polled only this long after the first send, in seconds. */
  const ReplyWindow: int := 3600

  /** The columns that never change once a row is written. */
  predicate SameMessage(a: Row, b: Row) {
    a.name == b.name && a.phone == b.phone && a.message == b.message && a.sentAt == b.sentAt
  }

  // ---------------------------------------------------------------- ingest

  /** What a row logged from one result dictionary holds. */
  predicate Logged(r: Row, e: SendRecord, now: int) {
    && r.name == e.name.GetOr("") && r.phone == e.phone.GetOr("") && r.message == e.message.GetOr("")
    && r.sentAt == e.timestamp && r.messageId == e.messageId && r.lastUpdated == now
    && r.status == (if e.status.Some? then e.status.value else Unknown)
    && r.retryCount == 0 && r.nextRetry == None
    && r.followUp == FollowUpPending && r.followUpSentAt == None && r.followUpMessage == ""
    && r.history == Entries([])
  }

  /** The row log_message_batch builds from one result. */
  function NewRow(e: SendRecord, now: int): (r: Row)
    ensures Logged(r, e, now)
  {
    Row(e.name.GetOr(""), e.phone.GetOr(""), e.message.GetOr(""), e.timestamp, e.status.GetOr(Unknown),
        e.messageId, now, 0, None, FollowUpPending, None, "", Entries([]))
  }

  /** log_message_batch: one new row per result, after the existing rows, which are kept. */
  function Ingested(rows: seq<Row>, batch: seq<SendRecord>, now: int): (t: seq<Row>)
    ensures |t| == |rows| + |batch|
    ensures t[..|rows|] == rows
    ensures forall k :: 0 <= k < |batch| ==> Logged(t[|rows| + k], batch[k], now)
  {
    rows + seq(|batch|, k requires 0 <= k < |batch| => NewRow(batch[k], now))
  }

  // ---------------------------------------------------------------- lookup by Message_ID

  /** Row j is the last row whose Message_ID is id. */
  predicate IsLastMatch(rows: seq<Row>, j: int, id: string) {
    && 0 <= j < |rows| && rows[j].messageId == Some(id)
    && forall k :: j < k < |rows| ==> rows[k].messageId != Some(id)
  }

  /** df[df["Message_ID"] == id].index[-1], if there is a match. */
  function LastMatch(rows: seq<Row>, id: string): (k: Option<nat>)
    ensures k.Some? ==> IsLastMatch(rows, k.value, id)
    ensures k.None? ==> forall j :: 0 <= j < |rows| ==> rows[j].messageId != Some(id)
    decreases |rows|
  {
    if rows == [] then None
    else if rows[|rows| - 1].messageId == Some(id) then Some(|rows| - 1)
    else LastMatch(rows[..|rows| - 1], id)
  }

  // ---------------------------------------------------------------- update_delivery_status

  /** update_delivery_status with a readable table: the last row with the id gets
      the status and the time; every other row, and every other column, is kept. */
  function StatusSet(rows: seq<Row>, id: string, status: Status, now: int): (t: seq<Row>)
    ensures |t| == |rows|
    ensures forall j :: 0 <= j < |rows| ==>
      t[j] == if IsLastMatch(rows, j, id) then rows[j].(status := status, lastUpdated := now) else rows[j]
    ensures LastMatch(rows, id).None? ==> t == rows
  {
    match LastMatch(rows, id)
    case None => rows
    case Some(k) => rows[k := rows[k].(status := status, lastUpdated := now)]
  }

  // ---------------------------------------------------------------- update_reply_status

  /** json.loads of the history, with an empty or unreadable cell read as []. */
  function ParsedHistory(h: History): (s: seq<Reply>)
    ensures h.Entries? ==> s == h.replies
    ensures !h.Entries? ==> s == []
  {
    match h
    case Entries(replies) => replies
    case Missing => []
    case Unreadable(_) => []
  }

  /** A row after a reply is recorded on it. */
  function WithReply(r: Row, reply: Reply, now: int): (r': Row)
    ensures HasReply(r') && r'.history.replies == ParsedHistory(r.history) + [reply]
    ensures r'.status == Success && r'.followUp == NotRequired && r'.lastUpdated == now
    ensures r' == r.(history := r'.history, status := Success, followUp := NotRequired, lastUpdated := now)
  {
    r.(history := Entries(ParsedHistory(r.history) + [reply]), status := Success,
       followUp := NotRequired, lastUpdated := now)
  }

  /** update_reply_status with a readable table: the reply is recorded on the last row with the id only. */
  function ReplySet(rows: seq<Row>, id: string, reply: Reply, now: int): (t: seq<Row>)
    ensures |t| == |rows|
    ensures forall j :: 0 <= j < |rows| ==>
      t[j] == if IsLastMatch(rows, j, id) then WithReply(rows[j], reply, now) else rows[j]
    ensures LastMatch(rows, id).None? ==> t == rows
  {
    match LastMatch(rows, id)
    case None => rows
    case Some(k) => rows[k := WithReply(rows[k], reply, now)]
  }

  // ---------------------------------------------------------------- retry_failed_messages

  /** A row retry_failed_messages resends at time now: failed, under the cap,
      and past its backoff. */
  predicate RetryDue(r: Row, now: int): (due: bool)
    ensures due ==> r.status == Failed && r.retryCount < MaxRetries
    ensures r.nextRetry.Some? && now < r.nextRetry.value ==> !due
  {
    r.status == Failed && r.retryCount < MaxRetries && (r.nextRetry.None? || r.nextRetry.value <= now)
  }

  /** A row after it is resent at time now and the provider answered res. */
  function Resent(r: Row, res: ApiClient.SendResult, now: int): (r': Row)
    ensures r'.retryCount == r.retryCount + 1
    ensures r'.status == res.status && r'.messageId == res.messageId
    ensures r'.nextRetry == Some(now + RetryBackoff) && r'.lastUpdated == now
    ensures r'.(status := r.status, messageId := r.messageId, retryCount := r.retryCount,
                lastUpdated := r.lastUpdated, nextRetry := r.nextRetry) == r
    ensures forall later :: later < now + RetryBackoff ==> !RetryDue(r', later)
  {
    r.(status := res.status, messageId := res.messageId, retryCount := r.retryCount + 1,
       lastUpdated := now, nextRetry := Some(now + RetryBackoff))
  }

  function RetriedRow(r: Row, response: ApiClient.SendResponse, now: int): Row {
    if RetryDue(r, now) then Resent(r, ApiClient.SendMessage(response), now) else r
  }

  /** retry_failed_messages with a readable table; sends(j) is the provider's
      answer to the resend of row j. */
  function Retried(rows: seq<Row>, sends: nat -> ApiClient.SendResponse, now: int): (t: seq<Row>)
    ensures |t| == |rows|
    ensures forall j :: 0 <= j < |rows| && !RetryDue(rows[j], now) ==> t[j] == rows[j]
    ensures forall j :: 0 <= j < |rows| && RetryDue(rows[j], now) ==>
      t[j] == Resent(rows[j], ApiClient.SendMessage(sends(j)), now) && t[j].retryCount <= MaxRetries
  {
    var t := seq(|rows|, j requires 0 <= j < |rows| => RetriedRow(rows[j], sends(j), now));
    assert forall j :: 0 <= j < |rows| ==> t[j] == RetriedRow(rows[j], sends(j), now);
    t
  }

  // ---------------------------------------------------------------- send_followups

  /** no_replies: an empty cell, unreadable JSON or an empty list, that is, a
      history that reads as no replies at all. */
  predicate NoReplies(h: History): (none: bool)
    ensures none <==> ParsedHistory(h) == []
  {
    match h
    case Missing => true
    case Unreadable(_) => true
    case Entries(replies) => |replies| == 0
  }

  /** A row send_followups writes to at time now: sent, no replies, pending,
      and sent at least ten minutes ago. */
  predicate FollowupDue(r: Row, now: int): (due: bool)
    ensures due ==> r.followUp == FollowUpPending && !HasReply(r) && NoReplies(r.history)
    ensures due ==> r.sentAt.Some? && r.sentAt.value <= now - FollowupDelay
    ensures due ==> !RetryDue(r, now)
  {
    && r.status == Sent && NoReplies(r.history) && r.followUp == FollowUpPending
    && r.sentAt.Some? && now - r.sentAt.value >= FollowupDelay
  }

  function FollowupText(name: string): string {
    "Hi " + name + ", just a quick follow-up\U{2014}any questions about our program?"
  }

  /** A row after its follow-up is sent at time now and the provider answered res. */
  function FollowedUp(r: Row, res: ApiClient.SendResult, now: int): (r': Row)
    ensures r'.followUp == (if res.status == Queued || res.status == Sent then FollowUpSent else FollowUpFailed)
    ensures r'.followUpSentAt == Some(now) && r'.followUpMessage == FollowupText(r.name) && r'.lastUpdated == now
    ensures r'.(followUp := r.followUp, followUpSentAt := r.followUpSentAt, followUpMessage := r.followUpMessage,
                lastUpdated := r.lastUpdated) == r
    ensures forall later :: !FollowupDue(r', later)
  {
    r.(followUp := if res.status == Queued || res.status == Sent then FollowUpSent else FollowUpFailed,
       followUpSentAt := Some(now), followUpMessage := FollowupText(r.name), lastUpdated := now)
  }

  function FollowedUpRow(r: Row, response: ApiClient.SendResponse, now: int): Row {
    if FollowupDue(r, now) then FollowedUp(r, ApiClient.SendMessage(response), now) else r
  }

  /** send_followups with a readable table; sends(j) is the provider's answer to
      the follow-up sent for row j. */
  function SentFollowups(rows: seq<Row>, sends: nat -> ApiClient.SendResponse, now: int): (t: seq<Row>)
    ensures |t| == |rows|
    ensures forall j :: 0 <= j < |rows| && !FollowupDue(rows[j], now) ==> t[j] == rows[j]
    ensures forall j :: 0 <= j < |rows| && FollowupDue(rows[j], now) ==>
      t[j] == FollowedUp(rows[j], ApiClient.SendMessage(sends(j)), now)
    ensures forall j, later :: 0 <= j < |rows| && FollowupDue(rows[j], now) ==> !FollowupDue(t[j], later)
  {
    var t := seq(|rows|, j requires 0 <= j < |rows| => FollowedUpRow(rows[j], sends(j), now));
    assert forall j :: 0 <= j < |rows| ==> t[j] == FollowedUpRow(rows[j], sends(j), now);
    t
  }

  // ---------------------------------------------------------------- one monitor pass

  /** Step 1 polls a snapshot row when it is queued and has a non-empty Message_ID. */
  predicate StatusPollable(r: Row): (polled: bool)
    ensures polled ==> r.messageId.Some? && r.messageId.value != ""
    ensures polled ==> forall now :: !RetryDue(r, now) && !FollowupDue(r, now)
  {
    r.status == Queued && r.messageId.Some? && r.messageId.value != ""
  }

  /** Step 1 for one snapshot row: write the polled status only when it differs. */
  function StatusPolled(t: seq<Row>, row: Row, answer: ApiClient.StatusResponse, now: int): seq<Row> {
    var polled := ApiClient.GetMessageStatus(answer);
    if StatusPollable(row) && polled != row.status then StatusSet(t, row.messageId.value, polled, now) else t
  }

  /** Step 1 for the snapshot rows from index i on, applied to table t. */
  function PolledStatuses(t: seq<Row>, snapshot: seq<Row>, answers: nat -> ApiClient.StatusResponse, now: int, i: nat)
    : (u: seq<Row>)
    ensures |u| == |t|
    ensures forall j :: 0 <= j < |t| ==> u[j] == t[j].(status := u[j].status, lastUpdated := u[j].lastUpdated)
    ensures (forall k :: i <= k < |snapshot| && StatusPollable(snapshot[k]) ==>
               ApiClient.GetMessageStatus(answers(k)) == Queued) ==> u == t
    decreases |snapshot| - i
  {
    if i >= |snapshot| then t
    else PolledStatuses(StatusPolled(t, snapshot[i], answers(i), now), snapshot, answers, now, i + 1)
  }

  /** Step 3 polls a snapshot row when it is sent, its history cell is empty or
      exactly "[]", and it was sent at most an hour ago. */
  predicate ReplyPollable(r: Row, now: int): (polled: bool)
    ensures polled ==> NoReplies(r.history) && !HasReply(r)
    ensures polled ==> r.sentAt.Some? && now <= r.sentAt.value + ReplyWindow
    ensures polled ==> !StatusPollable(r) && !RetryDue(r, now)
  {
    && r.status == Sent && (r.history.Missing? || r.history == Entries([]))
    && r.sentAt.Some? && now - r.sentAt.value <= ReplyWindow
  }

  /** Step 3 for one snapshot row: record a non-empty reply under the row's Message_ID. */
  function ReplyPolled(t: seq<Row>, row: Row, answer: ApiClient.ReplyResponse, now: int): seq<Row> {
    var data := ApiClient.GetReply(answer);
    if ReplyPollable(row, now) && row.messageId.Some? && data.reply.Some? && data.reply.value != ""
    then ReplySet(t, row.messageId.value, Reply(data.reply.value, data.timestamp), now)
    else t
  }

  /** Step 3 for the snapshot rows from index i on, applied to table t. */
  function PolledReplies(t: seq<Row>, snapshot: seq<Row>, answers: nat -> ApiClient.ReplyResponse, now: int, i: nat)
    : (u: seq<Row>)
    ensures |u| == |t|
    ensures forall j :: 0 <= j < |t| ==>
      || u[j] == t[j]
      || (&& HasReply(u[j])
          && u[j] == t[j].(history := u[j].history, status := Success, followUp := NotRequired,
                           lastUpdated := u[j].lastUpdated))
    decreases |snapshot| - i
  {
    if i >= |snapshot| then t
    else PolledReplies(ReplyPolled(t, snapshot[i], answers(i), now), snapshot, answers, now, i + 1)
  }

  /** The provider's answers during one pass, per row index: status polls,
      resends, reply polls and follow-up sends. */
  datatype Answers = Answers(
    statuses: nat -> ApiClient.StatusResponse,
    resends: nat -> ApiClient.SendResponse,
    replies: nat -> ApiClient.ReplyResponse,
    followups: nat -> ApiClient.SendResponse)

  /** Steps 1 and 2 of a pass over a table read as rows. */
  function AfterRetries(rows: seq<Row>, answers: Answers, now: int): seq<Row> {
    Retried(PolledStatuses(rows, rows, answers.statuses, now, 0), answers.resends, now)
  }

  /** Steps 1 to 3; step 3 chooses its rows from the snapshot rows, not from the retried table. */
  function AfterReplies(rows: seq<Row>, answers: Answers, now: int): seq<Row> {
    PolledReplies(AfterRetries(rows, answers, now), rows, answers.replies, now, 0)
  }

  /** One pass of the monitor over a readable table: status, retry, replies, follow-ups. */
  function MonitorPass(rows: seq<Row>, answers: Answers, now: int): (t: seq<Row>)
    ensures |t| == |rows|
    ensures forall j :: 0 <= j < |rows| ==>
      && SameMessage(rows[j], t[j])
      && rows[j].retryCount <= t[j].retryCount <= rows[j].retryCount + 1
      && (HasReply(rows[j]) ==> HasReply(t[j]))
  {
    SentFollowups(AfterReplies(rows, answers, now), answers.followups, now)
  }
}
