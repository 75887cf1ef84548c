/** The delivery logger: every operation reads the whole table, changes rows in
    a local copy, and writes the whole table back. A read that fails after its
    retries is the readOk = false case: the operation then writes nothing. */
module DeliveryLogger {
  import opened Records
  import ApiClient
  import opened DeliveryTable

  class ExcelLogger {
    /** The rows of the log file, in file order. */
    var rows: seq<Row>

    constructor (existing: seq<Row>)
      ensures rows == existing
    {
      rows := existing;
    }

    /** log_message_batch: appends one row per result. */
    method LogMessageBatch(readOk: bool, results: seq<SendRecord>, now: int) returns (ok: bool)
      modifies this
      ensures ok == readOk
      ensures rows == if readOk then Ingested(old(rows), results, now) else old(rows)
    {
      if !readOk {
        return false;
      }
      var logData: seq<Row> := [];
      for k := 0 to |results|
        invariant |logData| == k
        invariant forall j :: 0 <= j < k ==> logData[j] == NewRow(results[j], now)
      {
        var r := results[k];
        var entry := Row(r.name.GetOr(""), r.phone.GetOr(""), r.message.GetOr(""), r.timestamp,
                         r.status.GetOr(Unknown), r.messageId, now, 0, None, FollowUpPending, None, "",
                         Entries([]));
        logData := logData + [entry];
      }
      rows := rows + logData;
      assert rows == Ingested(old(rows), results, now);
      return true;
    }

    /** update_delivery_status: sets the status string of the last row with the id. */
    method UpdateDeliveryStatus(readOk: bool, id: string, status: string, now: int) returns (ok: bool)
      modifies this
      ensures ok <==> readOk && LastMatch(old(rows), id).Some?
      ensures rows == if readOk then StatusSet(old(rows), id, ParseStatus(status), now) else old(rows)
    {
      if !readOk {
        return false;
      }
      var df := rows;
      var match_ := LastMatch(df, id);
      if match_.None? {
        return false;
      }
      var idx := match_.value;
      df := df[idx := df[idx].(status := ParseStatus(status), lastUpdated := now)];
      rows := df;
      return true;
    }

    /** update_reply_status: records a reply on the last row with the id. */
    method UpdateReplyStatus(readOk: bool, id: string, text: string, timestamp: Option<string>, now: int)
      returns (ok: bool)
      modifies this
      ensures ok <==> readOk && LastMatch(old(rows), id).Some?
      ensures rows == if readOk then ReplySet(old(rows), id, Reply(text, timestamp), now) else old(rows)
    {
      if !readOk {
        return false;
      }
      var df := rows;
      var match_ := LastMatch(df, id);
      if match_.None? {
        return false;
      }
      var idx := match_.value;
      var histList := ParsedHistory(df[idx].history);
      histList := histList + [Reply(text, timestamp)];
      df := df[idx := df[idx].(history := Entries(histList), status := Success,
                               followUp := NotRequired, lastUpdated := now)];
      rows := df;
      return true;
    }

    /** retry_failed_messages: resends every due failed row; sends(j) answers the resend of row j. */
    method RetryFailedMessages(readOk: bool, sends: nat -> ApiClient.SendResponse, now: int)
      modifies this
      ensures rows == if readOk then Retried(old(rows), sends, now) else old(rows)
    {
      if !readOk {
        return;
      }
      var df := rows;
      for idx := 0 to |df|
        invariant |df| == |old(rows)|
        invariant forall j :: 0 <= j < idx ==> df[j] == Retried(old(rows), sends, now)[j]
        invariant forall j :: idx <= j < |df| ==> df[j] == old(rows)[j]
      {
        var row := df[idx];
        if row.status == Failed && row.retryCount < MaxRetries {
          if row.nextRetry.None? || row.nextRetry.value <= now {
            var res := ApiClient.SendMessage(sends(idx));
            df := df[idx := row.(status := res.status, messageId := res.messageId,
                                 retryCount := row.retryCount + 1, lastUpdated := now,
                                 nextRetry := Some(now + RetryBackoff))];
          }
        }
      }
      rows := df;
    }

    /** send_followups: one follow-up to every due row; sends(j) answers the follow-up of row j. */
    method SendFollowups(readOk: bool, sends: nat -> ApiClient.SendResponse, now: int)
      modifies this
      ensures rows == if readOk then SentFollowups(old(rows), sends, now) else old(rows)
    {
      if !readOk {
        return;
      }
      var df := rows;
      for idx := 0 to |df|
        invariant |df| == |old(rows)|
        invariant forall j :: 0 <= j < idx ==> df[j] == SentFollowups(old(rows), sends, now)[j]
        invariant forall j :: idx <= j < |df| ==> df[j] == old(rows)[j]
      {
        var row := df[idx];
        if row.status == Sent && NoReplies(row.history) && row.followUp == FollowUpPending {
          if row.sentAt.Some? && now - row.sentAt.value >= FollowupDelay {
            var followupMsg := FollowupText(row.name);
            var res := ApiClient.SendMessage(sends(idx));
            var outcome := if res.status == Queued || res.status == Sent then FollowUpSent else FollowUpFailed;
            df := df[idx := row.(followUp := outcome, followUpSentAt := Some(now),
                                 followUpMessage := followupMsg, lastUpdated := now)];
          }
        }
      }
      rows := df;
    }

    /** Step 1 of a monitor iteration: polls every queued snapshot row that has a
        Message_ID and writes the polled status only when it differs. */
    method PollStatuses(snapshot: seq<Row>, statuses: nat -> ApiClient.StatusResponse, now: int)
      modifies this
      ensures rows == PolledStatuses(old(rows), snapshot, statuses, now, 0)
    {
      for i := 0 to |snapshot|
        invariant PolledStatuses(rows, snapshot, statuses, now, i)
               == PolledStatuses(old(rows), snapshot, statuses, now, 0)
      {
        var row := snapshot[i];
        if row.status == Queued && row.messageId.Some? && row.messageId.value != "" {
          var status := ApiClient.GetMessageStatus(statuses(i));
          if status != row.status {
            ParseName(status);
            var updated := UpdateDeliveryStatus(true, row.messageId.value, Name(status), now);
          }
        }
      }
    }

    /** Step 3 of a monitor iteration: polls every sent snapshot row whose history
        is empty or "[]" and that was sent within the hour, and records a reply. */
    method PollReplies(snapshot: seq<Row>, replies: nat -> ApiClient.ReplyResponse, now: int)
      modifies this
      ensures rows == PolledReplies(old(rows), snapshot, replies, now, 0)
    {
      for i := 0 to |snapshot|
        invariant PolledReplies(rows, snapshot, replies, now, i)
               == PolledReplies(old(rows), snapshot, replies, now, 0)
      {
        var row := snapshot[i];
        if row.status == Sent && (row.history.Missing? || row.history == Entries([])) {
          if row.sentAt.Some? && now - row.sentAt.value <= ReplyWindow {
            var data := ApiClient.GetReply(replies(i));
            if data.reply.Some? && data.reply.value != "" && row.messageId.Some? {
              var recorded := UpdateReplyStatus(true, row.messageId.value, data.reply.value, data.timestamp, now);
            }
          }
        }
      }
    }

    /** One iteration of the monitor loop at time now: statuses, retries, replies,
        follow-ups. The status and reply steps choose their rows from the snapshot
        read at the start; every operation it calls reads the table afresh. */
    method MonitorCycle(readOk: bool, answers: Answers, now: int)
      modifies this
      ensures rows == if readOk then MonitorPass(old(rows), answers, now) else old(rows)
    {
      if !readOk {
        return;
      }
      var snapshot := rows;
      PollStatuses(snapshot, answers.statuses, now);
      RetryFailedMessages(true, answers.resends, now);
      PollReplies(snapshot, answers.replies, now);
      SendFollowups(true, answers.followups, now);
    }
  }
}
