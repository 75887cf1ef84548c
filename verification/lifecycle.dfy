/** What holds of the delivery log over any sequence of logger operations and
    monitor iterations: the retry budget, the single follow-up, and replies that
    stay recorded. */
module Lifecycle {
  import opened Records
  import ApiClient
  import opened DeliveryTable

  /** One logger operation that read the table, with the provider's answers
      during it. An operation whose read failed writes nothing, so a trace
      leaves it out. */
  datatype Op =
    | Ingest(batch: seq<SendRecord>, now: int)
    | StatusUpdate(id: string, status: string, now: int)
    | ReplyUpdate(id: string, reply: Reply, now: int)
    | Retry(sends: nat -> ApiClient.SendResponse, now: int)
    | Followups(sends: nat -> ApiClient.SendResponse, now: int)
    | MonitorIteration(answers: Answers, now: int)

  function Apply(rows: seq<Row>, op: Op): seq<Row> {
    match op
    case Ingest(batch, now) => Ingested(rows, batch, now)
    case StatusUpdate(id, status, now) => StatusSet(rows, id, ParseStatus(status), now)
    case ReplyUpdate(id, reply, now) => ReplySet(rows, id, reply, now)
    case Retry(sends, now) => Retried(rows, sends, now)
    case Followups(sends, now) => SentFollowups(rows, sends, now)
    case MonitorIteration(answers, now) => MonitorPass(rows, answers, now)
  }

  function Run(rows: seq<Row>, trace: seq<Op>): seq<Row>
    decreases |trace|
  {
    if trace == [] then rows else Run(Apply(rows, trace[0]), trace[1..])
  }

  /** Row i is resent during op. */
  predicate ResendsRow(rows: seq<Row>, op: Op, i: nat) {
    match op
    case Retry(_, now) => i < |rows| && RetryDue(rows[i], now)
    case MonitorIteration(answers, now) =>
      var polled := PolledStatuses(rows, rows, answers.statuses, now, 0);
      i < |polled| && RetryDue(polled[i], now)
    case _ => false
  }

  /** Row i is sent a follow-up during op. */
  predicate FollowsUpRow(rows: seq<Row>, op: Op, i: nat) {
    match op
    case Followups(_, now) => i < |rows| && FollowupDue(rows[i], now)
    case MonitorIteration(answers, now) =>
      var replied := AfterReplies(rows, answers, now);
      i < |replied| && FollowupDue(replied[i], now)
    case _ => false
  }

  lemma PolledStatusesKeep(t: seq<Row>, snapshot: seq<Row>, answers: nat -> ApiClient.StatusResponse, now: int, j: nat)
    requires j < |t|
    ensures var u := PolledStatuses(t, snapshot, answers, now, 0);
      |u| == |t| && Stepped(t[j], u[j], false, false)
  {
  }

  lemma PolledRepliesKeep(t: seq<Row>, snapshot: seq<Row>, answers: nat -> ApiClient.ReplyResponse, now: int, j: nat)
    requires j < |t|
    ensures var u := PolledReplies(t, snapshot, answers, now, 0);
      |u| == |t| && Stepped(t[j], u[j], false, false)
  {
  }

  /** How row r becomes r' in one operation that resends it or not, and follows
      it up or not: the retry count grows by one exactly on a resend, which needs
      budget left; a follow-up settles a pending row; a settled row stays
      settled; a recorded reply stays recorded; the message itself is kept. */
  predicate Stepped(r: Row, r': Row, resent: bool, followed: bool) {
    && SameMessage(r, r')
    && r'.retryCount == r.retryCount + (if resent then 1 else 0)
    && (resent ==> r.retryCount < MaxRetries)
    && (r.followUp != FollowUpPending ==> r'.followUp != FollowUpPending)
    && (followed ==> r.followUp == FollowUpPending && r'.followUp != FollowUpPending)
    && (HasReply(r) ==> HasReply(r'))
    && (HasReply(r') && r'.followUp != NotRequired ==> HasReply(r) && r'.followUp == r.followUp)
  }

  /** What op does to row i; a row op adds starts with no resend, pending and no reply. */
  predicate RowStep(rows: seq<Row>, op: Op, i: nat) {
    var t := Apply(rows, op);
    && |t| >= |rows|
    && (i < |rows| ==> Stepped(rows[i], t[i], ResendsRow(rows, op, i), FollowsUpRow(rows, op, i)))
    && (|rows| <= i < |t| ==>
          && t[i].retryCount == 0 && t[i].followUp == FollowUpPending && !HasReply(t[i])
          && !ResendsRow(rows, op, i) && !FollowsUpRow(rows, op, i))
  }

  lemma IngestStep(rows: seq<Row>, batch: seq<SendRecord>, now: int, i: nat)
    ensures RowStep(rows, Ingest(batch, now), i)
  {
    var t := Ingested(rows, batch, now);
    if |rows| <= i < |t| {
      assert Logged(t[|rows| + (i - |rows|)], batch[i - |rows|], now);
    }
    if i < |rows| {
      assert t[i] == t[..|rows|][i];
    }
  }

  lemma RetriedRowStep(t: seq<Row>, sends: nat -> ApiClient.SendResponse, now: int, i: nat)
    requires i < |t|
    ensures Stepped(t[i], Retried(t, sends, now)[i], RetryDue(t[i], now), false)
  {
  }

  lemma FollowedUpRowStep(t: seq<Row>, sends: nat -> ApiClient.SendResponse, now: int, i: nat)
    requires i < |t|
    ensures Stepped(t[i], SentFollowups(t, sends, now)[i], false, FollowupDue(t[i], now))
  {
  }

  /** The four steps of a monitor iteration compose into one step of a row. */
  lemma SteppedChain(a: Row, b: Row, c: Row, d: Row, e: Row, resent: bool, followed: bool)
    requires Stepped(a, b, false, false) && Stepped(b, c, resent, false)
    requires Stepped(c, d, false, false) && Stepped(d, e, false, followed)
    ensures Stepped(a, e, resent, followed)
  {
  }

  /** Row i through the four steps of one monitor iteration. */
  lemma MonitorRowStep(rows: seq<Row>, answers: Answers, now: int, i: nat)
    requires i < |rows|
    ensures var t1 := PolledStatuses(rows, rows, answers.statuses, now, 0);
      var t3 := AfterReplies(rows, answers, now);
      var t4 := MonitorPass(rows, answers, now);
      && |t1| == |rows| && |t3| == |rows|
      && Stepped(rows[i], t4[i], RetryDue(t1[i], now), FollowupDue(t3[i], now))
  {
    var t1 := PolledStatuses(rows, rows, answers.statuses, now, 0);
    PolledStatusesKeep(rows, rows, answers.statuses, now, i);
    var t2 := Retried(t1, answers.resends, now);
    RetriedRowStep(t1, answers.resends, now, i);
    var t3 := PolledReplies(t2, rows, answers.replies, now, 0);
    PolledRepliesKeep(t2, rows, answers.replies, now, i);
    assert t3 == AfterReplies(rows, answers, now);
    var t4 := SentFollowups(t3, answers.followups, now);
    FollowedUpRowStep(t3, answers.followups, now, i);
    assert t4 == MonitorPass(rows, answers, now);
    SteppedChain(rows[i], t1[i], t2[i], t3[i], t4[i], RetryDue(t1[i], now), FollowupDue(t3[i], now));
  }

  lemma MonitorStep(rows: seq<Row>, answers: Answers, now: int, i: nat)
    ensures RowStep(rows, MonitorIteration(answers, now), i)
  {
    var op := MonitorIteration(answers, now);
    assert Apply(rows, op) == MonitorPass(rows, answers, now);
    if i < |rows| {
      MonitorRowStep(rows, answers, now, i);
    }
  }

  lemma OpStep(rows: seq<Row>, op: Op, i: nat)
    ensures RowStep(rows, op, i)
  {
    match op
    case Ingest(batch, now) => IngestStep(rows, batch, now, i);
    case StatusUpdate(_, _, _) =>
    case ReplyUpdate(_, _, _) =>
    case Retry(_, _) =>
    case Followups(_, _) =>
    case MonitorIteration(answers, now) => MonitorStep(rows, answers, now, i);
  }

  /** Number of resends of row i over a trace. */
  function Resends(rows: seq<Row>, trace: seq<Op>, i: nat): nat
    decreases |trace|
  {
    if trace == [] then 0
    else (if ResendsRow(rows, trace[0], i) then 1 else 0) + Resends(Apply(rows, trace[0]), trace[1..], i)
  }

  /** Number of follow-ups sent to row i over a trace. */
  function FollowupsSent(rows: seq<Row>, trace: seq<Op>, i: nat): nat
    decreases |trace|
  {
    if trace == [] then 0
    else (if FollowsUpRow(rows, trace[0], i) then 1 else 0) + FollowupsSent(Apply(rows, trace[0]), trace[1..], i)
  }

  /** A row is resent at most five times in its life, counting the resends
      already recorded in Retry_Count. */
  lemma {:induction false} RetryBudget(rows: seq<Row>, trace: seq<Op>, i: nat)
    requires i < |rows| ==> rows[i].retryCount <= MaxRetries
    ensures Resends(rows, trace, i) + (if i < |rows| then rows[i].retryCount else 0) <= MaxRetries
    decreases |trace|
  {
    if trace != [] {
      OpStep(rows, trace[0], i);
      RetryBudget(Apply(rows, trace[0]), trace[1..], i);
    }
  }

  /** Retry_Count stays at most five in every row, whatever runs. */
  lemma {:induction false} RetryCapKept(rows: seq<Row>, trace: seq<Op>)
    requires forall j :: 0 <= j < |rows| ==> rows[j].retryCount <= MaxRetries
    ensures forall j :: 0 <= j < |Run(rows, trace)| ==> Run(rows, trace)[j].retryCount <= MaxRetries
    decreases |trace|
  {
    if trace != [] {
      var next := Apply(rows, trace[0]);
      forall j | 0 <= j < |next|
        ensures next[j].retryCount <= MaxRetries
      {
        OpStep(rows, trace[0], j);
      }
      RetryCapKept(next, trace[1..]);
    }
  }

  /** A row is sent at most one follow-up, and none once it is no longer pending. */
  lemma {:induction false} FollowupOnce(rows: seq<Row>, trace: seq<Op>, i: nat)
    ensures FollowupsSent(rows, trace, i) <= 1
    ensures i < |rows| && rows[i].followUp != FollowUpPending ==> FollowupsSent(rows, trace, i) == 0
    decreases |trace|
  {
    if trace != [] {
      OpStep(rows, trace[0], i);
      FollowupOnce(Apply(rows, trace[0]), trace[1..], i);
    }
  }

  /** No operation rewrites the name, phone, message or send time of a row. */
  lemma {:induction false} MessageKept(rows: seq<Row>, trace: seq<Op>, i: nat)
    requires i < |rows|
    ensures i < |Run(rows, trace)| && SameMessage(rows[i], Run(rows, trace)[i])
    decreases |trace|
  {
    if trace != [] {
      OpStep(rows, trace[0], i);
      MessageKept(Apply(rows, trace[0]), trace[1..], i);
    }
  }

  /** Every row with a recorded reply no longer needs a follow-up. */
  predicate RepliesSettled(rows: seq<Row>) {
    forall j :: 0 <= j < |rows| && HasReply(rows[j]) ==> rows[j].followUp == NotRequired
  }

  /** Once a row has a reply it keeps it, stays not_required, and gets no follow-up. */
  lemma {:induction false} ReplyIsFinal(rows: seq<Row>, trace: seq<Op>, i: nat)
    requires i < |rows| && HasReply(rows[i]) && rows[i].followUp == NotRequired
    ensures i < |Run(rows, trace)| && HasReply(Run(rows, trace)[i])
    ensures Run(rows, trace)[i].followUp == NotRequired
    ensures FollowupsSent(rows, trace, i) == 0
    decreases |trace|
  {
    FollowupOnce(rows, trace, i);
    if trace != [] {
      OpStep(rows, trace[0], i);
      ReplyIsFinal(Apply(rows, trace[0]), trace[1..], i);
    }
  }

  /** No operation leaves a replied row waiting for a follow-up. */
  lemma {:induction false} RepliesStaySettled(rows: seq<Row>, trace: seq<Op>)
    requires RepliesSettled(rows)
    ensures RepliesSettled(Run(rows, trace))
    decreases |trace|
  {
    if trace != [] {
      var next := Apply(rows, trace[0]);
      forall j | 0 <= j < |next| && HasReply(next[j])
        ensures next[j].followUp == NotRequired
      {
        OpStep(rows, trace[0], j);
      }
      RepliesStaySettled(next, trace[1..]);
    }
  }
}
