/** Values shared by the provider client, the mock provider and the delivery log:
    delivery statuses, follow-up states, replies and one row of the delivery log. */
module Records {

  /** A cell or dictionary entry that may be absent (None stands for pandas' NaN
      and for Python's None alike). */
  datatype Option<+T> = None | Some(value: T) {
    function GetOr(default: T): T {
      match this
      case Some(v) => v
      case None => default
    }
  }

  /** Delivery_Status. The provider speaks strings; every string outside the
      known six is kept verbatim in Other. */
  datatype Status = Queued | Sent | Failed | InvalidPayload | Unknown | Success | Other(name: string)

  predicate KnownName(w: string) {
    w in {"queued", "sent", "failed", "invalid_payload", "unknown", "success"}
  }

  /** The string stored in the table for a status. */
  function Name(s: Status): string {
    match s
    case Queued => "queued"
    case Sent => "sent"
    case Failed => "failed"
    case InvalidPayload => "invalid_payload"
    case Unknown => "unknown"
    case Success => "success"
    case Other(w) => w
  }

  /** Reads a provider status string. Comparing parsed statuses is comparing the strings. */
  function ParseStatus(w: string): (s: Status)
    ensures Name(s) == w
    ensures s.Other? <==> !KnownName(w)
  {
    if w == "queued" then Queued
    else if w == "sent" then Sent
    else if w == "failed" then Failed
    else if w == "invalid_payload" then InvalidPayload
    else if w == "unknown" then Unknown
    else if w == "success" then Success
    else Other(w)
  }

  /** A status is canonical when it is what ParseStatus gives for its own name. */
  predicate Canonical(s: Status) {
    s.Other? ==> !KnownName(s.name)
  }

  /** Follow_Up_Status. */
  datatype FollowUp = FollowUpPending | FollowUpSent | FollowUpFailed | NotRequired

  /** One {text, timestamp} entry of a reply history. */
  datatype Reply = Reply(text: string, timestamp: Option<string>)

  /** The Reply_History cell: empty (NaN), a JSON list of replies as json.dumps
      writes it, or text that json.loads rejects. */
  datatype History = Missing | Entries(replies: seq<Reply>) | Unreadable(raw: string)

  /** One result dictionary handed to the log: every key may be missing. */
  datatype SendRecord = SendRecord(
    name: Option<string>,
    phone: Option<string>,
    message: Option<string>,
    timestamp: Option<int>,
    status: Option<Status>,
    messageId: Option<string>,
    error: Option<string>)

  /** One row of the delivery log; times are seconds, None is an empty cell. */
  datatype Row = Row(
    name: string,
    phone: string,
    message: string,
    sentAt: Option<int>,
    status: Status,
    messageId: Option<string>,
    lastUpdated: int,
    retryCount: nat,
    nextRetry: Option<int>,
    followUp: FollowUp,
    followUpSentAt: Option<int>,
    followUpMessage: string,
    history: History)

  /** A history that json.loads reads as a non-empty list. */
  predicate HasReply(r: Row) {
    r.history.Entries? && |r.history.replies| > 0
  }

  lemma ParseName(s: Status)
    requires Canonical(s)
    ensures ParseStatus(Name(s)) == s
  {
  }
}
