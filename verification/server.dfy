/** The mock provider: a map from message id to message record, changed in place
    by the send, status and reply endpoints. The random choices (id, delivery,
    engagement, canned reply) and the clock are the caller's inputs. */
module ApiServer {
  import opened Records
  import ApiClient

  /** Phones that never get a reply. */
  const SuppressReplyFor: set<string> := {"+919876543210", "+919876543211"}

  /** The replies a recipient may send. */
  const CannedReplies: seq<string> := [
    "I\U{2019}m interested, please share more.",
    "Can you tell me about costs?",
    "Thank you, I\U{2019}d like to apply.",
    "Not now, maybe later."
  ]

  /** One stored message; the server only ever writes queued, sent and failed. */
  datatype Message = Message(to: string, body: string, sentAt: int, status: Status, replies: seq<Reply>)

  datatype SendAck = SendAck(messageId: string, status: Status)
  datatype StatusBody = StatusBody(messageId: string, status: Status)
  datatype ReplyBody = ReplyBody(messageId: string, reply: Option<string>, timestamp: Option<string>)

  /** An endpoint's answer: a body, or HTTP 404 "Message ID not found". */
  datatype Answer<T> = Found(body: T) | NotFound

  /** The record mock_send stores for a request at time now. */
  function Stored(req: ApiClient.SendPayload, now: int): Message {
    Message(req.to, req.body, now, Queued, [])
  }

  /** What every stored record satisfies: one of the three server statuses, at
      most one reply, and a reply only on a sent message to a phone that is not
      suppressed, drawn from the canned replies. */
  predicate Consistent(m: Message) {
    && (m.status == Queued || m.status == Sent || m.status == Failed)
    && |m.replies| <= 1
    && (|m.replies| > 0 ==>
          m.status == Sent && m.to !in SuppressReplyFor && m.replies[0].text in CannedReplies
          && m.replies[0].timestamp.Some?)
  }

  /** A status poll: a queued message becomes sent when delivered, failed
      otherwise; any other status stays. */
  function Resolve(m: Message, delivered: bool): (m': Message)
    ensures m.status == Queued ==> m'.status == (if delivered then Sent else Failed)
    ensures m.status != Queued ==> m' == m
    ensures m' == m.(status := m'.status)
    ensures m'.status != Queued
    ensures Consistent(m) ==> Consistent(m')
  {
    if m.status == Queued then m.(status := if delivered then Sent else Failed) else m
  }

  /** A status changes at most once: a second poll, whatever it draws, keeps it. */
  lemma ResolveOnce(m: Message, first: bool, second: bool)
    ensures Resolve(Resolve(m, first), second) == Resolve(m, first)
  {
  }

  /** The record after a reply poll, and the reply the poll answers with. */
  datatype Turn = Turn(record: Message, reply: Option<Reply>)

  /** A reply poll: engages is the recipient's random decision, pick the random
      choice of canned reply, ts the current UTC time as text. */
  function ReplyTurn(m: Message, engages: bool, pick: nat, ts: string): (t: Turn)
    ensures m.to in SuppressReplyFor ==> t == Turn(m, None)
    ensures m.to !in SuppressReplyFor && |m.replies| > 0 ==> t == Turn(m, Some(m.replies[|m.replies| - 1]))
    ensures t.record == m.(replies := t.record.replies)
    ensures t.record.replies != m.replies ==>
      && m.replies == [] && m.status == Sent && m.to !in SuppressReplyFor && engages
      && t.reply.Some? && t.record.replies == [t.reply.value]
      && t.reply.value.text in CannedReplies && t.reply.value.timestamp == Some(ts)
    ensures t.reply.None? ==> t.record == m
    ensures m.to !in SuppressReplyFor && m.replies == [] ==>
      && (t.reply.Some? <==> m.status == Sent && engages)
      && (t.reply.Some? ==>
            && t.record.replies == [t.reply.value]
            && t.reply.value.text in CannedReplies && t.reply.value.timestamp == Some(ts))
    ensures Consistent(m) ==> Consistent(t.record)
  {
    if m.to in SuppressReplyFor then Turn(m, None)
    else if |m.replies| > 0 then Turn(m, Some(m.replies[|m.replies| - 1]))
    else if m.status == Sent && engages then
      var r := Reply(CannedReplies[pick % |CannedReplies|], Some(ts));
      Turn(m.(replies := m.replies + [r]), Some(r))
    else Turn(m, None)
  }

  /** Once recorded, a reply is what every later poll answers, and the record
      no longer changes under polling. */
  lemma ReplySticky(m: Message, engages: bool, pick: nat, ts: string)
    requires Consistent(m) && |m.replies| > 0
    ensures ReplyTurn(m, engages, pick, ts) == Turn(m, Some(m.replies[0]))
    ensures Resolve(m, engages) == m
  {
  }

  /** What the client reads from a status the server reports is that status. */
  lemma ClientReadsServerStatus(m: Message, delivered: bool)
    requires Consistent(m)
    ensures var s := Resolve(m, delivered).status;
      ApiClient.GetMessageStatus(ApiClient.StatusOk(Some(Name(s)))) == s
  {
    ParseName(Resolve(m, delivered).status);
  }

  /** The MESSAGES map of the running server. */
  class MockApiServer {
    var messages: map<string, Message>

    predicate Valid()
      reads this
    {
      forall id :: id in messages ==> Consistent(messages[id])
    }

    constructor ()
      ensures messages == map[] && Valid()
    {
      messages := map[];
    }

    /** mock_send: stores a queued record with no replies under the generated id. */
    method MockSend(req: ApiClient.SendPayload, id: string, now: int) returns (ack: SendAck)
      requires Valid()
      modifies this
      ensures Valid()
      ensures messages == old(messages)[id := Stored(req, now)]
      ensures ack == SendAck(id, Queued)
    {
      messages := messages[id := Message(req.to, req.body, now, Queued, [])];
      ack := SendAck(id, Queued);
    }

    /** mock_status: resolves a queued message once and reports its status. */
    method MockStatus(id: string, delivered: bool) returns (a: Answer<StatusBody>)
      requires Valid()
      modifies this
      ensures Valid()
      ensures id !in old(messages) ==> a == NotFound && messages == old(messages)
      ensures id in old(messages) ==>
        && messages == old(messages)[id := Resolve(old(messages)[id], delivered)]
        && a == Found(StatusBody(id, messages[id].status))
      ensures id in old(messages) ==> a.body.status == Sent || a.body.status == Failed
    {
      if id !in messages {
        return NotFound;
      }
      var record := messages[id];
      if record.status == Queued {
        record := record.(status := if delivered then Sent else Failed);
        messages := messages[id := record];
      }
      a := Found(StatusBody(id, record.status));
    }

    /** mock_reply: answers with the recorded reply, or records a new one. */
    method MockReply(id: string, engages: bool, pick: nat, ts: string) returns (a: Answer<ReplyBody>)
      requires Valid()
      modifies this
      ensures Valid()
      ensures id !in old(messages) ==> a == NotFound && messages == old(messages)
      ensures id in old(messages) ==>
        var t := ReplyTurn(old(messages)[id], engages, pick, ts);
        && messages == old(messages)[id := t.record]
        && a == Found(match t.reply
                      case None => ReplyBody(id, None, None)
                      case Some(r) => ReplyBody(id, Some(r.text), r.timestamp))
      ensures id in old(messages) && old(messages)[id].to !in SuppressReplyFor && old(messages)[id].replies != [] ==>
        var first := old(messages)[id].replies[0];
        a == Found(ReplyBody(id, Some(first.text), first.timestamp)) && messages == old(messages)
    {
      if id !in messages {
        return NotFound;
      }
      var record := messages[id];
      var phone := record.to;
      if phone in SuppressReplyFor {
        return Found(ReplyBody(id, None, None));
      }
      if |record.replies| > 0 {
        var latest := record.replies[|record.replies| - 1];
        return Found(ReplyBody(id, Some(latest.text), latest.timestamp));
      }
      if record.status == Sent && engages {
        var chosen := CannedReplies[pick % |CannedReplies|];
        record := record.(replies := record.replies + [Reply(chosen, Some(ts))]);
        messages := messages[id := record];
        return Found(ReplyBody(id, Some(chosen), Some(ts)));
      }
      a := Found(ReplyBody(id, None, None));
    }
  }

  /** One request to the server, with the random choices it draws. */
  datatype Request =
    | Send(req: ApiClient.SendPayload, id: string, now: int)
    | StatusPoll(id: string, delivered: bool)
    | ReplyPoll(id: string, engages: bool, pick: nat, ts: string)

  /** What a request does to the MESSAGES map. */
  function Serve(msgs: map<string, Message>, r: Request): map<string, Message> {
    match r
    case Send(req, id, now) => msgs[id := Stored(req, now)]
    case StatusPoll(id, delivered) =>
      if id in msgs then msgs[id := Resolve(msgs[id], delivered)] else msgs
    case ReplyPoll(id, engages, pick, ts) =>
      if id in msgs then msgs[id := ReplyTurn(msgs[id], engages, pick, ts).record] else msgs
  }

  function ServeAll(msgs: map<string, Message>, trace: seq<Request>): map<string, Message>
    decreases |trace|
  {
    if trace == [] then msgs else ServeAll(Serve(msgs, trace[0]), trace[1..])
  }

  predicate AllConsistent(msgs: map<string, Message>) {
    forall id :: id in msgs ==> Consistent(msgs[id])
  }

  /** Every record stays consistent over any run of requests: in particular a
      suppressed phone never has a reply and no message has two. */
  lemma {:induction false} ConsistentForever(msgs: map<string, Message>, trace: seq<Request>)
    requires AllConsistent(msgs)
    ensures AllConsistent(ServeAll(msgs, trace))
    decreases |trace|
  {
    if trace != [] {
      var next := Serve(msgs, trace[0]);
      assert AllConsistent(next);
      ConsistentForever(next, trace[1..]);
    }
  }

  /** No request of the trace reissues id. */
  predicate NoResendTo(trace: seq<Request>, id: string) {
    forall k :: 0 <= k < |trace| ==> !(trace[k].Send? && trace[k].id == id)
  }

  /** A status other than queued never changes again, unless the id is issued anew. */
  lemma {:induction false} StatusSettles(msgs: map<string, Message>, trace: seq<Request>, id: string)
    requires id in msgs && msgs[id].status != Queued && NoResendTo(trace, id)
    ensures id in ServeAll(msgs, trace) && ServeAll(msgs, trace)[id].status == msgs[id].status
    decreases |trace|
  {
    if trace != [] {
      assert !(trace[0].Send? && trace[0].id == id);
      var next := Serve(msgs, trace[0]);
      assert id in next && next[id].status == msgs[id].status;
      assert NoResendTo(trace[1..], id) by {
        forall k | 0 <= k < |trace[1..]| ensures !(trace[1..][k].Send? && trace[1..][k].id == id) {
          assert trace[1..][k] == trace[k + 1];
        }
      }
      StatusSettles(next, trace[1..], id);
    }
  }

  /** A recorded reply freezes its record, unless the id is issued anew. */
  lemma {:induction false} ReplyFreezes(msgs: map<string, Message>, trace: seq<Request>, id: string)
    requires id in msgs && Consistent(msgs[id]) && |msgs[id].replies| > 0 && NoResendTo(trace, id)
    ensures id in ServeAll(msgs, trace) && ServeAll(msgs, trace)[id] == msgs[id]
    decreases |trace|
  {
    if trace != [] {
      assert !(trace[0].Send? && trace[0].id == id);
      var next := Serve(msgs, trace[0]);
      match trace[0] {
        case Send(_, _, _) =>
        case StatusPoll(_, delivered) => ReplySticky(msgs[id], delivered, 0, "");
        case ReplyPoll(_, engages, pick, ts) => ReplySticky(msgs[id], engages, pick, ts);
      }
      assert id in next && next[id] == msgs[id];
      assert NoResendTo(trace[1..], id) by {
        forall k | 0 <= k < |trace[1..]| ensures !(trace[1..][k].Send? && trace[1..][k].id == id) {
          assert trace[1..][k] == trace[k + 1];
        }
      }
      ReplyFreezes(next, trace[1..], id);
    }
  }
}
