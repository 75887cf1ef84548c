/** The provider client: turns the provider's HTTP answers into result records,
    and sends a whole campaign, one result per lead. The network is not modelled:
    each call's answer is an input. */
module ApiClient {
  import opened Records

  /** The JSON body posted to /mock/send. */
  datatype SendPayload = SendPayload(to: string, body: string)

  /** What a POST /mock/send came back with. */
  datatype SendResponse =
    | Accepted(status: Option<string>, messageId: Option<string>)  // 2xx, JSON keys that may be missing
    | HttpError(code: int, body: string, reason: string)            // raise_for_status raised
    | TransportError(reason: string)                                // timeout, connection, bad JSON

  /** The dictionary send_message returns. */
  datatype SendResult = SendResult(status: Status, messageId: Option<string>, error: Option<string>)

  /** What a GET /mock/status/{id} came back with. */
  datatype StatusResponse = StatusOk(status: Option<string>) | StatusError(reason: string)

  /** What a GET /mock/reply/{id} came back with. */
  datatype ReplyResponse = ReplyOk(reply: Option<string>, timestamp: Option<string>) | ReplyError(reason: string)

  /** The dictionary get_reply returns. */
  datatype ReplyData = ReplyData(reply: Option<string>, timestamp: Option<string>)

  /** The phone as sent: a "+" is put in front only when it is not already there. */
  function NormalizePhone(phone: string): (to: string)
    ensures |to| > 0 && to[0] == '+'
    ensures to == phone || to == "+" + phone
    ensures to == phone <==> |phone| > 0 && phone[0] == '+'
  {
    if |phone| > 0 && phone[0] == '+' then phone else "+" + phone
  }

  lemma NormalizeIdempotent(phone: string)
    ensures NormalizePhone(NormalizePhone(phone)) == NormalizePhone(phone)
  {
  }

  /** The request send_message posts for a phone and a message body. */
  function SendPayloadFor(phone: string, message: string): (p: SendPayload)
    ensures p.body == message
    ensures |p.to| > 0 && p.to[0] == '+'
    ensures |phone| <= |p.to| && p.to[|p.to| - |phone|..] == phone
    ensures |p.to| == |phone| + (if |phone| > 0 && phone[0] == '+' then 0 else 1)
  {
    SendPayload(NormalizePhone(phone), message)
  }

  /** The result of send_message once the provider answered with response. */
  function SendMessage(response: SendResponse): (r: SendResult)
    ensures r.error.None? <==> response.Accepted?
    ensures r.messageId.Some? ==> response.Accepted?
    ensures response.Accepted? ==>
      r.status == ParseStatus(response.status.GetOr("queued")) && r.messageId == response.messageId
    ensures response.HttpError? && response.code == 422 ==>
      r == SendResult(InvalidPayload, None, Some(response.body))
    ensures !response.Accepted? && !(response.HttpError? && response.code == 422) ==>
      r.status == Failed && r.messageId == None
  {
    match response
    case Accepted(status, id) => SendResult(ParseStatus(status.GetOr("queued")), id, None)
    case HttpError(code, body, reason) =>
      if code == 422 then SendResult(InvalidPayload, None, Some(body))
      else SendResult(Failed, None, Some(reason))
    case TransportError(reason) => SendResult(Failed, None, Some(reason))
  }

  /** get_message_status: the reported status, or "unknown" on any failure or a missing key. */
  function GetMessageStatus(response: StatusResponse): (s: Status)
    ensures response.StatusError? ==> s == Unknown
    ensures response.StatusOk? && response.status.None? ==> s == Unknown
    ensures response.StatusOk? && response.status.Some? ==> Name(s) == response.status.value
    ensures Canonical(s)
  {
    match response
    case StatusOk(status) => ParseStatus(status.GetOr("unknown"))
    case StatusError(_) => Unknown
  }

  /** get_reply: the answer's fields, or no reply and no timestamp on any failure. */
  function GetReply(response: ReplyResponse): (d: ReplyData)
    ensures response.ReplyError? ==> d == ReplyData(None, None)
    ensures response.ReplyOk? ==> d.reply == response.reply && d.timestamp == response.timestamp
  {
    match response
    case ReplyOk(reply, timestamp) => ReplyData(reply, timestamp)
    case ReplyError(_) => ReplyData(None, None)
  }

  /** One lead of the campaign; interest_area may be missing from the lead's dictionary. */
  datatype Lead = Lead(name: string, phone: string, interestArea: Option<string>)

  /** A piece of a message template for str.format: literal text, the {name}
      placeholder, or a placeholder for a key that format is not given. */
  datatype Piece = Literal(text: string) | NameField | Field(key: string)

  type Template = seq<Piece>

  /** The outcome of preparing a lead's message: the text, or the error that
      was raised (str of the exception). */
  datatype Prepared = Ready(message: string) | PrepError(error: string)

  /** template.format(name=name): KeyError on the first placeholder other than {name}. */
  function Format(t: Template, name: string): (r: Prepared)
    ensures r.Ready? <==> forall k :: 0 <= k < |t| ==> !t[k].Field?
    ensures r.PrepError? ==> exists k :: 0 <= k < |t| && t[k].Field? && r.error == "'" + t[k].key + "'"
    decreases |t|
  {
    if t == [] then Ready("")
    else
      match t[0]
      case Field(key) => PrepError("'" + key + "'")
      case Literal(s) =>
        (match Format(t[1..], name)
         case Ready(rest) => Ready(s + rest)
         case PrepError(e) => PrepError(e))
      case NameField =>
        (match Format(t[1..], name)
         case Ready(rest) => Ready(name + rest)
         case PrepError(e) => PrepError(e))
  }

  /** The templates for an interest area, else the "default" entry, else none. */
  function TemplatesFor(templates: map<string, seq<Template>>, area: string): (ts: seq<Template>)
    ensures area in templates ==> ts == templates[area]
    ensures area !in templates && "default" in templates ==> ts == templates["default"]
    ensures area !in templates && "default" !in templates ==> ts == []
  {
    if area in templates then templates[area]
    else if "default" in templates then templates["default"]
    else []
  }

  /** The caller-supplied choices for one lead: the random template pick, the
      provider's answer to the send, and the clock when the result is stamped. */
  datatype LeadDraw = LeadDraw(pick: nat, response: SendResponse, time: int)

  /** Template lookup, random choice and formatting for one lead. */
  function Prepare(lead: Lead, templates: map<string, seq<Template>>, pick: nat): (p: Prepared)
    ensures lead.interestArea.None? ==> p == PrepError("'interest_area'")
    ensures lead.interestArea.Some? && TemplatesFor(templates, lead.interestArea.value) == [] ==>
      p == PrepError("Cannot choose from an empty sequence")
    ensures lead.interestArea.Some? && TemplatesFor(templates, lead.interestArea.value) != [] ==>
      exists t :: t in TemplatesFor(templates, lead.interestArea.value) && p == Format(t, lead.name)
    ensures p.Ready? ==> exists t :: t in TemplatesFor(templates, lead.interestArea.value) && Format(t, lead.name) == p
  {
    match lead.interestArea
    case None => PrepError("'interest_area'")
    case Some(area) =>
      var ts := TemplatesFor(templates, area);
      if ts == [] then PrepError("Cannot choose from an empty sequence")
      else Format(ts[pick % |ts|], lead.name)
  }

  /** The result record send_bulk_messages produces for one lead. */
  function BulkEntry(lead: Lead, templates: map<string, seq<Template>>, draw: LeadDraw): (e: SendRecord)
    ensures e.name == Some(lead.name) && e.phone == Some(lead.phone) && e.timestamp == Some(draw.time)
    ensures e.status.Some?
    ensures Prepare(lead, templates, draw.pick).PrepError? ==>
      e.message == Some("") && e.status == Some(Failed) && e.messageId == None && e.error.Some?
    ensures Prepare(lead, templates, draw.pick).Ready? ==>
      var sent := SendMessage(draw.response);
      && e.message == Some(Prepare(lead, templates, draw.pick).message)
      && e.status == Some(sent.status) && e.messageId == sent.messageId && e.error == sent.error
  {
    match Prepare(lead, templates, draw.pick)
    case PrepError(err) =>
      SendRecord(Some(lead.name), Some(lead.phone), Some(""), Some(draw.time), Some(Failed), None, Some(err))
    case Ready(text) =>
      var res := SendMessage(draw.response);
      SendRecord(Some(lead.name), Some(lead.phone), Some(text), Some(draw.time), Some(res.status), res.messageId, res.error)
  }

  /** send_bulk_messages: exactly one result per lead, in lead order. posted[k]
      is the request sent for lead k, which draws(k).response answers: the
      lead's personalised message to the lead's normalised phone, and nothing
      when the message could not be prepared. */
  method SendBulkMessages(leads: seq<Lead>, templates: map<string, seq<Template>>, draws: nat -> LeadDraw)
    returns (results: seq<SendRecord>, posted: seq<Option<SendPayload>>)
    ensures |results| == |leads| && |posted| == |leads|
    ensures forall k :: 0 <= k < |leads| ==> results[k] == BulkEntry(leads[k], templates, draws(k))
    ensures forall k :: 0 <= k < |leads| ==>
      match Prepare(leads[k], templates, draws(k).pick)
      case Ready(text) =>
        posted[k] == Some(SendPayloadFor(leads[k].phone, text)) && results[k].message == Some(text)
      case PrepError(_) => posted[k] == None
  {
    results, posted := [], [];
    for k := 0 to |leads|
      invariant |results| == k && |posted| == k
      invariant forall j :: 0 <= j < k ==> results[j] == BulkEntry(leads[j], templates, draws(j))
      invariant forall j :: 0 <= j < k ==>
        match Prepare(leads[j], templates, draws(j).pick)
        case Ready(text) => posted[j] == Some(SendPayloadFor(leads[j].phone, text))
        case PrepError(_) => posted[j] == None
    {
      var lead, draw := leads[k], draws(k);
      var entry: SendRecord;
      var request: Option<SendPayload>;
      match Prepare(lead, templates, draw.pick) {
        case PrepError(err) =>
          entry := SendRecord(Some(lead.name), Some(lead.phone), Some(""), Some(draw.time), Some(Failed), None, Some(err));
          request := None;
        case Ready(text) =>
          request := Some(SendPayload(NormalizePhone(lead.phone), text));
          var res := SendMessage(draw.response);
          entry := SendRecord(Some(lead.name), Some(lead.phone), Some(text), Some(draw.time), Some(res.status), res.messageId, res.error);
      }
      results := results + [entry];
      posted := posted + [request];
    }
  }
}
