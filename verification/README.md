# WhatsApp campaign delivery log, modelled in Dafny

This project models the core of a lead-messaging tool. Its three parts are:

- **The delivery log kept by `ExcelLogger`.** This is a table with one row per message sent. Each row holds:
  - the recipient, the message and the send time;
  - the delivery status;
  - the provider's Message_ID;
  - a retry count and the time of the next retry;
  - a follow-up status;
  - a JSON history of replies.
- **The provider client.** It classifies the provider's answers into result records and sends a whole campaign, one result per lead.
- **The mock provider.** It is a map from message id to message record, changed by the send, status and reply endpoints.

The logger has five whole-table operations. Each one reads the table, changes some rows and writes the whole table back:

- batch ingest;
- status update by Message_ID;
- reply update by Message_ID;
- bounded retry with a one-minute backoff;
- one-shot follow-ups after ten quiet minutes.

One iteration of the monitor loop runs four steps, in this order:

1. it polls the statuses of queued rows;
2. it retries failed rows;
3. it polls replies of sent rows within an hour of sending;
4. it sends follow-ups.

The files are:

- `records.dfy` (module `Records`): the shared values. These are statuses, follow-up states, replies, the reply-history cell, result records and one row of the log. An empty cell is `None`.
- `client.dfy` (module `ApiClient`): phone normalisation and outcome classification, template choice and formatting, and the campaign loop `SendBulkMessages`.
- `table.dfy` (module `DeliveryTable`): each logger operation as a function from the table before it to the table after it. It also holds the four steps of a monitor iteration and `MonitorPass`, their composition.
- `logger.dfy` (module `DeliveryLogger`): class `ExcelLogger` with the table as its field `rows`. Each method reads the table into a local copy, loops over the rows and writes the copy back. Each method is proved to leave `rows` equal to the function in `DeliveryTable`.
- `polling.dfy` (module `Polling`): the exact effect of the status and reply steps. The status step needs no two rows of the table read to share a Message_ID. The reply step also needs this of the table after the retries, in which a resend may have given rows new ids.
- `lifecycle.dfy` (module `Lifecycle`): properties of any sequence of logger operations and monitor iterations. These are the retry budget, at most one follow-up per row, replies that stay recorded, and messages that are never rewritten.
- `server.dfy` (module `ApiServer`): the mock provider's record transitions, class `MockApiServer` over the `MESSAGES` map, and properties of any sequence of requests.

Inputs stand in for everything outside the program:

- **The provider's answers.** Each one is a function from the row's (or lead's) position to the answer the provider gave for that row. Examples are `sends`, `statuses`, `replies`, `draws` and `Answers`.
- **A failed table read.** This is the flag `readOk`.
- **The clock.** This is an integer number of seconds, `now`.
- **The server's random draws.** These are `id`, `delivered`, `engages`, `pick` and `ts`.

Where the code's behaviour is easy to misread, the model follows the code:

- An ingested result without a status is logged as `unknown`, not `queued` (`src/logger.py:82`).
- A recorded reply sets the status to `success`, not to a separate replied state (`src/logger.py:149`).
- A status poll that fails makes the client report `unknown`, and the monitor writes it. So a queued row can become `unknown` through polling (`src/mock_api_client.py:51-54`, `src/logger.py:241-243`). Once it is `unknown`, the row is never polled, retried or followed up again (`Polling.FailedPollWritesUnknown`).
- The monitor's reply step accepts only an empty history cell or the exact text `[]` (`src/logger.py:254`). The follow-up step parses the history, so an unreadable history counts as no replies there (`src/logger.py:193-199`).
- The reply step chooses its rows from the table as read at the start of the iteration. It records into the table as it stands after the retry step.
- A retried row takes the status and Message_ID of the resend's answer. The `"failed"` default at `src/logger.py:171` never applies, because `send_message` always returns a status.
- A recorded reply on the mock server is answered again on every later poll. The record can still be replaced if `mock_send` draws an id that is already stored, because the send overwrites it (`src/mock_api_server.py:48`). The stickiness lemmas therefore assume that no later send reuses the id.

## Model

| member | source | states |
|---|---|---|
| ApiClient.NormalizePhone | src/mock_api_client.py:23-25 | the phone sent always starts with "+"; it is the input unchanged exactly when the input already starts with "+", else "+" followed by the input |
| ApiClient.NormalizeIdempotent | src/mock_api_client.py:23-25 | normalising a normalised phone changes nothing |
| ApiClient.SendPayloadFor | src/mock_api_client.py:23-27 | the posted body is the message; the posted "to" starts with "+", ends with the original phone and is exactly one character longer when the phone lacked the "+", the same length otherwise |
| ApiClient.SendMessage | src/mock_api_client.py:20-45 | error is None exactly on an accepted answer; accepted: the answer's status (default "queued") and message_id; HTTP 422: invalid_payload, no id, the response text as error; any other HTTP or transport error: failed, no id |
| ApiClient.GetMessageStatus | src/mock_api_client.py:47-54 | "unknown" on any failure or when the answer has no status, otherwise the answer's status string |
| ApiClient.GetReply | src/mock_api_client.py:56-64 | no reply and no timestamp on any failure, otherwise the answer's two fields |
| ApiClient.TemplatesFor | src/mock_api_client.py:70 | the interest area's templates, else the "default" entry, else no templates |
| ApiClient.Format | src/mock_api_client.py:73 | formatting succeeds exactly when every placeholder is {name}; otherwise the error is the quoted key of a placeholder of the template |
| ApiClient.Prepare | src/mock_api_client.py:69-73 | a lead without interest_area fails with KeyError 'interest_area'; an empty template list fails as random.choice does; otherwise the outcome, message or KeyError, is the formatting of one of the area's templates |
| ApiClient.BulkEntry | src/mock_api_client.py:69-93 | every result carries the lead's name and phone and a status; a failed preparation gives message "", status failed, no id and an error; otherwise the message and send_message's status, id and error |
| ApiClient.SendBulkMessages | src/mock_api_client.py:66-94 | exactly one result per lead, in lead order, each the lead's BulkEntry; and, per lead, the request posted to /mock/send: the lead's personalised message to the lead's normalised phone when the message could be prepared, no request when it could not |
| DeliveryTable.Ingested | src/logger.py:75-95 | the existing rows are kept as a prefix; one new row per result follows, with the result's fields, status defaulting to unknown, Retry_Count 0, no next retry, follow-up pending and an empty reply history |
| DeliveryTable.NewRow | src/logger.py:77-91 | the row built from one result has the result's fields, status defaulting to unknown, Retry_Count 0, no next retry, follow-up pending, no follow-up time or text, and an empty history |
| DeliveryTable.LastMatch | src/logger.py:110-114 | the index found is the last row whose Message_ID is the id; none is found exactly when no row has the id |
| DeliveryTable.StatusSet | src/logger.py:110-116 | only the last row with the id changes, and only its status and Last_Updated; with no match the table is unchanged |
| DeliveryTable.ParsedHistory | src/logger.py:141-145 | a readable history is its list of replies; an empty or unparseable cell is the empty list |
| DeliveryTable.WithReply | src/logger.py:147-151 | the history becomes the parsed history plus exactly the new reply, the status success, the follow-up not_required; no other column but Last_Updated changes |
| DeliveryTable.ReplySet | src/logger.py:136-151 | the reply is recorded on the last row with the id only; with no match the table is unchanged |
| DeliveryTable.RetryDue | src/logger.py:166-169 | a row due for a resend is failed and under five retries, and is never due before its Next_Retry_Time |
| DeliveryTable.Resent | src/logger.py:170-176 | Retry_Count grows by one, the status and id are the resend's, the next retry is one minute away, nothing else changes, and the row is not due again before then |
| DeliveryTable.Retried | src/logger.py:166-176 | rows that are not failed, at the cap or not yet due are untouched; every due row is resent once and stays within five retries |
| DeliveryTable.NoReplies | src/logger.py:193-199 | a history has no replies exactly when it reads as the empty list, the empty and unparseable cells included |
| DeliveryTable.FollowupDue | src/logger.py:201-209 | a row due for a follow-up is pending, has no replies, was sent at least ten minutes before now, and is not also due for a resend |
| DeliveryTable.FollowedUp | src/logger.py:210-217 | follow-up becomes sent exactly when the answer's status is queued or sent, else failed; its time, text and Last_Updated are set, nothing else changes, and the row is never due for a follow-up again |
| DeliveryTable.SentFollowups | src/logger.py:201-217 | rows that are not sent, have replies, are not pending or were sent less than ten minutes ago are untouched; every due row gets exactly its follow-up and is never due again |
| DeliveryTable.StatusPollable | src/logger.py:237-240 | a row the status step polls has a non-empty Message_ID and is at no time due for a resend or a follow-up |
| DeliveryTable.PolledStatuses | src/logger.py:236-243 | the status step keeps the table length and changes only statuses and Last_Updated; it changes nothing when every polled status is still queued |
| DeliveryTable.ReplyPollable | src/logger.py:250-256 | a row the reply step polls has no replies, was sent at most an hour before now, and is neither polled for status nor due for a resend |
| DeliveryTable.PolledReplies | src/logger.py:249-259 | the reply step keeps the table length; each row is either unchanged or gets a reply, status success and follow-up not_required |
| DeliveryTable.MonitorPass | src/logger.py:235-262 | one pass keeps the number of rows and every row's name, phone, message and send time, raises each Retry_Count by at most one, and keeps every recorded reply |
| DeliveryLogger.ExcelLogger.constructor | src/logger.py:10-13 | the logger starts from the rows already in the log |
| DeliveryLogger.ExcelLogger.LogMessageBatch | src/logger.py:66-97 | returns True and appends the ingested rows when the read succeeds; otherwise returns False and writes nothing |
| DeliveryLogger.ExcelLogger.UpdateDeliveryStatus | src/logger.py:99-118 | returns True exactly when the read succeeds and some row has the id; the table becomes StatusSet with the given status string, or is unchanged on a failed read |
| DeliveryLogger.ExcelLogger.UpdateReplyStatus | src/logger.py:125-153 | returns True exactly when the read succeeds and some row has the id; the table becomes ReplySet, or is unchanged on a failed read |
| DeliveryLogger.ExcelLogger.RetryFailedMessages | src/logger.py:155-179 | the loop leaves the table equal to Retried, or unchanged on a failed read |
| DeliveryLogger.ExcelLogger.SendFollowups | src/logger.py:181-220 | the loop leaves the table equal to SentFollowups, or unchanged on a failed read |
| DeliveryLogger.ExcelLogger.PollStatuses | src/logger.py:236-243 | the loop over the snapshot's queued rows leaves the table equal to PolledStatuses |
| DeliveryLogger.ExcelLogger.PollReplies | src/logger.py:249-259 | the loop over the snapshot's sent rows leaves the table equal to PolledReplies |
| DeliveryLogger.ExcelLogger.MonitorCycle | src/logger.py:227-262 | one iteration applies status, retry, reply and follow-up steps in that order, or writes nothing when the first read fails |
| Polling.PolledStatusesExactly | src/logger.py:236-243 | with unique ids, the status step writes the polled status and time on exactly the queued rows with an id whose polled status is not queued |
| Polling.StatusPollIdempotent | src/logger.py:237-243 | polling again with the provider reporting the same statuses changes nothing |
| Polling.FailedPollWritesUnknown | src/logger.py:241-243 | a queued row whose poll fails becomes unknown and is then never polled, retried, reply-polled or followed up |
| Polling.PolledRepliesExactly | src/logger.py:249-259 | when the table written to has unique ids and keeps the ids of the rows polled, the reply step records exactly one reply on each sent, reply-less snapshot row polled within the hour whose answer is a non-empty reply, and changes no other row |
| Polling.RetriesKeepReplyIds | src/logger.py:237-250 | with unique ids, the status and retry steps keep the Message_ID of every row the reply step polls |
| Polling.ReplyStepExactly | src/logger.py:246-259 | in a whole pass with unique ids before and after the retries, exactly the eligible snapshot rows whose poll brought a reply get it once in the retried table; all other rows stay as step 2 left them |
| Polling.ReplyCheckStricterThanNoReplies | src/logger.py:254 | every row the reply step polls has no replies by the follow-up step's test; an unreadable history has no replies there yet is never polled for one |
| Polling.RepliedRowSkipsFollowup | src/logger.py:258-262 | a row that gets a reply in step 3 has one recorded and is left alone by step 4 |
| Lifecycle.MonitorStep | src/logger.py:235-262 | within one iteration each row is resent at most once (only when due after the status step) and followed up at most once (only when due after the reply step), with the per-row guarantees of Stepped |
| Lifecycle.OpStep | src/logger.py:66-220 | every operation keeps the existing rows' messages, raises Retry_Count by one exactly on a resend within budget, settles follow-ups one way and keeps replies; new rows start unretried and pending |
| Lifecycle.RetryBudget | src/logger.py:166-173 | over any run of operations a row is resent at most five times in total, counting resends already recorded |
| Lifecycle.RetryCapKept | src/logger.py:166-173 | Retry_Count never exceeds five in any row, whatever runs |
| Lifecycle.FollowupOnce | src/logger.py:201-214 | over any run of operations a row gets at most one follow-up, and none once it is no longer pending |
| Lifecycle.ReplyIsFinal | src/logger.py:147-150 | once a row has a reply and is not_required, it keeps a reply, stays not_required and never gets a follow-up |
| Lifecycle.RepliesStaySettled | src/logger.py:147-150 | if every replied row is not_required, that stays so after any run of operations |
| Lifecycle.MessageKept | src/logger.py:115-176 | no operation rewrites a row's name, phone, message or send time |
| ApiServer.Resolve | src/mock_api_server.py:64-68 | a queued message becomes sent or failed as drawn; any other status, and every other field, is kept; the result is never queued |
| ApiServer.ResolveOnce | src/mock_api_server.py:66-67 | a second status poll, whatever it draws, changes nothing |
| ApiServer.ReplyTurn | src/mock_api_server.py:77-103 | a suppressed phone gets no reply and no change; a recorded reply is answered again without appending; a message without replies gets a reply exactly when it is sent and the recipient engages, and that reply, a canned one with the time, is then its only entry; otherwise nothing changes |
| ApiServer.ReplySticky | src/mock_api_server.py:84-87 | a message with a reply answers every later reply poll with that reply and is not changed by a status or reply poll |
| ApiServer.ClientReadsServerStatus | src/mock_api_server.py:68 | the client reads back exactly the status the server reports |
| ApiServer.MockApiServer.constructor | src/mock_api_server.py:13 | the server starts with no messages |
| ApiServer.MockApiServer.MockSend | src/mock_api_server.py:44-55 | stores a queued record with the request's to and body, the time and no replies under the id, and answers with the id and queued |
| ApiServer.MockApiServer.MockStatus | src/mock_api_server.py:58-68 | an unknown id is a 404 and changes nothing; otherwise the record is resolved and its new status, sent or failed, reported |
| ApiServer.MockApiServer.MockReply | src/mock_api_server.py:71-103 | an unknown id is a 404 and changes nothing; otherwise the record and the answer are ReplyTurn's; an unsuppressed message with a reply is answered with its one recorded reply and not changed |
| ApiServer.ConsistentForever | src/mock_api_server.py:44-103 | over any run of requests every record keeps a server status and at most one reply, and a reply only on a sent message to a phone that is not suppressed |
| ApiServer.StatusSettles | src/mock_api_server.py:64-68 | a status other than queued never changes again unless the id is issued anew |
| ApiServer.ReplyFreezes | src/mock_api_server.py:84-87 | a record with a reply never changes again unless the id is issued anew |

## Left out

- Excel persistence is not modelled: `_create_if_missing`, `_safe_read` with its retries, `_atomic_write` with its temporary file, and the pandas column types (`src/logger.py:15-64`). The table is a sequence of rows, and a read that fails after its retries is `readOk = false`.
- A failed write is not modelled. `_atomic_write` swallows the error, so the file then keeps its old contents while the method reports success. `Lifecycle.RetryBudget` and `Lifecycle.FollowupOnce` rely on every write landing: when the write after `retry_failed_messages` or `send_followups` fails (`src/logger.py:179`, `src/logger.py:220`), the messages were already sent, yet the row stays due and is sent again on the next call.
- The column-presence checks that return early are not modelled. Every row has every column.
- The write-and-read round trip that turns an empty string into an empty cell is not modelled. An absent Message_ID is `None`; an id of `Some("")` stays possible in the model, and the status step skips it as the source does.
- A result's status is taken as already parsed, so an ingested status is whatever `Status` value the result holds. Status strings given to `update_delivery_status` are parsed, so a known name always becomes its own status.
- `DeliveryLogger.ExcelLogger.MonitorCycle`: the operations it calls read the table again. The model assumes those reads succeed, that one `now` holds for the whole iteration, and that the status and reply calls see the same instant. The `threading.Lock`, the daemon thread, the `while True` loop, `time.sleep` and the per-iteration `except` are not modelled.
- HTTP is not modelled: `requests`, timeouts, FastAPI, pydantic and `raise_for_status`. Responses are the input datatypes `SendResponse`, `StatusResponse` and `ReplyResponse`, and the server's 404 is `NotFound`.
- The payload a resend or follow-up posts is not tied to the row's phone and text. Only the answer to it, given as input, is modelled.
- Randomness becomes caller-supplied values: template choice, delivery and engagement draws, the canned-reply choice and `_generate_message_id`.
- Clock reading and date formatting (`datetime.now`, `strftime`, `pd.to_datetime`) are not modelled. Times are integer seconds, and the server's reply timestamp is the text `ts`.
- `ApiClient.Format` covers named placeholders only. A template is a list of literal text, `{name}` and other named fields. Positional fields, format specs and malformed braces are not modelled.
- `ApiClient.SendBulkMessages` assumes every lead has a name and a phone. A lead missing either raises outside the per-lead handler in the source.
- A reply history whose JSON is readable but not a list is not modelled. In the source, appending to it raises.
- `print` and `logging` output is not modelled. The `src/app.py` user interface is not part of this model.

