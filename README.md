# EmailManager inbox manager, modelled in Dafny

This project models the core of the EmailManager console application. That core is
`EmailInboxManager` together with its domain record `Email`.

`EmailInboxManager` does four things:
- It builds an IMAP4 server configuration from host, account and password, with the port chosen by the SSL flag.
- It keeps the list `Emails` of every email it has retrieved.
- `ReceiveUnreadMailAsync` asks the mail client for the summaries of unread messages only (`NewOnly`). It walks them: for each one it retrieves the message, appends its `Email` to `Emails`, and marks the message read when the summary was unread.
- `MonitorNewEmailAsync` connects and refreshes once. It then loops: poll the cancellation token, wait for new mail, and on a signal refresh and fetch, otherwise cancel the wait. It logs out once the token reads "cancelled".

The mail library (EAGetMail) is a collaborator, modelled as an in-memory mailbox:
- `MailClient` is a class holding the listing (`infos`, each summary with an index and a read flag), the messages by index, a connected flag, the listing option (all mail or `NewOnly`), and a script of wakeups. Each wakeup is either a timeout or the arrival of new summaries. Under `NewOnly`, `GetMailInfos` returns the summaries whose message is unread, in listing order.
- The cancellation token is a class whose poll reads "not cancelled" a fixed number of times and then "cancelled" for good.

Modules:
- `Wrappers`: `Option` and `Result`.
- `EmailModel` (`Models/Email.cs`): the `Email` datatype and its `ToString` rendering.
- `MailLibrary`, `Cancellation`: the collaborators named above.
- `Trace`: the manager's observable steps, plus the ordering discipline `Disciplined` that the code imposes on them. For example, a message is marked read only right after its email is stored, a store or failed retrieval happens only inside a batch, and a logout happens only right after a poll that read "cancelled".
- `Fetcher`: the fetch batch as a function `FetchBatch` on the state it changes. That state is the store, the server listing and the trace. `Processed` is the state after the first `i` summaries.
- `Scheduler`: the monitor loop as the functions `Cycles` and `MonitorRun`. This module holds the lemmas about whole runs.
- `InboxManager`: the `EmailInboxManager` class. Each of its methods is proved equal to the matching function: `ReceiveUnreadMail` to `FetchBatch` over the unread summaries, `WaitAndFetch` (one loop iteration) to `WaitStep`, `MonitorNewEmail` to `MonitorRun`.

What the lemmas establish, at a glance:
- The store is append-only and only grows by what the trace records as stored (`StoreFollowsTrace`).
- Append order is the listing order.
- Addresses keep their count and order.
- Retrieved unread messages end up read, and nothing is marked before it is stored. A completed batch leaves every message read, so the next batch does not retrieve them again (`NewOnlyClears`), and a later arrival stores only the new messages (`TwoArrivalsScenario`).
- Timed-out waits change nothing.
- The token is polled only at the top of each iteration, so a batch that has started runs to its end before the next poll. The loop's trace is a run of poll blocks, each a "not cancelled" poll followed by one whole iteration that polls nowhere, and then the "cancelled" poll and the logout (`CyclesBlocks`, `MonitorBlocks`). `Disciplined` alone does not say this, because a poll may follow a store or a mark step.
- The logout happens exactly once, at the end, after a "cancelled" poll. A run aborted by a failed retrieval never logs out.

The code has no `finally`. Its `catch { throw; }` (EmailInboxManager.cs:79-82) rethrows without calling `Logout`. So `MonitorNewEmail` ends still connected after a failed retrieval (`client.connected <==> outcome.FetchError?`).

## Model

| member | source | states |
|---|---|---|
| `InboxManager.NewMailServer` | EmailManager.Lab/EmailInboxManager.cs:15-28 | fails exactly when server, email or password is null, naming the first null one in check order; otherwise the configuration copies host, user and password, uses IMAP4, sets SSL to `useSsl`, and uses port 993 exactly when SSL is on and 143 exactly when it is off |
| `InboxManager.EmailInboxManager.Create` | EmailManager.Lab/EmailInboxManager.cs:15-42 | a manager is created exactly when the configuration is valid, with that configuration and an empty store; otherwise the argument error is returned; `useSsl` defaults to false |
| `InboxManager.EmailInboxManager.constructor` | EmailManager.Lab/EmailInboxManager.cs:41 | a new manager keeps the given server and client and starts with an empty `Emails` and an empty trace |
| `InboxManager.EmailInboxManager.ReceiveUnreadMail` | EmailManager.Lab/EmailInboxManager.cs:85-124 | the listing option is reset and set to `NewOnly`; the batch then walks the unread summaries of the old listing, and leaves store, listing and trace exactly as `FetchBatch` over those summaries says, returning its outcome |
| `InboxManager.EmailInboxManager.FetchListed` | EmailManager.Lab/EmailInboxManager.cs:95-121 | the loop over the listed summaries leaves store, listing and trace exactly as `FetchBatch` of the old state over that listing says, and returns its outcome; it stops at the first retrieval that fails |
| `InboxManager.EmailInboxManager.StoreRetrieved` | EmailManager.Lab/EmailInboxManager.cs:101-120 | one pass of the loop body for a retrieved message: the store gains its email, the trace its store step, and an unread summary's message is then marked read with its mark step |
| `InboxManager.EmailInboxManager.RefreshMail` | EmailManager.Lab/EmailInboxManager.cs:126-144 | refreshing changes neither the store nor the listing; only a `Refreshed` step is recorded |
| `InboxManager.EmailInboxManager.WaitAndFetch` | EmailManager.Lab/EmailInboxManager.cs:60-70 | one loop iteration after a "not cancelled" poll leaves store, listing, trace and script exactly as `WaitStep` says and returns its outcome; the client stays connected, and the listing option only ever becomes `NewOnly` |
| `InboxManager.EmailInboxManager.MonitorNewEmail` | EmailManager.Lab/EmailInboxManager.cs:44-83 | the loop leaves store, listing, trace and wakeup script exactly as `MonitorRun` says; the client is still connected at the end exactly when a retrieval failed; the token is never polled more often than it allows, not at all when the login is refused, and a completed run has read it as cancelled; the listing option is unchanged when the login is refused and otherwise unchanged or `NewOnly` |
| `Fetcher.AddressTexts` | EmailManager.Lab/EmailInboxManager.cs:101-102 | the converted address list has the same length, and its k-th entry is the text of the k-th address |
| `Fetcher.ToEmail` | EmailManager.Lab/EmailInboxManager.cs:100-111 | From, Subject, TextBody and HtmlBody are copied from the message; To and Cc have the message's counts, with each address's text in the same position |
| `Fetcher.Indices` | EmailManager.Lab/EmailInboxManager.cs:95-98 | the message indices of the listing, one per summary, in listing order |
| `Fetcher.Delivered` | EmailManager.Lab/EmailInboxManager.cs:100-113 | one email per index, the k-th built from the message with the k-th index |
| `Fetcher.UnreadIndices` | EmailManager.Lab/EmailInboxManager.cs:116 | an index is listed exactly when some summary with that index was unread |
| `Fetcher.MarkAll` | EmailManager.Lab/EmailInboxManager.cs:116-120 | after marking the given messages read, a summary is read exactly when it was read before or its index was marked; indices are unchanged |
| `Fetcher.FetchablePrefix` | EmailManager.Lab/EmailInboxManager.cs:95-100 | every summary before the returned position can be retrieved, and the summary at it, if any, cannot |
| `Fetcher.FetchBatch` | EmailManager.Lab/EmailInboxManager.cs:91-121 | for the listed summaries `list`: the batch fails exactly when some retrieval fails, naming the first failed index. The store gains one email per retrieved summary and keeps its old contents as a prefix. The k-th new email comes from the k-th summary. Exactly the messages of retrieved unread summaries become read. The trace only grows |
| `Fetcher.StoreStep` | EmailManager.Lab/EmailInboxManager.cs:101-120 | defines one pass of the loop body: append the email, record the store step, then, for an unread summary, mark its message read and record the mark step; `ProcessedPrefix` gives the closed form of repeated passes |
| `Fetcher.Processed` | EmailManager.Lab/EmailInboxManager.cs:95-121 | after `i` summaries the store has grown by exactly `i` emails |
| `Fetcher.ProcessedEmails` | EmailManager.Lab/EmailInboxManager.cs:95-113 | after `i` summaries the store is the old store followed by the emails of their messages, in listing order |
| `Fetcher.ProcessedInfos` | EmailManager.Lab/EmailInboxManager.cs:115-120 | after `i` summaries exactly the messages of the unread ones among them have been marked read |
| `Fetcher.ProcessedEvents` | EmailManager.Lab/EmailInboxManager.cs:95-121 | after `i` summaries the trace holds the listing step and then, per summary, its store step followed by its mark step when it was unread |
| `Fetcher.ProcessedPrefix` | EmailManager.Lab/EmailInboxManager.cs:95-121 | the state after `i` summaries, in closed form |
| `Fetcher.BatchCompletes` | EmailManager.Lab/EmailInboxManager.cs:91-123 | when every message can be retrieved, the batch ends where the loop over all summaries ends, with outcome Completed |
| `Fetcher.BatchFails` | EmailManager.Lab/EmailInboxManager.cs:100 | when summary `i` is the first that cannot be retrieved, the batch ends where the loop stopped, plus the failure, with that index as the error |
| `Fetcher.NewOnlyMarks` | EmailManager.Lab/EmailInboxManager.cs:87-120 | for a batch over the unread summaries, a summary ends up read exactly when it was read before or its message was among those retrieved |
| `Fetcher.NewOnlyClears` | EmailManager.Lab/EmailInboxManager.cs:115-120 | a completed batch over the unread summaries leaves every summary of the listing read, so the next `NewOnly` listing does not return them again |
| `Fetcher.EmptyBatch` | EmailManager.Lab/EmailInboxManager.cs:87-95 | when every message is read, the `NewOnly` listing is empty and the batch completes with store and listing unchanged, recording only the listing step |
| `Fetcher.BatchEventsProjections` | EmailManager.Lab/EmailInboxManager.cs:112-120 | the store steps of a complete batch name every listed summary in order, and its mark steps name exactly the unread ones in order |
| `Fetcher.BatchEventsDisciplined` | EmailManager.Lab/EmailInboxManager.cs:112-120 | a batch's steps are disciplined, begin with a store step, and consist of store and mark steps only |
| `Fetcher.BatchTraceDisciplined` | EmailManager.Lab/EmailInboxManager.cs:91-121 | a batch trace starts with the listing, is disciplined, and ends with a store, mark or listing step on success, or with the failed retrieval |
| `Fetcher.BatchTraceProjections` | EmailManager.Lab/EmailInboxManager.cs:91-121 | the stored and marked indices of a batch trace are those of the retrieved prefix and of its unread summaries |
| `Trace.NothingAfterCancellation` | EmailManager.Lab/EmailInboxManager.cs:54-75 | in a disciplined trace, a "cancelled" poll is the last step but one and is followed by the logout |
| `MailLibrary.Unread` | EmailManager.Lab/EmailInboxManager.cs:88-91 | the `NewOnly` listing is no longer than the listing and holds only summaries of unread messages |
| `MailLibrary.UnreadMembers` | EmailManager.Lab/EmailInboxManager.cs:88-91 | a summary is in the `NewOnly` listing exactly when it is in the listing and unread |
| `MailLibrary.UnreadConcat` | EmailManager.Lab/EmailInboxManager.cs:88-91 | the `NewOnly` listing of two listings put together is the `NewOnly` listing of each, in order |
| `MailLibrary.Listing` | EmailManager.Lab/EmailInboxManager.cs:88-91 | defines what `GetMailInfos` returns: the whole listing under all mail, `Unread` of it under `NewOnly`; `UnreadMembers` and `UnreadConcat` state its properties |
| `MailLibrary.SetRead` | EmailManager.Lab/EmailInboxManager.cs:119 | `MarkAsRead` sets the flag of every summary of that message and leaves the others and all indices unchanged |
| `MailLibrary.AwaitMail` | EmailManager.Lab/EmailInboxManager.cs:60 | a wait is signalled exactly when the next scripted event is an arrival, which extends the listing; it consumes one scripted event |
| `MailLibrary.MailClient.Connect` | EmailManager.Lab/EmailInboxManager.cs:48 | connecting succeeds exactly when the server accepts the login |
| `MailLibrary.MailClient.ResetMailInfosParam` | EmailManager.Lab/EmailInboxManager.cs:87 | the listing option is back to listing all mail |
| `MailLibrary.MailClient.SetMailInfosOption` | EmailManager.Lab/EmailInboxManager.cs:88 | the listing option becomes the one given |
| `MailLibrary.MailClient.GetMailInfos` | EmailManager.Lab/EmailInboxManager.cs:91 | the whole listing under the all-mail option, and only the summaries of unread messages, in order, under `NewOnly` |
| `MailLibrary.MailClient.GetMail` | EmailManager.Lab/EmailInboxManager.cs:100 | retrieval succeeds exactly when the server holds the message, and returns it |
| `MailLibrary.MailClient.MarkAsRead` | EmailManager.Lab/EmailInboxManager.cs:119 | the listing becomes `SetRead` of the old one |
| `MailLibrary.MailClient.RefreshMailInfos` | EmailManager.Lab/EmailInboxManager.cs:137 | requires a connection and changes nothing: its frame is empty, since the in-memory mailbox is always current |
| `MailLibrary.MailClient.CancelWaitEmail` | EmailManager.Lab/EmailInboxManager.cs:69 | requires a connection and changes nothing: its frame is empty, so the listing and the script stay as the timed-out wait left them |
| `MailLibrary.MailClient.WaitNewEmail` | EmailManager.Lab/EmailInboxManager.cs:60 | the signal, the new listing and the rest of the script are those of `AwaitMail` |
| `MailLibrary.MailClient.Logout` | EmailManager.Lab/EmailInboxManager.cs:75 | the client is disconnected |
| `Cancellation.CancellationToken.IsCancellationRequested` | EmailManager.Lab/EmailInboxManager.cs:54 | a poll reads "cancelled" exactly when no "not cancelled" reads remain, and then keeps reading it |
| `Scheduler.WaitStep` | EmailManager.Lab/EmailInboxManager.cs:60-70 | defines one iteration after a negative poll: the wait, then refresh and a batch over the unread summaries on a signal, or cancel the wait; `WaitStepStore`, `StepTraceDisciplined` and `IdleStep` state its properties |
| `Scheduler.PollStep` | EmailManager.Lab/EmailInboxManager.cs:54-70 | defines a "not cancelled" poll followed by that iteration; `PollStepShape`, `ArrivalStep` and `FreshMailOnly` state its properties |
| `Scheduler.Cycles` | EmailManager.Lab/EmailInboxManager.cs:52-75 | defines the `while (true)` loop: a "cancelled" poll ends it with the logout, a failed retrieval ends the run, otherwise the next iteration follows; `CyclesShape`, `CyclesBlocks`, `CancellationEndsRun` and `IdleCycles` state its properties |
| `Scheduler.MonitorRun` | EmailManager.Lab/EmailInboxManager.cs:44-83 | defines the whole run: a refused login changes nothing, otherwise connect, refresh and the loop; `MonitorShape` and `CancellationEndsRun` state its properties |
| `Scheduler.ArrivalStep` | EmailManager.Lab/EmailInboxManager.cs:54-65 | after a "not cancelled" poll and a wait that an arrival signals, the listing has grown by the arrived summaries, and the iteration is a refresh and then a batch over the unread summaries of the grown listing |
| `Scheduler.IdleStep` | EmailManager.Lab/EmailInboxManager.cs:60-70 | a wait that times out leaves the store and the listing unchanged and completes the iteration |
| `Scheduler.WaitStepStore` | EmailManager.Lab/EmailInboxManager.cs:60-70 | an iteration only appends to the trace and the store, and the store gains exactly the emails the trace records as stored |
| `Scheduler.StepTraceDisciplined` | EmailManager.Lab/EmailInboxManager.cs:60-70 | an iteration's steps start with the wait, are disciplined, and end either the iteration or, after a failed retrieval, the run |
| `Scheduler.PollStepShape` | EmailManager.Lab/EmailInboxManager.cs:54-70 | a "not cancelled" poll and its iteration append a disciplined trace that starts with the poll, and the store follows that trace |
| `Scheduler.CyclesShape` | EmailManager.Lab/EmailInboxManager.cs:52-75 | every run of the loop appends a disciplined trace that starts with a poll and ends with "cancelled" and the logout, or with the failed retrieval; the store follows that trace |
| `Fetcher.BatchTraceNoPoll` | EmailManager.Lab/EmailInboxManager.cs:94-121 | a batch's steps include no poll of the token: the `for` loop runs over the whole listing without looking at it |
| `Scheduler.StepTraceNoPoll` | EmailManager.Lab/EmailInboxManager.cs:57-70 | an iteration's steps start with the wait and include no poll: the refresh and the whole batch come before the next poll |
| `Scheduler.PollBlock` | EmailManager.Lab/EmailInboxManager.cs:54-70 | a "not cancelled" poll and its iteration append one poll block: the poll, then the wait and steps that include no poll |
| `Scheduler.CyclesBlocks` | EmailManager.Lab/EmailInboxManager.cs:52-75 | the loop's trace is a run of poll blocks followed by the "cancelled" poll and the logout, or by nothing more when a failed retrieval ended the run; so the token is polled only at the top of each iteration |
| `Scheduler.MonitorBlocks` | EmailManager.Lab/EmailInboxManager.cs:44-75 | after an accepted login, the run's trace is the connection and the first refresh, then a run of poll blocks and the loop's end as in `CyclesBlocks` |
| `Scheduler.MonitorShape` | EmailManager.Lab/EmailInboxManager.cs:44-83 | a run fails to connect exactly when the login is refused, and then changes nothing; otherwise its trace starts with connect and refresh, is disciplined, the store follows it, and it ends with the logout after "cancelled" or with the failed retrieval |
| `Scheduler.CancellationEndsRun` | EmailManager.Lab/EmailInboxManager.cs:54-75 | in a connected run a "cancelled" poll occurs only as the last step but one of a completed run, and a logout only as its last step; a run aborted by a failed retrieval never logs out |
| `Scheduler.IdleCycles` | EmailManager.Lab/EmailInboxManager.cs:52-72 | a loop whose every wait times out completes and leaves the store and the listing unchanged |
| `Scheduler.ArrivalScenario` | EmailManager.Lab/EmailInboxManager.cs:44-83 | one arrival of an unread and a read message between two polls stores only the unread one's email; both end up read and the run completes |
| `Scheduler.MixedArrival` | EmailManager.Lab/EmailInboxManager.cs:54-65 | the iteration of that scenario: a "not cancelled" poll right after the connection whose wait brings in an unread and a read summary stores only the unread one's email, leaves both read and completes |
| `Scheduler.MixedUnread` | EmailManager.Lab/EmailInboxManager.cs:87-119 | of an unread and a read summary the `NewOnly` listing holds only the first, and marking its index read leaves both summaries read |
| `Scheduler.FreshMailOnly` | EmailManager.Lab/EmailInboxManager.cs:54-65 | when every message is read before an iteration, the iteration stores exactly the emails of the unread arrived summaries it could retrieve, in order, and a completed iteration leaves every message read |
| `Scheduler.FreshArrival` | EmailManager.Lab/EmailInboxManager.cs:54-65 | the same for an arrival: only unread arrived messages are stored, the iteration completes exactly when all of them could be retrieved, and one scripted wakeup is consumed |
| `Scheduler.OnlyArrivalsUnread` | EmailManager.Lab/EmailInboxManager.cs:88-91 | when every listed message is read, the `NewOnly` listing after an arrival is that of the arrived summaries |
| `Scheduler.OneFreshMessage` | EmailManager.Lab/EmailInboxManager.cs:54-65 | with every message read, the arrival of one unread message stores exactly its email, completes, and leaves every message read |
| `Scheduler.TwoArrivalsScenario` | EmailManager.Lab/EmailInboxManager.cs:44-83 | on a server where every message is read, two successive arrivals of one unread message each store each email once, in arrival order, and the run completes |
| `Scheduler.TwoFreshCycles` | EmailManager.Lab/EmailInboxManager.cs:52-75 | the loop of that scenario, from the state after the connection: two such arrivals then a positive poll store both emails in arrival order and complete |
| `Scheduler.LastFreshCycle` | EmailManager.Lab/EmailInboxManager.cs:52-75 | one such arrival followed by a positive poll stores just that email and completes |
| `Scheduler.FreshCycle` | EmailManager.Lab/EmailInboxManager.cs:52-71 | with every message read, an iteration whose wait brings in one unread, retrievable message continues the loop from a state whose store has gained exactly that message's email and where every message is read again |
| `EmailModel.Render` | EmailManager.Lab/Models/Email.cs:24-33 | the rendering has the length of the five labelled lines; it starts with "From: ", the sender verbatim and a newline, and ends with "Body: ", a line feed, the text body verbatim and a newline |
| `EmailModel.Unlines` | EmailManager.Lab/Models/Email.cs:26-32 | text built by `AppendLine` calls is at least `|lines|` times the newline's length long and, when there is a line, ends with the newline; `UnlinesSingle` and `UnlinesConcat` state what it builds |
| `EmailModel.UnlinesSingle` | EmailManager.Lab/Models/Email.cs:27 | one `AppendLine` call adds the line followed by the newline |
| `EmailModel.UnlinesConcat` | EmailManager.Lab/Models/Email.cs:26-32 | feeding a builder one run of lines and then another gives the text of the first run followed by that of the second, so the text is each line followed by the newline, in order |
| `EmailModel.RenderIsFiveLines` | EmailManager.Lab/Models/Email.cs:27-31 | the rendering is exactly the lines From, To, Cc, Subject and Body, in that order and each with its label, each followed by the newline |
| `EmailModel.SubjectVerbatim` | EmailManager.Lab/Models/Email.cs:30 | the subject appears verbatim right after its label and is followed by a newline |
| `EmailModel.RenderIgnoresHtmlBody` | EmailManager.Lab/Models/Email.cs:24-33 | changing the HTML body does not change the rendering |

The `Email` constructor (Models/Email.cs:7-22) is the constructor of the `EmailModel.Email` datatype. It stores its six arguments unchanged. The private setters stop anyone from reassigning a property, and a datatype value models that. It does not model the `To` and `Cc` lists themselves: see "## Left out".

## Left out

- Program.cs is not part of this model. It holds the console UI, the keypress task that cancels the token, and the final report.
- The event handlers (EmailInboxManager.cs:146-175) only log to the console and never affect control flow.
- The creation of the local "inbox" directory (EmailInboxManager.cs:130-135) is file-system I/O whose result is never used.
- All `Console.WriteLine` output and the `DateTime.Now` formatting are left out. So are the timeout clock (`TimeoutSeconds` is passed to the wait but does not bound anything) and `async`/`Task`, which the code never awaits concurrently.
- The IMAP4 protocol, TLS and the license string of `MailClient("TryIt")` are replaced by the in-memory mailbox. The client is passed to `Create` instead of being built inside it.
- `GetMailInfosParam` is modelled only by its `GetMailInfosOptions` field. `Reset()` sets that field back to all mail; the other fields of the library's parameter object are not modelled.
- A retrieval that throws is modelled as `GetMail` returning `None`. The exception propagates (`catch { throw; }`), so the batch and the run stop with `FetchError`; a failed `Connect` ends the run with `ConnectFailed`. Other exceptions from the library are not modelled.
- `MonitorNewEmail`: cancellation is modelled as a fixed number of "not cancelled" polls. Runs in which the token is never cancelled, and cancellation racing with a running iteration, are not modelled.
- `EmailModel.Render`: the text of `{To}` and `{Cc}` comes from the list type's default `ToString`, so it is an opaque parameter `listText`. The platform newline of `AppendLine` is an opaque parameter too.
- `Fetcher.ToEmail`: `MailAddress.ToString()` is modelled as the address's stored text.
- Concurrent readers of `Emails` while the monitor appends to it are not modelled.
- `EmailModel.Email`: `To` and `Cc` are `IList<string>` references to the arrays that `Array.ConvertAll` built (EmailInboxManager.cs:101-102). Anyone holding such an array can still change its elements afterwards. The model stores them as values, so that aliasing is not modelled.
